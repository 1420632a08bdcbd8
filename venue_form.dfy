/**
 * The venue form: one record holding the venue's text fields, its list of
 * amenities and the amenity being typed. Saving only shows a message and
 * navigates away, so the model covers the two handlers that change the record.
 */
module VenueForm {
  import opened Seqs

  datatype Venue = Venue(name: string, location: string, capacity: string, amenities: seq<string>, newAmenity: string)

  const EmptyVenue := Venue("", "", "", [], "")

  /** The inputs `handleChange` serves, by their `name` attribute. */
  datatype Field = Name | Location | Capacity | NewAmenity

  /** The text a field holds. */
  function FieldValue(v: Venue, f: Field): string {
    match f
    case Name => v.name
    case Location => v.location
    case Capacity => v.capacity
    case NewAmenity => v.newAmenity
  }

  /** `{ ...venue, [name]: value }`. */
  function WithField(v: Venue, f: Field, value: string): (r: Venue)
    ensures FieldValue(r, f) == value
    ensures forall g | g != f :: FieldValue(r, g) == FieldValue(v, g)
    ensures r.amenities == v.amenities
  {
    match f
    case Name => v.(name := value)
    case Location => v.(location := value)
    case Capacity => v.(capacity := value)
    case NewAmenity => v.(newAmenity := value)
  }

  /**
   * `handleAddAmenity` on a record: a non-empty amenity not yet in the list is
   * appended and the input cleared; otherwise nothing changes. Only the empty
   * string is refused: white space alone is a new amenity.
   */
  function WithAmenity(v: Venue): (r: Venue)
    ensures forall a :: a in r.amenities <==> a in v.amenities || (a == v.newAmenity && v.newAmenity != "")
    ensures NoDuplicates(v.amenities) ==> NoDuplicates(r.amenities)
    ensures |v.amenities| <= |r.amenities| && r.amenities[..|v.amenities|] == v.amenities
    ensures r.name == v.name && r.location == v.location && r.capacity == v.capacity
    ensures r != v ==> r.newAmenity == "" && |r.amenities| == |v.amenities| + 1
  {
    if v.newAmenity != "" && v.newAmenity !in v.amenities then
      v.(amenities := v.amenities + [v.newAmenity], newAmenity := "")
    else
      v
  }

  /** Pressing "Add" a second time changes nothing. */
  lemma WithAmenityIdempotent(v: Venue)
    ensures WithAmenity(WithAmenity(v)) == WithAmenity(v)
  {
  }

  /** An amenity made of white space only is still added. */
  lemma BlankAmenityAdded()
    ensures WithAmenity(Venue("", "", "", [], " ")).amenities == [" "]
  {
  }

  class VenueEditor {
    var venue: Venue

    /** The amenity list never holds the same name twice. */
    predicate Valid()
      reads this
    {
      NoDuplicates(venue.amenities)
    }

    constructor()
      ensures venue == EmptyVenue && Valid()
    {
      venue := EmptyVenue;
    }

    /** An input changes its own field and nothing else. */
    method HandleChange(f: Field, value: string)
      requires Valid()
      modifies this
      ensures Valid()
      ensures venue == WithField(old(venue), f, value)
    {
      venue := WithField(venue, f, value);
    }

    /** The "Add" button next to the amenity input. */
    method AddAmenity()
      requires Valid()
      modifies this
      ensures Valid()
      ensures venue == WithAmenity(old(venue))
    {
      if venue.newAmenity != "" && venue.newAmenity !in venue.amenities {
        venue := venue.(amenities := venue.amenities + [venue.newAmenity], newAmenity := "");
      }
    }
  }
}
