/**
 * The venues list page: venues narrowed by a search over name and location,
 * a capacity bucket and a set of required amenities, shown twelve to a page.
 */
module VenuesList {
  import opened JsStrings
  import opened Seqs
  import opened Paging

  /** A venue; the image, description, rating and price range are only displayed. */
  datatype Venue = Venue(id: string, name: string, location: string, capacity: int, amenities: seq<string>)

  datatype VenueFilters = VenueFilters(capacity: string, amenities: seq<string>)

  const NoVenueFilters := VenueFilters("all", [])
  const VenuesPageSize: nat := 12

  /** The name or the location contains the term, ignoring case. */
  predicate MatchesSearch(v: Venue, term: string) {
    Includes(ToLower(v.name), ToLower(term)) || Includes(ToLower(v.location), ToLower(term))
  }

  /** The capacity bucket test; a bucket name other than the three known ones keeps every venue. */
  predicate InBucket(v: Venue, bucket: string) {
    if bucket == "small" then v.capacity < 3000
    else if bucket == "medium" then v.capacity >= 3000 && v.capacity < 10000
    else if bucket == "large" then v.capacity >= 10000
    else true
  }

  /** `amenities.every(a => venue.amenities.includes(a))`. */
  predicate HasAll(v: Venue, amenities: seq<string>) {
    forall a | a in amenities :: a in v.amenities
  }

  function BySearch(venues: seq<Venue>, term: string): seq<Venue> {
    if term == [] then venues else Filter(venues, (v: Venue) => MatchesSearch(v, term))
  }

  function ByCapacity(venues: seq<Venue>, bucket: string): seq<Venue> {
    if bucket == "all" then venues else Filter(venues, (v: Venue) => InBucket(v, bucket))
  }

  function ByAmenities(venues: seq<Venue>, amenities: seq<string>): seq<Venue> {
    if |amenities| > 0 then Filter(venues, (v: Venue) => HasAll(v, amenities)) else venues
  }

  /** The three filters in the order the page applies them. */
  function Filtered(venues: seq<Venue>, term: string, filters: VenueFilters): seq<Venue> {
    ByAmenities(ByCapacity(BySearch(venues, term), filters.capacity), filters.amenities)
  }

  /** Whether one venue passes all three filters. */
  predicate Keep(v: Venue, term: string, filters: VenueFilters) {
    (term == [] || MatchesSearch(v, term)) && InBucket(v, filters.capacity) && HasAll(v, filters.amenities)
  }

  /** The three filters in a row keep exactly the venues passing each one, in their original order. */
  lemma {:induction false} FilteredIsOneFilter(venues: seq<Venue>, term: string, filters: VenueFilters)
    ensures Filtered(venues, term, filters) == Filter(venues, (v: Venue) => Keep(v, term, filters))
  {
    if venues != [] {
      FilteredIsOneFilter(venues[1..], term, filters);
      var v := venues[0];
      assert venues == [v] + venues[1..];
      var s1, t1 := BySearch(venues, term), BySearch(venues[1..], term);
      assert s1 == (if term == [] || MatchesSearch(v, term) then [v] else []) + t1;
      if term == [] || MatchesSearch(v, term) {
        var s2, t2 := ByCapacity(s1, filters.capacity), ByCapacity(t1, filters.capacity);
        assert s2 == (if InBucket(v, filters.capacity) then [v] else []) + t2;
        if InBucket(v, filters.capacity) {
          assert ByAmenities(s2, filters.amenities)
              == (if HasAll(v, filters.amenities) then [v] else []) + ByAmenities(t2, filters.amenities);
        }
      }
    }
  }

  /** The shown venues are exactly the ones passing every filter, in their original order. */
  lemma FilteredSpec(venues: seq<Venue>, term: string, filters: VenueFilters)
    ensures forall v :: v in Filtered(venues, term, filters) <==> v in venues && Keep(v, term, filters)
    ensures Subseq(Filtered(venues, term, filters), venues)
  {
    FilteredIsOneFilter(venues, term, filters);
    FilterSubseq(venues, (v: Venue) => Keep(v, term, filters));
  }

  /** Every venue falls in exactly one of the three capacity buckets. */
  lemma BucketsPartition(v: Venue)
    ensures InBucket(v, "small") || InBucket(v, "medium") || InBucket(v, "large")
    ensures !(InBucket(v, "small") && InBucket(v, "medium"))
    ensures !(InBucket(v, "small") && InBucket(v, "large"))
    ensures !(InBucket(v, "medium") && InBucket(v, "large"))
  {
  }

  /** The three bucket filters together list every venue exactly once. */
  lemma {:induction false} BucketsCount(venues: seq<Venue>)
    ensures |ByCapacity(venues, "small")| + |ByCapacity(venues, "medium")| + |ByCapacity(venues, "large")| == |venues|
  {
    if venues != [] {
      BucketsCount(venues[1..]);
      BucketsPartition(venues[0]);
    }
  }

  /** No selected amenity keeps every venue; requiring more amenities never keeps more venues. */
  lemma AmenityFilterMonotone(venues: seq<Venue>, fewer: seq<string>, more: seq<string>)
    requires forall a | a in fewer :: a in more
    ensures ByAmenities(venues, []) == venues
    ensures forall v | v in ByAmenities(venues, more) :: v in ByAmenities(venues, fewer)
  {
  }

  /** The Previous button; it is disabled on page 1. */
  function PrevPage(page: int): (r: int)
    ensures page != 1 ==> r == page - 1
    ensures page == 1 ==> r == 1
  {
    if page == 1 then page else page - 1
  }

  /**
   * The Next button as written: disabled only when the page equals the page
   * count, so with no pages at all it is never disabled.
   */
  function NextPageAsWritten(page: int, pages: nat): (r: int)
    ensures page == pages ==> r == page
    ensures page != pages ==> r == page + 1
  {
    if page == pages then page else page + 1
  }

  /** With nothing to show, the Next button as written walks past the last page. */
  lemma NextPageAsWrittenRunsPast()
    ensures NextPageAsWritten(1, 0) == 2 && NextPageAsWritten(2, 0) == 3
  {
  }

  /** The Next button as evidently intended: disabled from the last page on. */
  function NextPage(page: int, pages: nat): (r: int)
    ensures page >= pages ==> r == page
    ensures page < pages ==> r == page + 1
  {
    if page >= pages then page else page + 1
  }

  /** The page number is at least 1 and beyond the page count only when there are no pages. */
  predicate PageInRange(page: int, pages: nat) {
    1 <= page && (page <= pages || page == 1)
  }

  /**
   * What the page as written keeps: the page number is at least 1, and within
   * the page count whenever there is a page at all. With no pages, the Next
   * button as written lets it grow without bound.
   */
  predicate PageReachable(page: int, pages: nat) {
    1 <= page && (pages > 0 ==> page <= pages)
  }

  /** The buttons as written keep the page reachable: Next stops at the last page once there is one. */
  lemma ButtonsAsWrittenKeepPageReachable(page: int, pages: nat)
    requires PageReachable(page, pages)
    ensures PageReachable(PrevPage(page), pages)
    ensures PageReachable(NextPageAsWritten(page, pages), pages)
    ensures pages > 0 ==> NextPageAsWritten(page, pages) == NextPage(page, pages)
  {
  }

  /** With the corrected Next, both buttons keep the page number in range. */
  lemma ButtonsKeepPageInRange(page: int, pages: nat)
    requires PageInRange(page, pages)
    ensures PageInRange(PrevPage(page), pages)
    ensures PageInRange(NextPage(page, pages), pages)
  {
  }

  class VenuesListPage {
    var venues: seq<Venue>
    var filteredVenues: seq<Venue>
    var currentPage: int
    var totalPages: nat
    var searchTerm: string
    var filters: VenueFilters
    const pageSize: nat

    ghost predicate Valid()
      reads this
    {
      && pageSize == VenuesPageSize
      && filteredVenues == Filtered(venues, searchTerm, filters)
      && totalPages == CeilDiv(|filteredVenues|, pageSize)
      && PageReachable(currentPage, totalPages)
    }

    /** The page as first rendered, after the filtering effect has run once on the empty list. */
    constructor()
      ensures Valid()
      ensures venues == [] && searchTerm == [] && filters == NoVenueFilters
      ensures currentPage == 1 && totalPages == 0
    {
      venues, searchTerm, filters := [], [], NoVenueFilters;
      pageSize := VenuesPageSize;
      filteredVenues, totalPages, currentPage := [], 0, 1;
    }

    /** The filtering effect: recompute the shown list and the page count, and go back to page 1. */
    method Refresh()
      modifies this
      requires pageSize == VenuesPageSize
      ensures Valid()
      ensures filteredVenues == Filtered(venues, searchTerm, filters)
      ensures totalPages == CeilDiv(|filteredVenues|, pageSize) && currentPage == 1
      ensures venues == old(venues) && searchTerm == old(searchTerm) && filters == old(filters)
    {
      filteredVenues := Filtered(venues, searchTerm, filters);
      totalPages := CeilDiv(|filteredVenues|, pageSize);
      currentPage := 1;
    }

    /** The fetched venues arrive; the effect then filters them. */
    method Load(fetched: seq<Venue>)
      modifies this
      requires Valid()
      ensures Valid()
      ensures venues == fetched && filteredVenues == Filtered(fetched, searchTerm, filters) && currentPage == 1
      ensures searchTerm == old(searchTerm) && filters == old(filters)
    {
      venues := fetched;
      Refresh();
    }

    /** The debounced search callback; the list is recomputed only when the term changed. */
    method Search(term: string)
      modifies this
      requires Valid()
      ensures Valid()
      ensures searchTerm == term && currentPage == 1
      ensures venues == old(venues) && filters == old(filters)
      ensures filteredVenues == Filtered(venues, term, filters)
    {
      if term != searchTerm {
        searchTerm := term;
        Refresh();
      } else {
        currentPage := 1;
      }
    }

    /** Choosing a capacity bucket in the filter dialog. */
    method SetCapacityFilter(bucket: string)
      modifies this
      requires Valid()
      ensures Valid()
      ensures filters == old(filters).(capacity := bucket) && currentPage == 1
      ensures venues == old(venues) && searchTerm == old(searchTerm)
    {
      filters := filters.(capacity := bucket);
      Refresh();
    }

    /** An amenity checkbox: removes the amenity when selected, appends it otherwise; the bucket is kept. */
    method ToggleAmenityFilter(amenity: string)
      modifies this
      requires Valid()
      ensures Valid()
      ensures filters == VenueFilters(old(filters).capacity, Toggle(old(filters).amenities, amenity))
      ensures amenity in filters.amenities <==> amenity !in old(filters).amenities
      ensures currentPage == 1
      ensures venues == old(venues) && searchTerm == old(searchTerm)
    {
      filters := filters.(amenities := Toggle(filters.amenities, amenity));
      Refresh();
    }

    /** The dialog's reset button. */
    method ResetFilters()
      modifies this
      requires Valid()
      ensures Valid()
      ensures filters == NoVenueFilters && currentPage == 1
      ensures venues == old(venues) && searchTerm == old(searchTerm)
    {
      filters := NoVenueFilters;
      Refresh();
    }

    /** Deleting a venue, when the confirmation is accepted, removes every venue with that id. */
    method DeleteVenue(id: string, confirmed: bool)
      modifies this
      requires Valid()
      ensures Valid()
      ensures !confirmed ==> venues == old(venues) && currentPage == old(currentPage)
      ensures confirmed ==> venues == Filter(old(venues), (v: Venue) => v.id != id) && currentPage == 1
      ensures searchTerm == old(searchTerm) && filters == old(filters)
    {
      if confirmed {
        venues := Filter(venues, (v: Venue) => v.id != id);
        Refresh();
      }
    }

    /** The Previous button. */
    method GoPrev()
      modifies this
      requires Valid()
      ensures Valid()
      ensures currentPage == PrevPage(old(currentPage))
      ensures venues == old(venues) && filteredVenues == old(filteredVenues) && totalPages == old(totalPages)
      ensures searchTerm == old(searchTerm) && filters == old(filters)
    {
      ButtonsAsWrittenKeepPageReachable(currentPage, totalPages);
      currentPage := PrevPage(currentPage);
    }

    /** The Next button as the page has it: with no venues to show it is never disabled. */
    method GoNext()
      modifies this
      requires Valid()
      ensures Valid()
      ensures currentPage == NextPageAsWritten(old(currentPage), totalPages)
      ensures totalPages > 0 ==> currentPage <= totalPages
      ensures venues == old(venues) && filteredVenues == old(filteredVenues) && totalPages == old(totalPages)
      ensures searchTerm == old(searchTerm) && filters == old(filters)
    {
      ButtonsAsWrittenKeepPageReachable(currentPage, totalPages);
      currentPage := NextPageAsWritten(currentPage, totalPages);
    }

    /** The venues of the current page. */
    function CurrentPageVenues(): (r: seq<Venue>)
      reads this
      ensures currentPage >= 1 ==> |r| <= pageSize
      ensures forall v :: v in r ==> v in filteredVenues
      ensures currentPage >= 1 && pageSize > 0 ==> (r != [] <==> currentPage <= CeilDiv(|filteredVenues|, pageSize))
    {
      if currentPage >= 1 && pageSize > 0 then
        PageWindow(filteredVenues, currentPage, pageSize);
        PageNonEmptyIff(filteredVenues, currentPage, pageSize);
        Page(filteredVenues, currentPage, pageSize)
      else if currentPage >= 1 then
        PageWindow(filteredVenues, currentPage, pageSize);
        Page(filteredVenues, currentPage, pageSize)
      else
        Page(filteredVenues, currentPage, pageSize)
    }
  }
}
