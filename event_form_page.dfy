/**
 * The full-page event editor: the event record being edited, its dictionary
 * of field errors, the amenity list and the thumbnail and gallery uploads.
 * Dates are timestamps; `None` is a date not yet picked.
 */
module EventFormPage {
  import opened Options
  import opened JsStrings
  import opened JsNumbers
  import opened Seqs

  /** A dropped file: its name, its MIME type and its size in bytes. */
  datatype Upload = Upload(name: string, mimeType: string, size: int)

  datatype EventFormData = EventFormData(
    title: string, description: string, eventType: string, location: string, amenities: seq<string>,
    ticketsAvailable: string, price: string, eventDate: Option<int>, eventTime: string,
    sellingPeriodStart: Option<int>, sellingPeriodEnd: Option<int>, category: string,
    thumbnail: Option<Upload>, gallery: seq<Upload>)

  const EmptyEvent := EventFormData("", "", "", "", [], "", "", None, "", None, None, "", None, [])

  /** The form's fields, which also key its dictionary of error messages. */
  datatype Field = Title | Description | EventType | Location | TicketsAvailable | Price | EventTime | Category
    | EventDate | SellingPeriodStart | SellingPeriodEnd | Thumbnail | Gallery

  /** The inputs served by `handleChange` (and the description editor), by `name`. */
  type TextField = f: Field | f.Title? || f.Description? || f.EventType? || f.Location? || f.TicketsAvailable? || f.Price? || f.EventTime? || f.Category?
    witness Title

  /** The three date pickers. */
  type DateField = f: Field | f.EventDate? || f.SellingPeriodStart? || f.SellingPeriodEnd?
    witness EventDate

  const MaxImageBytes := 5 * 1024 * 1024

  function WithText(e: EventFormData, f: TextField, value: string): EventFormData {
    match f
    case Title => e.(title := value)
    case Description => e.(description := value)
    case EventType => e.(eventType := value)
    case Location => e.(location := value)
    case TicketsAvailable => e.(ticketsAvailable := value)
    case Price => e.(price := value)
    case EventTime => e.(eventTime := value)
    case Category => e.(category := value)
    case _ => e
  }

  function WithDate(e: EventFormData, f: DateField, date: Option<int>): EventFormData {
    match f
    case EventDate => e.(eventDate := date)
    case SellingPeriodStart => e.(sellingPeriodStart := date)
    case SellingPeriodEnd => e.(sellingPeriodEnd := date)
    case _ => e
  }

  /** Both selling dates are set and the period starts after it ends. */
  predicate StartAfterEnd(e: EventFormData) {
    e.sellingPeriodStart.Some? && e.sellingPeriodEnd.Some? && e.sellingPeriodStart.value > e.sellingPeriodEnd.value
  }

  /** The selling period ends after the event date. */
  predicate EndsAfterEvent(e: EventFormData) {
    e.sellingPeriodEnd.Some? && e.eventDate.Some? && e.sellingPeriodEnd.value > e.eventDate.value
  }

  /** A non-empty numeric field that `Number` cannot read. */
  predicate NotANumber(s: string) {
    s != [] && ToNumber(s).IsNaN()
  }

  /** Every check of the form passes. */
  predicate FormComplete(e: EventFormData) {
    && !IsBlank(e.title) && !IsBlank(e.description) && e.eventType != [] && !IsBlank(e.location)
    && e.eventDate.Some? && !IsBlank(e.eventTime) && e.sellingPeriodStart.Some? && e.sellingPeriodEnd.Some?
    && e.category != [] && !NotANumber(e.ticketsAvailable) && !NotANumber(e.price)
    && !StartAfterEnd(e) && !EndsAfterEvent(e)
  }

  const AllFields: set<Field> := {Title, Description, EventType, Location, TicketsAvailable, Price, EventTime, Category,
    EventDate, SellingPeriodStart, SellingPeriodEnd, Thumbnail, Gallery}

  /**
   * The message `validateForm` leaves for one field, if any. The checks run
   * in order and a later one overwrites an earlier one, so the date-order
   * messages win over the required-field ones.
   */
  function Check(e: EventFormData, f: Field): Option<string> {
    match f
    case Title => if IsBlank(e.title) then Some("Event title is required") else None
    case Description => if IsBlank(e.description) then Some("Description is required") else None
    case EventType => if e.eventType == [] then Some("Event type is required") else None
    case Location => if IsBlank(e.location) then Some("Location is required") else None
    case EventDate =>
      if EndsAfterEvent(e) then Some("Event date must be after selling period ends")
      else if e.eventDate.None? then Some("Event date is required") else None
    case EventTime => if IsBlank(e.eventTime) then Some("Event time is required") else None
    case SellingPeriodStart => if e.sellingPeriodStart.None? then Some("Selling period start date is required") else None
    case SellingPeriodEnd =>
      if StartAfterEnd(e) then Some("End date must be after start date")
      else if e.sellingPeriodEnd.None? then Some("Selling period end date is required") else None
    case Category => if e.category == [] then Some("Category is required") else None
    case TicketsAvailable => if NotANumber(e.ticketsAvailable) then Some("Tickets available must be a number") else None
    case Price => if NotANumber(e.price) then Some("Price must be a number") else None
    case Thumbnail => None
    case Gallery => None
  }

  /** `validateForm`'s error dictionary: an entry, with its message, for each field whose check fails. */
  function Validate(e: EventFormData): (errors: map<Field, string>)
    ensures forall f :: f in errors <==> Check(e, f).Some?
    ensures forall f | f in errors :: errors[f] == Check(e, f).value
  {
    map f | f in AllFields && Check(e, f).Some? :: Check(e, f).value
  }

  /** No check reads the thumbnail, so changing it leaves the error dictionary as it was. */
  lemma ValidateIgnoresThumbnail(e: EventFormData, t: Option<Upload>)
    ensures Validate(e.(thumbnail := t)) == Validate(e)
  {
    forall f
      ensures Check(e.(thumbnail := t), f) == Check(e, f)
    {
    }
  }

  /** The nine required fields: an entry exactly when the field is blank or unset. */
  lemma ValidateRequired(e: EventFormData)
    ensures Title in Validate(e) <==> IsBlank(e.title)
    ensures Description in Validate(e) <==> IsBlank(e.description)
    ensures EventType in Validate(e) <==> e.eventType == []
    ensures Location in Validate(e) <==> IsBlank(e.location)
    ensures EventTime in Validate(e) <==> IsBlank(e.eventTime)
    ensures SellingPeriodStart in Validate(e) <==> e.sellingPeriodStart.None?
    ensures Category in Validate(e) <==> e.category == []
    ensures e.eventDate.None? ==> EventDate in Validate(e)
    ensures e.sellingPeriodEnd.None? ==> SellingPeriodEnd in Validate(e)
  {
  }

  /** The numeric fields are checked only when filled in, and only for being a number. */
  lemma ValidateNumbers(e: EventFormData)
    ensures TicketsAvailable in Validate(e) <==> e.ticketsAvailable != [] && ToNumber(e.ticketsAvailable).IsNaN()
    ensures Price in Validate(e) <==> e.price != [] && ToNumber(e.price).IsNaN()
    ensures Thumbnail !in Validate(e) && Gallery !in Validate(e)
  {
  }

  /** The date-order checks: their messages replace the required-field ones of the same entries. */
  lemma ValidateDateOrder(e: EventFormData)
    ensures EventDate in Validate(e) <==> e.eventDate.None? || EndsAfterEvent(e)
    ensures SellingPeriodEnd in Validate(e) <==> e.sellingPeriodEnd.None? || StartAfterEnd(e)
    ensures StartAfterEnd(e) ==> Validate(e)[SellingPeriodEnd] == "End date must be after start date"
    ensures EndsAfterEvent(e) ==> Validate(e)[EventDate] == "Event date must be after selling period ends"
    ensures !StartAfterEnd(e) && e.sellingPeriodEnd.None? ==> Validate(e)[SellingPeriodEnd] == "Selling period end date is required"
  {
  }

  /** On a complete form no field's check fails. */
  lemma CompletePasses(e: EventFormData, f: Field)
    requires FormComplete(e)
    ensures Check(e, f).None?
  {
  }

  /** The checks of the text and date fields passing means those fields are filled in and in order. */
  lemma FieldChecksPass(e: EventFormData)
    requires Check(e, Title).None? && Check(e, Description).None? && Check(e, EventType).None?
    requires Check(e, Location).None? && Check(e, EventDate).None? && Check(e, EventTime).None?
    requires Check(e, SellingPeriodStart).None? && Check(e, SellingPeriodEnd).None? && Check(e, Category).None?
    ensures !IsBlank(e.title) && !IsBlank(e.description) && e.eventType != [] && !IsBlank(e.location)
    ensures e.eventDate.Some? && !IsBlank(e.eventTime) && e.sellingPeriodStart.Some? && e.sellingPeriodEnd.Some?
    ensures e.category != [] && !StartAfterEnd(e) && !EndsAfterEvent(e)
  {
  }

  /** The checks of the numeric fields passing means neither is a non-number. */
  lemma NumberChecksPass(e: EventFormData)
    requires Check(e, TicketsAvailable).None? && Check(e, Price).None?
    ensures !NotANumber(e.ticketsAvailable) && !NotANumber(e.price)
  {
  }

  /** The form passes exactly when every check passes. */
  lemma ValidIff(e: EventFormData)
    ensures Validate(e) == map[] <==> FormComplete(e)
  {
    var errors := Validate(e);
    if FormComplete(e) {
      forall k | k in errors
        ensures false
      {
        CompletePasses(e, k);
      }
      assert errors.Keys == {};
    } else {
      if errors == map[] {
        FieldChecksPass(e);
        NumberChecksPass(e);
      }
    }
  }

  /** Whether an upload is accepted: an `image/` type and at most 5 MB. */
  predicate AcceptImage(f: Upload) {
    StartsWith(f.mimeType, "image/") && f.size <= MaxImageBytes
  }

  /** The message for a refused gallery file. */
  function GalleryMessage(f: Upload): string {
    if !StartsWith(f.mimeType, "image/") then "Please upload image files only" else "Each image should be less than 5MB"
  }

  /** The position of the last refused file of a drop, if any. */
  function LastRefused(files: seq<Upload>): (r: Option<nat>)
    ensures r.None? <==> forall i | 0 <= i < |files| :: AcceptImage(files[i])
    ensures r.Some? ==> r.value < |files| && !AcceptImage(files[r.value])
    ensures r.Some? ==> forall j | r.value < j < |files| :: AcceptImage(files[j])
  {
    if files == [] then None
    else if !AcceptImage(files[|files| - 1]) then Some(|files| - 1)
    else LastRefused(files[..|files| - 1])
  }

  /**
   * The message left by the last refused file of a drop, if any: about its
   * type when the type is wrong, else about its size.
   */
  function LastRejection(files: seq<Upload>): (r: Option<string>)
    ensures r.None? <==> forall i | 0 <= i < |files| :: AcceptImage(files[i])
    ensures r.Some? ==>
      exists i | 0 <= i < |files| :: !AcceptImage(files[i]) && r.value == GalleryMessage(files[i])
        && forall j | i < j < |files| :: AcceptImage(files[j])
  {
    match LastRefused(files)
    case None => None
    case Some(i) => Some(GalleryMessage(files[i]))
  }

  /** One more file: accepted, it is appended and the earlier message stands; refused, it leaves its own message. */
  lemma GalleryDropSnoc(files: seq<Upload>, f: Upload)
    ensures Filter(files + [f], AcceptImage) == Filter(files, AcceptImage) + if AcceptImage(f) then [f] else []
    ensures LastRejection(files + [f]) == if AcceptImage(f) then LastRejection(files) else Some(GalleryMessage(f))
  {
    FilterAppend(files, [f], AcceptImage);
    FilterSingleton(f, AcceptImage);
    assert (files + [f])[..|files|] == files;
  }

  /** The drop's first `i + 1` files, from its first `i`. */
  lemma GalleryDropStep(files: seq<Upload>, i: nat)
    requires i < |files|
    ensures Filter(files[..i + 1], AcceptImage) == Filter(files[..i], AcceptImage) + if AcceptImage(files[i]) then [files[i]] else []
    ensures LastRejection(files[..i + 1]) == if AcceptImage(files[i]) then LastRejection(files[..i]) else Some(GalleryMessage(files[i]))
  {
    assert files[..i + 1] == files[..i] + [files[i]];
    GalleryDropSnoc(files[..i], files[i]);
  }

  /** Sorts a gallery drop: the accepted files in drop order, and the message of the last refused one. */
  method SortGalleryDrop(files: seq<Upload>) returns (accepted: seq<Upload>, rejection: Option<string>)
    ensures accepted == Filter(files, AcceptImage)
    ensures rejection == LastRejection(files)
  {
    accepted, rejection := [], None;
    var i := 0;
    while i < |files|
      invariant 0 <= i <= |files|
      invariant accepted == Filter(files[..i], AcceptImage)
      invariant rejection == LastRejection(files[..i])
    {
      var f := files[i];
      GalleryDropStep(files, i);
      if AcceptImage(f) {
        accepted := accepted + [f];
      } else {
        rejection := Some(GalleryMessage(f));
      }
      i := i + 1;
    }
    assert files[..|files|] == files;
  }

  /** A file the gallery refuses. */
  predicate Refused(f: Upload) {
    !AcceptImage(f)
  }

  /** Every file of a drop is either added to the gallery or refused, and the drop leaves a message exactly when some file is refused. */
  lemma GalleryDropAccounting(files: seq<Upload>)
    ensures |Filter(files, AcceptImage)| + |Filter(files, Refused)| == |files|
    ensures |Filter(files, AcceptImage)| == |files| <==> LastRejection(files).None?
  {
    FilterSplit(files, AcceptImage, Refused);
    if |Filter(files, AcceptImage)| == |files| {
      FilterFull(files, AcceptImage);
    }
    if LastRejection(files).None? {
      FilterAll(files, AcceptImage);
    }
  }

  /** A filter that keeps as many elements as it is given keeps all of them. */
  lemma {:induction false} FilterFull(s: seq<Upload>, p: Upload -> bool)
    requires |Filter(s, p)| == |s|
    ensures forall i | 0 <= i < |s| :: p(s[i])
  {
    if s != [] {
      FilterFull(s[1..], p);
      assert forall i | 1 <= i < |s| :: s[i] == s[1..][i - 1];
    }
  }

  /** An added amenity is the input trimmed: never empty, never padded with white space. */
  lemma AddedAmenityClean(input: string)
    requires !IsBlank(input)
    ensures Trim(input) != []
    ensures !IsSpace(Trim(input)[0]) && !IsSpace(Trim(input)[|Trim(input)| - 1])
    ensures Trim(Trim(input)) == Trim(input)
  {
    BlankIffTrimEmpty(input);
    TrimClean(input);
  }

  class EventEditor {
    var formData: EventFormData
    var errors: map<Field, string>
    var newAmenity: string

    /** A new event starts empty; an edited one starts from the loaded record. */
    constructor(loaded: Option<EventFormData>)
      ensures formData == (if loaded.Some? then loaded.value else EmptyEvent)
      ensures errors == map[] && newAmenity == []
    {
      formData := if loaded.Some? then loaded.value else EmptyEvent;
      errors := map[];
      newAmenity := [];
    }

    /** A text input, the category select or the description editor: the field changes and only its message is cleared. */
    method HandleChange(f: TextField, value: string)
      modifies this
      ensures formData == WithText(old(formData), f, value)
      ensures errors == if f in old(errors) && old(errors)[f] != [] then old(errors)[f := ""] else old(errors)
      ensures newAmenity == old(newAmenity)
    {
      formData := WithText(formData, f, value);
      var key := f;
      if key in errors && errors[key] != [] {
        errors := errors[key := ""];
      }
    }

    /** A date picker: the date changes and only its message is cleared. */
    method HandleDateChange(f: DateField, date: Option<int>)
      modifies this
      ensures formData == WithDate(old(formData), f, date)
      ensures errors == if f in old(errors) && old(errors)[f] != [] then old(errors)[f := ""] else old(errors)
      ensures newAmenity == old(newAmenity)
    {
      formData := WithDate(formData, f, date);
      var key := f;
      if key in errors && errors[key] != [] {
        errors := errors[key := ""];
      }
    }

    method SetNewAmenity(value: string)
      modifies this
      ensures newAmenity == value && formData == old(formData) && errors == old(errors)
    {
      newAmenity := value;
    }

    /** Adds the trimmed input as an amenity unless it is blank, then empties the input. */
    method AddAmenity()
      modifies this
      ensures IsBlank(old(newAmenity)) ==> formData == old(formData) && newAmenity == old(newAmenity)
      ensures !IsBlank(old(newAmenity)) ==>
        formData == old(formData).(amenities := old(formData).amenities + [Trim(old(newAmenity))]) && newAmenity == []
      ensures errors == old(errors)
    {
      BlankIffTrimEmpty(newAmenity);
      if Trim(newAmenity) != [] {
        formData := formData.(amenities := formData.amenities + [Trim(newAmenity)]);
        newAmenity := [];
      }
    }

    /** Removes the amenity at `index`; the others keep their order. */
    method RemoveAmenity(index: nat)
      modifies this
      ensures formData == old(formData).(amenities := RemoveAt(old(formData).amenities, index))
      ensures errors == old(errors) && newAmenity == old(newAmenity)
    {
      formData := formData.(amenities := RemoveAt(formData.amenities, index));
    }

    /** Removes the gallery image at `index`; the others keep their order. */
    method RemoveGalleryImage(index: nat)
      modifies this
      ensures formData == old(formData).(gallery := RemoveAt(old(formData).gallery, index))
      ensures errors == old(errors) && newAmenity == old(newAmenity)
    {
      formData := formData.(gallery := RemoveAt(formData.gallery, index));
    }

    /** The thumbnail's remove button drops the image; the form is not validated on it, so its errors stay the same. */
    method RemoveThumbnail()
      modifies this
      ensures formData == old(formData).(thumbnail := None)
      ensures errors == old(errors) && newAmenity == old(newAmenity)
      ensures Validate(formData) == Validate(old(formData))
    {
      ValidateIgnoresThumbnail(formData, None);
      formData := formData.(thumbnail := None);
    }

    /** A thumbnail drop looks at the first file only: refused with a message, or taken and its message cleared. */
    method OnThumbnailDrop(files: seq<Upload>)
      modifies this
      ensures files == [] ==> formData == old(formData) && errors == old(errors)
      ensures files != [] && !StartsWith(files[0].mimeType, "image/") ==>
        formData == old(formData) && errors == old(errors)[Thumbnail := "Please upload an image file"]
      ensures files != [] && StartsWith(files[0].mimeType, "image/") && files[0].size > MaxImageBytes ==>
        formData == old(formData) && errors == old(errors)[Thumbnail := "Image size should be less than 5MB"]
      ensures files != [] && AcceptImage(files[0]) ==>
        formData == old(formData).(thumbnail := Some(files[0]))
        && errors == if Thumbnail in old(errors) && old(errors)[Thumbnail] != [] then old(errors)[Thumbnail := ""] else old(errors)
      ensures newAmenity == old(newAmenity)
    {
      if files != [] {
        var file := files[0];
        if !StartsWith(file.mimeType, "image/") {
          errors := errors[Thumbnail := "Please upload an image file"];
          return;
        }
        if file.size > MaxImageBytes {
          errors := errors[Thumbnail := "Image size should be less than 5MB"];
          return;
        }
        formData := formData.(thumbnail := Some(file));
        if Thumbnail in errors && errors[Thumbnail] != [] {
          errors := errors[Thumbnail := ""];
        }
      }
    }

    /**
     * A gallery drop appends the accepted files after the existing images.
     * Every error update starts from the errors as they were before the drop
     * and the last one wins: a refusal leaves the last refused file's message,
     * unless some file was accepted while an older gallery message was
     * showing, in which case the clearing update comes last.
     */
    method OnGalleryDrop(files: seq<Upload>)
      modifies this
      ensures formData == old(formData).(gallery := old(formData).gallery + Filter(files, AcceptImage))
      ensures var cleared := Filter(files, AcceptImage) != [] && Gallery in old(errors) && old(errors)[Gallery] != [];
        errors == if cleared then old(errors)[Gallery := ""]
                  else if LastRejection(files).Some? then old(errors)[Gallery := LastRejection(files).value]
                  else old(errors)
      ensures newAmenity == old(newAmenity)
    {
      var accepted, rejection := SortGalleryDrop(files);
      var snapshot := errors;
      if rejection.Some? {
        errors := snapshot[Gallery := rejection.value];
      }
      if accepted != [] {
        formData := formData.(gallery := formData.gallery + accepted);
        if Gallery in snapshot && snapshot[Gallery] != [] {
          errors := snapshot[Gallery := ""];
        }
      }
    }

    /** Submitting records the validation errors; the save goes ahead only when there are none. */
    method Submit() returns (proceed: bool)
      modifies this
      ensures proceed <==> FormComplete(formData)
      ensures formData == old(formData) && newAmenity == old(newAmenity)
      ensures errors == Validate(formData)
    {
      errors := Validate(formData);
      ValidIff(formData);
      proceed := errors == map[];
    }
  }
}
