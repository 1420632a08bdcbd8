/**
 * The stand-alone "Post a New Event" form: its record, its dictionary of
 * field errors, the status line shown after a submit, the image picker and
 * the reset that follows a successful post.
 */
module EventFormComponent {
  import opened Options
  import opened JsStrings
  import EventFormPage

  /** The chosen image file: its name, MIME type and size in bytes. */
  type Upload = EventFormPage.Upload

  datatype PostData = PostData(
    title: string, date: Option<int>, time: string, location: string, description: string,
    category: string, price: string, maxAttendees: string, image: Option<Upload>)

  const InitialPost := PostData("", None, "", "", "", "", "", "", None)

  /** The form's fields, which also key its dictionary of error messages. */
  datatype Field = Title | Date | Time | Location | Description | Category | Price | MaxAttendees | Image

  /** The inputs served by `handleChange`, by `name`. */
  type TextField = f: Field | f.Title? || f.Time? || f.Location? || f.Description? || f.Category? || f.Price? || f.MaxAttendees?
    witness Title

  /** The status line: its kind (`""`, `"success"` or `"error"`) and its message. */
  datatype SubmitStatus = SubmitStatus(kind: string, message: string)

  const NoStatus := SubmitStatus("", "")

  function WithText(d: PostData, f: TextField, value: string): PostData {
    match f
    case Title => d.(title := value)
    case Time => d.(time := value)
    case Location => d.(location := value)
    case Description => d.(description := value)
    case Category => d.(category := value)
    case Price => d.(price := value)
    case MaxAttendees => d.(maxAttendees := value)
    case _ => d
  }

  /** `type.match('image.*')`: the pattern is not anchored, so "image" anywhere in the type is enough. */
  predicate ImageType(mimeType: string) {
    Includes(mimeType, "image")
  }

  /** Every checked field passes. */
  predicate PostComplete(d: PostData) {
    !IsBlank(d.title) && d.date.Some? && !IsBlank(d.time) && !IsBlank(d.location)
    && !EventFormPage.NotANumber(d.price) && !EventFormPage.NotANumber(d.maxAttendees)
  }

  /** The required-field checks of `validateForm`. */
  function RequiredErrors(d: PostData): (r: map<Field, string>)
    ensures Title in r <==> IsBlank(d.title)
    ensures Date in r <==> d.date.None?
    ensures Time in r <==> IsBlank(d.time)
    ensures Location in r <==> IsBlank(d.location)
    ensures Description !in r && Category !in r && Image !in r && Price !in r && MaxAttendees !in r
  {
    var m: map<Field, string> := map[];
    var m := if IsBlank(d.title) then m[Title := "Event title is required"] else m;
    var m := if d.date.None? then m[Date := "Date is required"] else m;
    var m := if IsBlank(d.time) then m[Time := "Time is required"] else m;
    if IsBlank(d.location) then m[Location := "Location is required"] else m
  }

  /** The numeric checks of `validateForm`, added to the dictionary `m`; they touch no other entry. */
  function NumberErrors(m: map<Field, string>, d: PostData): (r: map<Field, string>)
    ensures forall k | k != Price && k != MaxAttendees :: (k in r <==> k in m) && (k in r ==> r[k] == m[k])
    ensures Price in r <==> Price in m || EventFormPage.NotANumber(d.price)
    ensures MaxAttendees in r <==> MaxAttendees in m || EventFormPage.NotANumber(d.maxAttendees)
    ensures EventFormPage.NotANumber(d.price) ==> r[Price] == "Price must be a number"
  {
    var m := if EventFormPage.NotANumber(d.price) then m[Price := "Price must be a number"] else m;
    if EventFormPage.NotANumber(d.maxAttendees) then m[MaxAttendees := "Maximum attendees must be a number"] else m
  }

  /**
   * `validateForm`'s error dictionary, built one check at a time: the
   * required-field entries, then the numeric ones.
   */
  function Errors(d: PostData): (r: map<Field, string>)
    ensures forall k | k != Price && k != MaxAttendees :: k in r <==> k in RequiredErrors(d)
    ensures Price in r <==> EventFormPage.NotANumber(d.price)
    ensures MaxAttendees in r <==> EventFormPage.NotANumber(d.maxAttendees)
    ensures Price in r ==> r[Price] == "Price must be a number"
  {
    NumberErrors(RequiredErrors(d), d)
  }

  /** The form passes exactly when every check passes. */
  lemma ErrorsEmptyIff(d: PostData)
    ensures Errors(d) == map[] <==> PostComplete(d)
  {
    if PostComplete(d) {
      assert Errors(d).Keys == {} by {
        forall k | k in Errors(d)
          ensures false
        {
        }
      }
    } else {
      var m := RequiredErrors(d);
    }
  }

  /** Every type the full-page editor accepts passes this form's check too. */
  lemma ImageTypeWeaker(mimeType: string)
    requires StartsWith(mimeType, "image/")
    ensures ImageType(mimeType)
  {
    assert mimeType[..5] == "image";
  }

  /** The unanchored match lets through types that do not start with `image/`. */
  lemma ImageTypeUnanchored()
    ensures ImageType("application/x-image") && !StartsWith("application/x-image", "image/")
  {
    assert "application/x-image"[..6][0] != "image/"[0];
    assert "application/x-image"[14..] == "image";
    IncludesTail("application/x-image", 14, "image");
  }

  /** A string includes whatever one of its suffixes includes. */
  lemma {:induction false} IncludesTail(s: string, k: nat, t: string)
    requires k <= |s| && Includes(s[k..], t)
    ensures Includes(s, t)
    decreases k
  {
    if k > 0 {
      assert s[1..][k - 1..] == s[k..];
      IncludesTail(s[1..], k - 1, t);
    }
  }

  /** The reset record would not pass validation: its title is blank. */
  lemma InitialPostIncomplete()
    ensures !PostComplete(InitialPost)
  {
    assert IsBlank(InitialPost.title);
  }

  class PostEventForm {
    var formData: PostData
    var errors: map<Field, string>
    var status: SubmitStatus

    constructor()
      ensures formData == InitialPost && errors == map[] && status == NoStatus
    {
      formData := InitialPost;
      errors := map[];
      status := NoStatus;
    }

    /** An input changes its own field and clears only its own message. */
    method HandleChange(f: TextField, value: string)
      modifies this
      ensures formData == WithText(old(formData), f, value)
      ensures errors == if f in old(errors) && old(errors)[f] != [] then old(errors)[f := ""] else old(errors)
      ensures status == old(status)
    {
      formData := WithText(formData, f, value);
      if f in errors && errors[f] != [] {
        errors := errors[f := ""];
      }
    }

    /** The date picker changes the date and clears only the date's message. */
    method HandleDateChange(date: Option<int>)
      modifies this
      ensures formData == old(formData).(date := date)
      ensures errors == if Date in old(errors) && old(errors)[Date] != [] then old(errors)[Date := ""] else old(errors)
      ensures status == old(status)
    {
      formData := formData.(date := date);
      if Date in errors && errors[Date] != [] {
        errors := errors[Date := ""];
      }
    }

    /**
     * The file input: a non-image type or a file over 5 MB leaves the image
     * unchanged and sets the image message; an accepted file becomes the image
     * and clears that message.
     */
    method HandleFileChange(file: Option<Upload>)
      modifies this
      ensures file.None? ==> formData == old(formData) && errors == old(errors)
      ensures file.Some? && !ImageType(file.value.mimeType) ==>
        formData == old(formData) && errors == old(errors)[Image := "Please select an image file"]
      ensures file.Some? && ImageType(file.value.mimeType) && file.value.size > EventFormPage.MaxImageBytes ==>
        formData == old(formData) && errors == old(errors)[Image := "Image size should be less than 5MB"]
      ensures file.Some? && ImageType(file.value.mimeType) && file.value.size <= EventFormPage.MaxImageBytes ==>
        formData == old(formData).(image := file)
        && errors == if Image in old(errors) && old(errors)[Image] != [] then old(errors)[Image := ""] else old(errors)
      ensures formData.image == old(formData).image || formData.image == file
      ensures status == old(status)
    {
      if file.Some? {
        var f := file.value;
        if !ImageType(f.mimeType) {
          errors := errors[Image := "Please select an image file"];
          return;
        }
        if f.size > EventFormPage.MaxImageBytes {
          errors := errors[Image := "Image size should be less than 5MB"];
          return;
        }
        formData := formData.(image := file);
        if Image in errors && errors[Image] != [] {
          errors := errors[Image := ""];
        }
      }
    }

    /** `validateForm`: records the error dictionary and reports whether it is empty. */
    method Validate() returns (ok: bool)
      modifies this
      ensures errors == Errors(formData)
      ensures ok <==> PostComplete(formData)
      ensures ok <==> errors == map[]
      ensures formData == old(formData) && status == old(status)
    {
      var d := formData;
      var newErrors := Errors(d);
      ErrorsEmptyIff(d);
      errors := newErrors;
      ok := newErrors == map[];
    }

    /**
     * Submitting: a form with errors shows the error status and keeps its data;
     * otherwise the post goes ahead, and when it succeeds the form is reset to
     * its initial record with the success status, else the failure status.
     */
    method Submit(postSucceeds: bool)
      modifies this
      ensures !PostComplete(old(formData)) ==>
        formData == old(formData) && status == SubmitStatus("error", "Please fix the errors in the form")
      ensures PostComplete(old(formData)) && postSucceeds ==>
        formData == InitialPost && status == SubmitStatus("success", "Event posted successfully!")
      ensures PostComplete(old(formData)) && postSucceeds ==> !PostComplete(formData)
      ensures PostComplete(old(formData)) && !postSucceeds ==>
        formData == old(formData) && status == SubmitStatus("error", "Failed to post event. Please try again.")
      ensures errors == Errors(old(formData))
    {
      InitialPostIncomplete();
      var ok := Validate();
      if !ok {
        status := SubmitStatus("error", "Please fix the errors in the form");
        return;
      }
      status := NoStatus;
      if postSucceeds {
        status := SubmitStatus("success", "Event posted successfully!");
        formData := InitialPost;
      } else {
        status := SubmitStatus("error", "Failed to post event. Please try again.");
      }
    }
  }
}
