/** The create/edit form (src/components/ReviewForm.tsx): a bundle of field state
    updated by its handlers — tag entry and removal, star clicks and hovering, and
    the guarded submit that normalises the payload and resets a create form. */
module ReviewForm {
  import opened Seqs
  import opened Text
  import opened Reviews
  import opened StarRating

  /** The form's tag palette has six entries. */
  const FormPaletteSize: nat := 6

  /** `getTagColor` in the form. */
  function FormTagColor(tag: string): (index: nat)
    ensures index < FormPaletteSize
  {
    PaletteIndex(tag, FormPaletteSize)
  }

  /** The tag `handleTagAdd` derives from the input: trimmed, then lower-cased. */
  function NormalizeTag(input: string): string
  {
    ToLower(Trim(input))
  }

  /** A tag entered in the form is already in the form the search stage compares tags
      in: lower-casing it again changes nothing. */
  lemma SearchSeesStoredTag(input: string)
    ensures ToLower(NormalizeTag(input)) == NormalizeTag(input)
  {
    LowerIdempotent(Trim(input));
  }

  /** The tag list after entering `newTag`: appended unless already present. */
  function AddTag(tags: seq<string>, newTag: string): (r: seq<string>)
    ensures newTag in r
    ensures forall t :: t in r <==> t in tags || t == newTag
    ensures |tags| <= |r| <= |tags| + 1 && r[..|tags|] == tags
    ensures newTag in tags ==> r == tags
    ensures NoDup(tags) ==> NoDup(r)
  {
    if newTag in tags then tags
    else
      assert NoDup(tags) ==> NoDup(tags + [newTag]) by {
        if NoDup(tags) { AppendKeepsNoDup(tags, newTag); }
      }
      tags + [newTag]
  }

  /** An entered tag is never blank and never contains an upper-case ASCII letter. */
  lemma NormalizedTagShape(input: string)
    requires Trim(input) != []
    ensures NormalizeTag(input) != []
    ensures forall i :: 0 <= i < |NormalizeTag(input)| ==> !('A' <= NormalizeTag(input)[i] <= 'Z')
    ensures !IsSpace(NormalizeTag(input)[0])
  {
    var t := Trim(input);
    assert NormalizeTag(input)[0] == LowerChar(t[0]);
  }

  /** `location.trim() || undefined`: a blank optional field is dropped. */
  function OptionalField(s: string): (r: Option<string>)
    ensures r.None? <==> IsBlank(s)
    ensures r.Some? ==> r.value == Trim(s) && r.value != []
  {
    if Trim(s) == [] then None else Some(Trim(s))
  }

  /** What `handleSubmit` passes to `onSubmit`, if it calls it at all. */
  function SubmitPayload(text: string, rating: int, tags: seq<string>, image: Option<string>,
                         location: string, name: string): Option<CreateReviewData>
  {
    if Trim(text) != [] && rating > 0 then
      Some(CreateReviewData(Trim(text), rating, tags, image, OptionalField(location), OptionalField(name)))
    else None
  }

  /** A payload is produced exactly for non-blank text and a positive rating; it carries
      the trimmed text, the rating, tags and image as they are, and the optional fields
      trimmed or dropped. */
  lemma SubmitPayloadMeaning(text: string, rating: int, tags: seq<string>, image: Option<string>,
                             location: string, name: string)
    ensures var r := SubmitPayload(text, rating, tags, image, location, name);
      && (r.Some? <==> !IsBlank(text) && rating > 0)
      && (r.Some? ==> r.value.text == Trim(text) && r.value.text != [] && r.value.rating == rating)
      && (r.Some? ==> r.value.tags == tags && r.value.image == image)
      && (r.Some? ==> r.value.location == OptionalField(location) && r.value.name == OptionalField(name))
  {
  }

  /** Loading a submitted payload into the edit form, as the initial-data effect does
      (`location || ''`, `name || ''`), and submitting it unchanged sends the same payload. */
  lemma ResubmitUnchanged(text: string, rating: int, tags: seq<string>, image: Option<string>,
                          location: string, name: string)
    requires SubmitPayload(text, rating, tags, image, location, name).Some?
    ensures var p := SubmitPayload(text, rating, tags, image, location, name).value;
      SubmitPayload(p.text, p.rating, p.tags, p.image,
                    if p.location.Some? then p.location.value else [],
                    if p.name.Some? then p.name.value else []) == Some(p)
  {
    TrimIdempotent(text);
    TrimIdempotent(location);
    TrimIdempotent(name);
  }

  /** The submit button is enabled unless the text is blank or the rating is 0. */
  function SubmitEnabled(text: string, rating: int): (enabled: bool)
    ensures enabled <==> !IsBlank(text) && rating != 0
  {
    !(Trim(text) == [] || rating == 0)
  }

  /** For every rating the stars can produce (0..5) the button and the guard agree. */
  lemma SubmitButtonMatchesGuard(text: string, rating: int, tags: seq<string>, image: Option<string>,
                                 location: string, name: string)
    requires rating >= 0
    ensures SubmitEnabled(text, rating) <==> SubmitPayload(text, rating, tags, image, location, name).Some?
  {
    SubmitPayloadMeaning(text, rating, tags, image, location, name);
  }

  /** The level the star row shows: the hovered star if any (`hoverRating || rating`). */
  function ShownLevel(hoverRating: int, rating: int): (level: int)
    ensures hoverRating != 0 ==> level == hoverRating
    ensures hoverRating == 0 ==> level == rating
  {
    if hoverRating != 0 then hoverRating else rating
  }

  /** While hovering star `k`, stars 0..k are lit whatever the rating. */
  lemma HoverLightsUpToPointer(k: nat, rating: int)
    requires k < StarCount
    ensures var lit := Stars(ShownLevel(k + 1, rating));
      |lit| == StarCount && (forall i :: 0 <= i < |lit| ==> (lit[i] <==> i <= k)) && CountLit(lit) == k + 1
  {
    StarsCount(k + 1);
  }

  class Form {
    var text: string
    var rating: int
    var tags: seq<string>
    var tagInput: string
    var image: Option<string>
    var location: string
    var name: string
    var hoverRating: int
    const isEditing: bool

    /** The fields as `useState` initialises them, then overwritten by `initialData` when given. */
    constructor (initialData: Option<CreateReviewData>, isEditing: bool)
      ensures this.isEditing == isEditing && tagInput == [] && hoverRating == 0
      ensures initialData.None? ==>
        text == [] && rating == 0 && tags == [] && image == None && location == [] && name == []
      ensures initialData.Some? ==>
        && text == initialData.value.text && rating == initialData.value.rating
        && tags == initialData.value.tags && image == initialData.value.image
        && location == (if initialData.value.location.Some? then initialData.value.location.value else [])
        && name == (if initialData.value.name.Some? then initialData.value.name.value else [])
    {
      this.isEditing := isEditing;
      tagInput, hoverRating := [], 0;
      if initialData.Some? {
        var d := initialData.value;
        text, rating, tags, image := d.text, d.rating, d.tags, d.image;
        location := if d.location.Some? then d.location.value else [];
        name := if d.name.Some? then d.name.value else [];
      } else {
        text, rating, tags, image, location, name := [], 0, [], None, [], [];
      }
    }

    /** Every field is at the value a new, empty form starts with. */
    ghost predicate IsPristine()
      reads this
    {
      text == [] && rating == 0 && tags == [] && tagInput == [] && image == None
      && location == [] && name == []
    }

    method SetText(value: string)
      modifies this`text
      ensures text == value
    {
      text := value;
    }

    method SetTagInput(value: string)
      modifies this`tagInput
      ensures tagInput == value
    {
      tagInput := value;
    }

    method SetLocation(value: string)
      modifies this`location
      ensures location == value
    {
      location := value;
    }

    method SetName(value: string)
      modifies this`name
      ensures name == value
    {
      name := value;
    }

    /** The photo preview's remove button. */
    method RemoveImage()
      modifies this`image
      ensures image == None
    {
      image := None;
    }

    /** `handleTagAdd`: only Enter with a non-blank input does anything; then the
        normalised tag is added if new and the input is cleared. */
    method HandleTagAdd(key: string) returns (handled: bool)
      modifies this`tags, this`tagInput
      ensures handled <==> key == "Enter" && !IsBlank(old(tagInput))
      ensures handled ==> tags == AddTag(old(tags), NormalizeTag(old(tagInput))) && tagInput == []
      ensures !handled ==> tags == old(tags) && tagInput == old(tagInput)
      ensures NoDup(old(tags)) ==> NoDup(tags)
    {
      handled := key == "Enter" && Trim(tagInput) != [];
      if handled {
        var newTag := NormalizeTag(tagInput);
        if newTag !in tags {
          tags := tags + [newTag];
        }
        tagInput := [];
      }
    }

    /** `handleTagRemove`: every copy of the tag goes, the rest keep their order. */
    method HandleTagRemove(tag: string)
      modifies this`tags
      ensures tags == RemoveAll(old(tags), tag)
      ensures tag !in tags && IsSubsequence(tags, old(tags))
      ensures forall t :: t != tag ==> (t in tags <==> t in old(tags))
    {
      tags := RemoveAll(tags, tag);
    }

    /** `handleSubmit`: returns the payload handed to `onSubmit`, if any; a successful
        create resets the form, an edit leaves every field alone. */
    method HandleSubmit() returns (submitted: Option<CreateReviewData>)
      modifies this`text, this`rating, this`tags, this`tagInput, this`image, this`location, this`name
      ensures submitted == SubmitPayload(old(text), old(rating), old(tags), old(image), old(location), old(name))
      ensures submitted.Some? && !isEditing ==> IsPristine() && hoverRating == old(hoverRating)
      ensures submitted.None? || isEditing ==>
        && text == old(text) && rating == old(rating) && tags == old(tags) && tagInput == old(tagInput)
        && image == old(image) && location == old(location) && name == old(name) && hoverRating == old(hoverRating)
    {
      submitted := SubmitPayload(text, rating, tags, image, location, name);
      if submitted.Some? && !isEditing {
        Reset();
      }
    }

    /** Back to the values of a new, empty form; the hover state is not touched. */
    method Reset()
      modifies this`text, this`rating, this`tags, this`tagInput, this`image, this`location, this`name
      ensures IsPristine()
    {
      text, rating, tags, tagInput := [], 0, [], [];
      image, location, name := None, [], [];
    }

    /** The values a key press can change. */
    ghost function Fields(): (string, int, seq<string>, string, Option<string>, string, string)
      reads this
    {
      (text, rating, tags, tagInput, image, location, name)
    }

    /** Enter in a single-line input whose handler does not call `preventDefault` (the
        location and name inputs, and the tag input when `handleTagAdd` does not act):
        the browser submits the form through its one submit button, which only does
        anything while that button is enabled. */
    method ImplicitSubmit() returns (submitted: Option<CreateReviewData>)
      modifies this`text, this`rating, this`tags, this`tagInput, this`image, this`location, this`name
      ensures submitted == if SubmitEnabled(old(text), old(rating))
        then SubmitPayload(old(text), old(rating), old(tags), old(image), old(location), old(name))
        else None
      ensures submitted.Some? && !isEditing ==> IsPristine()
      ensures submitted.None? || isEditing ==> Fields() == old(Fields())
    {
      submitted := None;
      if SubmitEnabled(text, rating) {
        submitted := HandleSubmit();
      }
    }

    /** A key press in the tag input: `handleTagAdd` acts on Enter with a non-blank
        input; any other Enter falls through to the form's implicit submission. */
    method TagInputKeyDown(key: string) returns (handled: bool, submitted: Option<CreateReviewData>)
      modifies this`text, this`rating, this`tags, this`tagInput, this`image, this`location, this`name
      ensures handled <==> key == "Enter" && !IsBlank(old(tagInput))
      ensures handled ==>
        && submitted == None && tags == AddTag(old(tags), NormalizeTag(old(tagInput))) && tagInput == []
        && text == old(text) && rating == old(rating) && image == old(image)
        && location == old(location) && name == old(name)
      ensures !handled ==> submitted == if key == "Enter" && SubmitEnabled(old(text), old(rating))
        then SubmitPayload(old(text), old(rating), old(tags), old(image), old(location), old(name))
        else None
      ensures !handled && submitted.Some? && !isEditing ==> IsPristine()
      ensures !handled && (submitted.None? || isEditing) ==> Fields() == old(Fields())
    {
      handled := HandleTagAdd(key);
      submitted := None;
      if !handled && key == "Enter" {
        submitted := ImplicitSubmit();
      }
    }

    /** Clicking star `i` sets the rating to `i + 1`, so a clicked rating is in 1..5. */
    method ClickStar(i: nat)
      requires i < StarCount
      modifies this`rating
      ensures rating == i + 1 && 1 <= rating <= StarCount
    {
      rating := i + 1;
    }

    method HoverStar(i: nat)
      requires i < StarCount
      modifies this`hoverRating
      ensures hoverRating == i + 1
    {
      hoverRating := i + 1;
    }

    method LeaveStar()
      modifies this`hoverRating
      ensures hoverRating == 0
    {
      hoverRating := 0;
    }

    /** The star row as drawn now. */
    function LitStars(): (lit: seq<bool>)
      reads this
      ensures |lit| == StarCount
      ensures forall i :: 0 <= i < StarCount ==> (lit[i] <==> i < ShownLevel(hoverRating, rating))
    {
      Stars(ShownLevel(hoverRating, rating))
    }
  }
}
