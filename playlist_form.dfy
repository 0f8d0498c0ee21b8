/**
 * The create and edit form for a playlist in the web client: the fields it
 * starts from, its one validation rule, and the record it submits.
 */
module PlaylistForm {
  import opened Wrappers
  import opened Text
  import opened Tags

  const TitleRequired := "Title is required"

  /** `initialData`: the playlist being edited, each field possibly absent. */
  datatype InitialData = InitialData(
    title: Option<string>,
    description: Option<string>,
    category: Option<string>,
    tags: Option<seq<string>>,
    isPublic: Option<bool>)

  /** The values the form's fields hold. */
  datatype FormState = FormState(title: string, description: string, category: string, tagsInput: string, isPublic: bool)

  /** The record handed to `onSubmit`. */
  datatype Submission = Submission(title: string, description: string, category: string, tags: seq<string>, isPublic: bool)

  /** `formErrors`: at most one message, for the title. */
  datatype FormErrors = FormErrors(title: Option<string>)

  /** `x || ''` for an optional string. */
  function OrEmpty(x: Option<string>): string {
    if x.Some? then x.value else ""
  }

  /**
   * The initial field values: each text field from the playlist or empty, the
   * tags joined with `, `, and `isPublic` from the playlist when it is defined,
   * else true.
   */
  function InitialState(data: Option<InitialData>): (s: FormState)
    ensures data.None? ==> s == FormState("", "", "", "", true)
    ensures data.Some? ==> s.title == OrEmpty(data.value.title) && s.description == OrEmpty(data.value.description)
                           && s.category == OrEmpty(data.value.category)
    ensures data.Some? && data.value.tags.Some? ==> s.tagsInput == Join(data.value.tags.value, ", ")
    ensures data.Some? && data.value.tags.None? ==> s.tagsInput == ""
    ensures s.isPublic <==> data.None? || data.value.isPublic.None? || data.value.isPublic.value
  {
    if data.None? then FormState("", "", "", "", true)
    else
      var d := data.value;
      FormState(OrEmpty(d.title), OrEmpty(d.description), OrEmpty(d.category),
                if d.tags.Some? then Join(d.tags.value, ", ") else "",
                if d.isPublic.Some? then d.isPublic.value else true)
  }

  /** `validateForm`: the title must not be blank. */
  function ValidateForm(s: FormState): (errors: FormErrors)
    ensures errors.title.None? <==> !IsBlank(s.title)
    ensures errors.title.Some? ==> errors.title.value == TitleRequired
  {
    if IsBlank(s.title) then FormErrors(Some(TitleRequired)) else FormErrors(None)
  }

  /**
   * `handleSubmit`: when the form is valid, the fields as typed and the tags
   * parsed from the tag input; otherwise nothing is submitted.
   */
  function HandleSubmit(s: FormState): (r: Option<Submission>)
    ensures r.Some? <==> ValidateForm(s).title.None?
    ensures r.Some? ==> r.value.title == s.title && r.value.description == s.description
                        && r.value.category == s.category && r.value.isPublic == s.isPublic
    ensures r.Some? ==> r.value.tags == ParseTags(s.tagsInput)
    ensures r.Some? ==> forall k :: 0 <= k < |r.value.tags| ==> WellFormedTag(r.value.tags[k])
  {
    if ValidateForm(s).title.Some? then None
    else Some(Submission(s.title, s.description, s.category, ParseTags(s.tagsInput), s.isPublic))
  }

  /**
   * Editing a playlist and saving it unchanged submits the same tags, when
   * every tag is non-empty, trimmed and comma-free.
   */
  lemma EditRoundTrip(data: InitialData)
    requires data.title.Some? && !IsBlank(data.title.value)
    requires data.tags.Some? && forall k :: 0 <= k < |data.tags.value| ==> WellFormedTag(data.tags.value[k])
    ensures HandleSubmit(InitialState(Some(data))).Some?
    ensures HandleSubmit(InitialState(Some(data))).value.tags == data.tags.value
    ensures HandleSubmit(InitialState(Some(data))).value.title == data.title.value
  {
    ParseTagsJoin(data.tags.value);
  }

  /** A new playlist starts public, and cannot be submitted before a title is typed. */
  lemma NewFormStartsPublicAndInvalid()
    ensures InitialState(None).isPublic
    ensures HandleSubmit(InitialState(None)) == None
  {
  }
}
