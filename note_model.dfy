/** The Note record and its Mongoose schema (models/Note.ts): what
    `Note.create` does with the fields it is given before the document is
    stored — the casting setters (trim, default tags, timestamps) and then the
    schema validators. */
module NoteModel {
  import opened Wrappers
  import opened Text

  /** Database identifiers (MongoDB ObjectIds) are opaque; they are modelled
      as natural numbers. */
  type UserId = nat
  type NoteId = nat

  /** A stored note. Timestamps are the abstract clock's readings. */
  datatype Note = Note(
    id: NoteId,
    title: string,
    content: string,
    tags: seq<string>,
    userId: UserId,
    createdAt: nat,
    updatedAt: nat)

  /** The object passed to `Note.create`: absent fields are `None`. */
  datatype NoteFields = NoteFields(
    title: string,
    content: string,
    tags: Option<seq<string>>,
    userId: Option<UserId>)

  /** One validator failure, reported against the schema path it belongs to. */
  datatype FieldError = FieldError(path: string, message: string)

  const MaxTitleLength: nat := 200

  const TitleRequired := "Please provide a title"
  const TitleTooLong := "Title cannot be more than 200 characters"
  const ContentRequired := "Please provide content"
  const UserIdRequired := "Path `userId` is required."

  /** The title setter: `trim: true`. */
  function NormaliseTitle(title: string): (t: string)
    ensures IsTrimmed(t)
    ensures t == [] <==> AllWhitespace(title)
  {
    TrimEmptyIff(title);
    Trim(title)
  }

  /** The first failing validator of the title path, run on the trimmed
      value: `required` (a string must be non-empty), then `maxlength`. */
  function TitleErrors(title: string): (errs: seq<FieldError>)
    ensures |errs| <= 1
    ensures errs == [] <==> 1 <= |title| <= MaxTitleLength
  {
    if |title| == 0 then [FieldError("title", TitleRequired)]
    else if |title| > MaxTitleLength then [FieldError("title", TitleTooLong)]
    else []
  }

  /** The validator failures of the cast document, one per failing path, in
      schema order (title, content, userId). Mongoose reports them together
      in a single ValidationError. */
  function ValidationErrors(f: NoteFields): (errs: seq<FieldError>)
    ensures errs == [] <==>
      1 <= |NormaliseTitle(f.title)| <= MaxTitleLength && f.content != [] && f.userId.Some?
  {
    TitleErrors(NormaliseTitle(f.title))
    + (if f.content == [] then [FieldError("content", ContentRequired)] else [])
    + (if f.userId.None? then [FieldError("userId", UserIdRequired)] else [])
  }

  /** `Note.create(f)` with the server-assigned identifier `id` and the clock
      reading `now`: the stored document, or the validation failures. */
  function Create(f: NoteFields, id: NoteId, now: nat): (r: Result<Note, seq<FieldError>>)
    ensures r.Success? <==>
      1 <= |NormaliseTitle(f.title)| <= MaxTitleLength && f.content != [] && f.userId.Some?
    ensures r.Failure? ==> r.error != []
    ensures r.Success? ==>
      && r.value.id == id
      && r.value.title == NormaliseTitle(f.title)
      && r.value.content == f.content
      && r.value.tags == (if f.tags.Some? then f.tags.value else [])
      && r.value.userId == f.userId.value
      && r.value.createdAt == now && r.value.updatedAt == now
  {
    var errs := ValidationErrors(f);
    if errs != [] then Failure(errs)
    else
      var tags := match f.tags case Some(t) => t case None => [];
      Success(Note(id, NormaliseTitle(f.title), f.content, tags, f.userId.value, now, now))
  }

  /** What every stored note satisfies: a trimmed title of 1 to 200
      characters, non-empty content, and timestamps in order. */
  predicate Valid(n: Note) {
    && IsTrimmed(n.title)
    && 1 <= |n.title| <= MaxTitleLength
    && n.content != []
    && n.createdAt <= n.updatedAt
  }

  /** Whatever `Note.create` stores is a valid note. */
  lemma CreatedIsValid(f: NoteFields, id: NoteId, now: nat)
    requires Create(f, id, now).Success?
    ensures Valid(Create(f, id, now).value)
  {
  }

  /** A title that is non-empty but only whitespace is emptied by the trim
      setter and then rejected by `required`. */
  lemma BlankTitleRejected(f: NoteFields, id: NoteId, now: nat)
    requires AllWhitespace(f.title)
    ensures Create(f, id, now).Failure?
    ensures Create(f, id, now).error[0] == FieldError("title", TitleRequired)
  {
  }

  /** An empty content string is rejected by `required`, and a missing tag
      list is stored as the empty list. */
  lemma ContentRequiredTagsDefault(f: NoteFields, id: NoteId, now: nat)
    ensures f.content == [] ==> Create(f, id, now).Failure?
    ensures Create(f, id, now).Success? && f.tags.None? ==> Create(f, id, now).value.tags == []
  {
  }
}
