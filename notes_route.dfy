/** The `/api/notes` route (app/api/notes/route.ts): the zod body schema, and
    the GET and POST handlers over a note collection. The collection is an
    in-memory sequence, the session is the caller's user id (`None` when
    there is no signed-in user), `dbUp` says whether the database connection
    and the query succeed, and `now` is the clock reading for timestamps. */
module NotesRoute {
  import opened Wrappers
  import opened Json
  import opened Text
  import opened NoteModel
  import opened NoteOrder

  // ---------------------------------------------------------------------
  // Responses

  datatype ResponseBody =
    | NotesBody(notes: seq<Note>)
    | NoteBody(note: Note)
    | ErrorBody(error: string)

  datatype Response = Response(status: nat, body: ResponseBody)

  const Unauthorized := Response(401, ErrorBody("Unauthorized"))
  const FetchFailed := Response(500, ErrorBody("Failed to fetch notes"))
  const CreateFailed := Response(500, ErrorBody("Failed to create note"))

  // ---------------------------------------------------------------------
  // The request body schema: z.object({ title, content, tags })

  /** What the schema keeps of a valid body (zod drops unknown keys). */
  datatype NoteInput = NoteInput(title: string, content: string, tags: Option<seq<string>>)

  /** Why a body was refused: `request.json()` could not parse it, or the
      first issue zod reports. */
  datatype BodyError = MalformedJson | SchemaIssue(message: string)

  const TitleMax: nat := 200
  const TitleRequiredMessage := "Title is required"
  const TitleTooLongMessage := "String must contain at most 200 character(s)"
  const ContentRequiredMessage := "Content is required"

  /** zod's message for a value of the wrong type; an absent key reads as
      `undefined`, which zod reports as "Required". */
  function TypeIssue(expected: string, v: Option<Json>): string {
    if v.None? then "Required" else "Expected " + expected + ", received " + TypeName(v.value)
  }

  /** The first issue of `z.string().min(1, "Title is required").max(200)`. */
  function TitleIssue(v: Option<Json>): (issue: Option<string>)
    ensures issue.None? <==> v.Some? && v.value.JString? && 1 <= |v.value.s| <= TitleMax
    ensures v.Some? && v.value.JString? && |v.value.s| > TitleMax ==> issue == Some(TitleTooLongMessage)
  {
    if v.None? || !v.value.JString? then Some(TypeIssue("string", v))
    else if |v.value.s| < 1 then Some(TitleRequiredMessage)
    else if |v.value.s| > TitleMax then Some(TitleTooLongMessage)
    else None
  }

  /** The first issue of `z.string().min(1, "Content is required")`. */
  function ContentIssue(v: Option<Json>): (issue: Option<string>)
    ensures issue.None? <==> v.Some? && v.value.JString? && v.value.s != []
    ensures v == Some(JString([])) ==> issue == Some(ContentRequiredMessage)
  {
    if v.None? || !v.value.JString? then Some(TypeIssue("string", v))
    else if |v.value.s| < 1 then Some(ContentRequiredMessage)
    else None
  }

  /** The index of the first array element that is not a string. */
  function FirstNonString(items: seq<Json>): (k: nat)
    ensures k <= |items|
    ensures forall i :: 0 <= i < k ==> items[i].JString?
    ensures k < |items| ==> !items[k].JString?
  {
    if items == [] then 0
    else if !items[0].JString? then 0
    else 1 + FirstNonString(items[1..])
  }

  /** The first issue of `z.array(z.string()).optional()`. */
  function TagsIssue(v: Option<Json>): (issue: Option<string>)
    ensures issue.None? <==>
      v.None? || (v.value.JArray? && forall i :: 0 <= i < |v.value.items| ==> v.value.items[i].JString?)
  {
    if v.None? then None
    else if !v.value.JArray? then Some(TypeIssue("array", v))
    else
      var k := FirstNonString(v.value.items);
      if k < |v.value.items| then Some(TypeIssue("string", Some(v.value.items[k]))) else None
  }

  function Field(fields: map<string, Json>, key: string): Option<Json> {
    if key in fields then Some(fields[key]) else None
  }

  /** The body constraints, stated directly: an object whose title is a
      string of 1 to 200 characters, whose content is a non-empty string,
      and whose tags, if present, are a list of strings. */
  predicate AcceptableBody(b: Json) {
    && b.JObject?
    && "title" in b.fields && b.fields["title"].JString?
    && 1 <= |b.fields["title"].s| <= TitleMax
    && "content" in b.fields && b.fields["content"].JString?
    && |b.fields["content"].s| >= 1
    && ("tags" in b.fields ==>
          b.fields["tags"].JArray? &&
          forall i :: 0 <= i < |b.fields["tags"].items| ==> b.fields["tags"].items[i].JString?)
  }

  /** `noteSchema.parse(await request.json())`. `None` is a body that is not
      JSON at all. On success only the three schema keys survive; on
      failure the message is zod's first issue, in key order. */
  function ParseBody(body: Option<Json>): (r: Result<NoteInput, BodyError>)
    ensures r.Success? <==> body.Some? && AcceptableBody(body.value)
    ensures body.None? ==> r == Failure(MalformedJson)
    ensures r.Success? ==>
      var f := body.value.fields;
      && r.value.title == f["title"].s
      && r.value.content == f["content"].s
      && r.value.tags.Some? == ("tags" in f)
      && (r.value.tags.Some? ==>
            |r.value.tags.value| == |f["tags"].items|
            && forall i :: 0 <= i < |f["tags"].items| ==> f["tags"].items[i] == JString(r.value.tags.value[i]))
  {
    match body
    case None => Failure(MalformedJson)
    case Some(JObject(fields)) =>
      var title, content, tags := Field(fields, "title"), Field(fields, "content"), Field(fields, "tags");
      var ti, ci, gi := TitleIssue(title), ContentIssue(content), TagsIssue(tags);
      if ti.Some? then Failure(SchemaIssue(ti.value))
      else if ci.Some? then Failure(SchemaIssue(ci.value))
      else if gi.Some? then Failure(SchemaIssue(gi.value))
      else
        var tagList := if tags.None? then None else Some(Strings(tags.value.items));
        Success(NoteInput(title.value.s, content.value.s, tagList))
    case Some(other) => Failure(SchemaIssue(TypeIssue("object", body)))
  }

  /** The title's messages, which come first: an absent title, an empty
      title string, and one over 200 characters. */
  lemma TitleIssueMessages(fields: map<string, Json>)
    ensures "title" !in fields ==>
      ParseBody(Some(JObject(fields))) == Failure(SchemaIssue("Required"))
    ensures "title" in fields && fields["title"] == JString([]) ==>
      ParseBody(Some(JObject(fields))) == Failure(SchemaIssue(TitleRequiredMessage))
    ensures "title" in fields && fields["title"].JString? && |fields["title"].s| > TitleMax ==>
      ParseBody(Some(JObject(fields))) == Failure(SchemaIssue(TitleTooLongMessage))
  {
  }

  /** With a good title, an empty content string is reported next. */
  lemma ContentIssueMessage(fields: map<string, Json>)
    requires GoodTitle(fields)
    ensures "content" in fields && fields["content"] == JString([]) ==>
      ParseBody(Some(JObject(fields))) == Failure(SchemaIssue(ContentRequiredMessage))
  {
  }

  /** With a good title and content, a tag list whose first non-string
      element is a number is reported with zod's type message. */
  lemma TagIssueMessage(fields: map<string, Json>)
    requires GoodTitle(fields)
    requires "content" in fields && fields["content"].JString? && fields["content"] != JString([])
    requires "tags" in fields && fields["tags"].JArray? && |fields["tags"].items| > 0
    requires var items := fields["tags"].items;
      var k := FirstNonString(items); k < |items| && items[k].JNumber?
    ensures ParseBody(Some(JObject(fields))) == Failure(SchemaIssue("Expected string, received number"))
  {
    var title, content, tags := Field(fields, "title"), Field(fields, "content"), Field(fields, "tags");
    assert TitleIssue(title).None? && ContentIssue(content).None?;
    NumberTagIssue(tags.value.items);
  }

  lemma NumberTagIssue(items: seq<Json>)
    requires FirstNonString(items) < |items| && items[FirstNonString(items)].JNumber?
    ensures TagsIssue(Some(JArray(items))) == Some("Expected string, received number")
  {
    var k := FirstNonString(items);
    assert TypeIssue("string", Some(items[k])) == "Expected " + "string" + ", received " + "number";
    NumberMessage();
  }

  lemma NumberMessage()
    ensures "Expected " + "string" + ", received " + "number" == "Expected string, received number"
  {
  }

  /** zod strips keys the schema does not name, so a body cannot smuggle in
      other fields (such as `userId`) through the schema. */
  lemma UnknownKeysIgnored(fields: map<string, Json>, key: string, v: Json)
    requires key != "title" && key != "content" && key != "tags"
    ensures ParseBody(Some(JObject(fields[key := v]))) == ParseBody(Some(JObject(fields)))
  {
    var g := fields[key := v];
    assert Field(g, "title") == Field(fields, "title");
    assert Field(g, "content") == Field(fields, "content");
    assert Field(g, "tags") == Field(fields, "tags");
  }

  predicate GoodTitle(fields: map<string, Json>) {
    "title" in fields && fields["title"].JString? && 1 <= |fields["title"].s| <= TitleMax
  }

  /** The strings of an all-string array. */
  function Strings(items: seq<Json>): (r: seq<string>)
    requires forall i :: 0 <= i < |items| ==> items[i].JString?
    ensures |r| == |items| && forall i :: 0 <= i < |items| ==> items[i] == JString(r[i])
  {
    seq(|items|, i requires 0 <= i < |items| => items[i].s)
  }

  // ---------------------------------------------------------------------
  // The query behind GET

  /** The query filter `{ userId: uid }`. */
  function OwnedBy(uid: UserId): Note -> bool {
    (n: Note) => n.userId == uid
  }

  /** `Note.find({ userId })`: the notes owned by `uid`, in storage order. */
  function Owned(notes: seq<Note>, uid: UserId): (r: seq<Note>)
    ensures forall n :: n in r <==> n in notes && n.userId == uid
  {
    Filter(notes, OwnedBy(uid))
  }

  /** `Note.find({ userId }).sort({ createdAt: -1 })`. */
  function ListNotes(notes: seq<Note>, uid: UserId): (r: seq<Note>)
    ensures NewestFirstOrdered(r)
    ensures multiset(r) == multiset(Owned(notes, uid))
    ensures forall n :: n in r <==> n in notes && n.userId == uid
  {
    var r := NewestFirst(Owned(notes, uid));
    assert forall n :: n in r <==> n in multiset(r);
    r
  }

  lemma {:induction false} FilterAppend(s: seq<Note>, n: Note, keep: Note -> bool)
    ensures Filter(s + [n], keep) == Filter(s, keep) + (if keep(n) then [n] else [])
  {
    if s != [] {
      assert (s + [n])[1..] == s[1..] + [n];
      FilterAppend(s[1..], n, keep);
    } else {
      assert [] + [n] == [n];
    }
  }

  /** Storing a note adds it to its owner's list and to no one else's, so
      the owner's next GET returns it. */
  lemma ListAfterCreate(notes: seq<Note>, n: Note, uid: UserId)
    ensures multiset(ListNotes(notes + [n], uid)) ==
      multiset(ListNotes(notes, uid)) + (if n.userId == uid then multiset{n} else multiset{})
    ensures n.userId == uid ==> n in ListNotes(notes + [n], uid)
  {
    FilterAppend(notes, n, OwnedBy(uid));
    if n.userId == uid {
      assert n in multiset(ListNotes(notes + [n], uid));
    }
  }

  // ---------------------------------------------------------------------
  // The collection and the two handlers

  /** Every stored note passed the schema, and identifiers are distinct and
      below the next one to be handed out. */
  predicate StoreInvariant(notes: seq<Note>, nextId: NoteId) {
    && (forall i :: 0 <= i < |notes| ==> NoteModel.Valid(notes[i]) && notes[i].id < nextId)
    && (forall i, j :: 0 <= i < j < |notes| ==> notes[i].id != notes[j].id)
  }

  /** Appending a valid note with the next identifier keeps the invariant. */
  lemma StoreAppend(notes: seq<Note>, nextId: NoteId, n: Note)
    requires StoreInvariant(notes, nextId)
    requires NoteModel.Valid(n) && n.id == nextId
    ensures StoreInvariant(notes + [n], nextId + 1)
  {
    var s := notes + [n];
    assert forall i :: 0 <= i < |notes| ==> s[i] == notes[i];
    assert n == s[|notes|];
  }

  /** What the note model's validators demand of a note's input: a title
      that is not blank and at most 200 characters once trimmed, and
      non-empty content. */
  predicate StorableInput(input: NoteInput) {
    !AllWhitespace(input.title) && |Trim(input.title)| <= TitleMax && input.content != []
  }

  /** The set of notes the database holds, and the next free identifier. */
  class NoteStore {
    var notes: seq<Note>
    var nextId: NoteId

    ghost predicate Valid()
      reads this
    {
      StoreInvariant(notes, nextId)
    }

    constructor ()
      ensures Valid() && notes == [] && nextId == 0
    {
      notes := [];
      nextId := 0;
    }

    /** GET /api/notes. */
    method Get(caller: Option<UserId>, dbUp: bool) returns (resp: Response)
      ensures caller.None? ==> resp == Unauthorized
      ensures caller.Some? && !dbUp ==> resp == FetchFailed
      ensures caller.Some? && dbUp ==>
        && resp.status == 200 && resp.body.NotesBody?
        && NewestFirstOrdered(resp.body.notes)
        && multiset(resp.body.notes) == multiset(Owned(notes, caller.value))
        && (forall n :: n in resp.body.notes ==> n.userId == caller.value)
        && resp.body.notes == ListNotes(notes, caller.value)
    {
      if caller.None? {
        return Unauthorized;
      }
      if !dbUp {
        return FetchFailed;
      }
      var found := ListNotes(notes, caller.value);
      return Response(200, NotesBody(found));
    }

    /** POST /api/notes with the decoded request body. */
    method Post(caller: Option<UserId>, body: Option<Json>, dbUp: bool, now: nat) returns (resp: Response)
      requires Valid()
      modifies this
      ensures Valid()
      ensures resp.status != 201 ==> notes == old(notes) && nextId == old(nextId)
      ensures caller.None? ==> resp == Unauthorized
      ensures caller.Some? && ParseBody(body) == Failure(MalformedJson) ==> resp == CreateFailed
      ensures caller.Some? && ParseBody(body).Failure? && ParseBody(body).error.SchemaIssue? ==>
        resp == Response(400, ErrorBody(ParseBody(body).error.message))
      ensures caller.Some? && ParseBody(body).Success? && !dbUp ==> resp == CreateFailed
      ensures caller.Some? && ParseBody(body).Success? && dbUp ==>
        var input := ParseBody(body).value;
        if AllWhitespace(input.title) then resp == CreateFailed
        else
          && resp.status == 201 && resp.body.NoteBody?
          && notes == old(notes) + [resp.body.note]
          && nextId == old(nextId) + 1
          && resp.body.note == Note(old(nextId), Trim(input.title), input.content,
                                    if input.tags.Some? then input.tags.value else [],
                                    caller.value, now, now)
    {
      if caller.None? {
        return Unauthorized;
      }
      var parsed := ParseBody(body);
      if parsed.Failure? {
        if parsed.error.MalformedJson? {
          return CreateFailed;
        }
        return Response(400, ErrorBody(parsed.error.message));
      }
      if !dbUp {
        return CreateFailed;
      }
      TrimEmptyIff(parsed.value.title);
      CreateFromInput(parsed.value, caller.value, nextId, now);
      resp := CreateNote(parsed.value, caller.value, now);
    }

    /** `Note.create({ ...validatedData, userId })` for a body the schema
        accepted: the model's setters and validators run, and a note that
        passes them is stored under the next identifier. A failure is
        reported as a server error. */
    method CreateNote(input: NoteInput, uid: UserId, now: nat) returns (resp: Response)
      requires Valid()
      modifies this
      ensures Valid()
      ensures var c := NoteModel.Create(FieldsOf(input, uid), old(nextId), now);
        c.Failure? ==> resp == CreateFailed && notes == old(notes) && nextId == old(nextId)
      ensures var c := NoteModel.Create(FieldsOf(input, uid), old(nextId), now);
        c.Success? ==>
          && resp == Response(201, NoteBody(c.value))
          && notes == old(notes) + [c.value]
          && nextId == old(nextId) + 1
    {
      var fields := FieldsOf(input, uid);
      var created := NoteModel.Create(fields, nextId, now);
      if created.Failure? {
        return CreateFailed;
      }
      CreatedIsValid(fields, nextId, now);
      Append(created.value);
      return Response(201, NoteBody(created.value));
    }

    /** Stores a valid note under the next identifier. */
    method Append(n: Note)
      requires Valid() && NoteModel.Valid(n) && n.id == nextId
      modifies this
      ensures Valid()
      ensures notes == old(notes) + [n] && nextId == old(nextId) + 1
    {
      StoreAppend(notes, nextId, n);
      notes, nextId := notes + [n], nextId + 1;
    }
  }

  /** The object the handler passes to `Note.create`: the validated body
      with the caller as owner. */
  function FieldsOf(input: NoteInput, uid: UserId): NoteFields {
    NoteFields(input.title, input.content, input.tags, Some(uid))
  }

  /** `Note.create` on an accepted body's fields stores exactly the
      storable inputs, as a valid note built from them. */
  lemma CreateFromInput(input: NoteInput, uid: UserId, id: NoteId, now: nat)
    ensures var c := NoteModel.Create(FieldsOf(input, uid), id, now);
      && (c.Success? <==> StorableInput(input))
      && (c.Success? ==>
            && c.value == Note(id, Trim(input.title), input.content,
                               if input.tags.Some? then input.tags.value else [], uid, now, now)
            && NoteModel.Valid(c.value))
  {
    var f := FieldsOf(input, uid);
    if NoteModel.Create(f, id, now).Success? {
      CreatedIsValid(f, id, now);
    }
  }

  /** A whitespace-only title passes the body schema, whose `min(1)` counts
      the untrimmed characters, but the model's trim setter empties it and
      `required` then fails; the handler does not report that failure as a
      validation error, so it answers 500 rather than 400. */
  lemma BlankTitleIsServerError(fields: map<string, Json>, caller: UserId, id: NoteId, now: nat)
    requires AcceptableBody(JObject(fields))
    requires AllWhitespace(fields["title"].s)
    ensures ParseBody(Some(JObject(fields))).Success?
    ensures var input := ParseBody(Some(JObject(fields))).value;
      NoteModel.Create(NoteFields(input.title, input.content, input.tags, Some(caller)), id, now).Failure?
  {
  }
}
