/** The note editor component (components/note-editor.tsx): its tag list
    and tag input, which the key and click handlers update, the client-side
    form schema, and the rule that enables the AI buttons. */
module NoteEditor {
  import opened Wrappers
  import opened Text
  import opened Json
  import NotesRoute

  // ---------------------------------------------------------------------
  // The tag list transitions

  /** No tag occurs twice. */
  predicate Distinct(tags: seq<string>) {
    forall i, j :: 0 <= i < j < |tags| ==> tags[i] != tags[j]
  }

  /** `a` is `b` with some elements left out, the rest in order. */
  predicate IsSubsequence(a: seq<string>, b: seq<string>)
    decreases |b|
  {
    a == [] || (b != [] && if a[0] == b[0] then IsSubsequence(a[1..], b[1..]) else IsSubsequence(a, b[1..]))
  }

  /** The key handler on the tag input: Enter with a non-blank input adds
      the trimmed input at the end unless it is already there, and clears
      the input either way; anything else changes nothing. The result is the
      new (tags, tagInput). */
  function AddTag(tags: seq<string>, input: string, key: string): (r: (seq<string>, string))
    ensures key != "Enter" || AllWhitespace(input) ==> r == (tags, input)
    ensures key == "Enter" && !AllWhitespace(input) ==>
      && r.1 == []
      && Trim(input) in r.0
      && r.0 == (if Trim(input) in tags then tags else tags + [Trim(input)])
  {
    TrimEmptyIff(input);
    var t := Trim(input);
    if key == "Enter" && t != [] then
      (if t in tags then tags else tags + [t], [])
    else
      (tags, input)
  }

  /** Adding a tag never introduces a duplicate. */
  lemma AddTagKeepsDistinct(tags: seq<string>, input: string, key: string)
    requires Distinct(tags)
    ensures Distinct(AddTag(tags, input, key).0)
  {
    var r := AddTag(tags, input, key).0;
    if r != tags {
      forall i, j | 0 <= i < j < |r| ensures r[i] != r[j] {
        if j == |tags| {
          assert r[i] == tags[i];
          assert r[i] in tags;
        }
      }
    }
  }

  /** The click handler on a tag's remove button:
      `tags.filter(tag => tag !== t)`. */
  function RemoveTag(tags: seq<string>, t: string): (r: seq<string>)
    ensures forall u :: u in r <==> u in tags && u != t
    ensures multiset(r) == multiset(tags)[t := 0]
    ensures IsSubsequence(r, tags)
  {
    if tags == [] then []
    else
      var rest := RemoveTag(tags[1..], t);
      assert tags == [tags[0]] + tags[1..];
      if tags[0] == t then
        SubsequenceSkip(rest, tags[1..], tags[0]);
        rest
      else
        assert ([tags[0]] + rest)[1..] == rest;
        [tags[0]] + rest
  }

  /** A subsequence of `b` is a subsequence of `b` with an element in front. */
  lemma {:induction false} SubsequenceSkip(a: seq<string>, b: seq<string>, x: string)
    requires IsSubsequence(a, b)
    ensures IsSubsequence(a, [x] + b)
    decreases |b|, 1
  {
    assert ([x] + b)[1..] == b;
    if a != [] && a[0] == x {
      SubsequenceDrop(a, b);
    }
  }

  /** Dropping the first element of a subsequence keeps it a subsequence. */
  lemma {:induction false} SubsequenceDrop(a: seq<string>, b: seq<string>)
    requires a != [] && IsSubsequence(a, b)
    ensures IsSubsequence(a[1..], b)
    decreases |b|, 0
  {
    assert [b[0]] + b[1..] == b;
    if a[0] == b[0] {
      SubsequenceSkip(a[1..], b[1..], b[0]);
    } else {
      SubsequenceDrop(a, b[1..]);
      SubsequenceSkip(a[1..], b[1..], b[0]);
    }
  }

  /** Removing a tag that is not there changes nothing, and removing twice
      is removing once. */
  lemma RemoveAbsentTag(tags: seq<string>, t: string)
    ensures t !in tags ==> RemoveTag(tags, t) == tags
    ensures RemoveTag(RemoveTag(tags, t), t) == RemoveTag(tags, t)
  {
    RemoveOnlyMatches(tags, t);
    RemoveOnlyMatches(RemoveTag(tags, t), t);
  }

  lemma {:induction false} RemoveOnlyMatches(tags: seq<string>, t: string)
    ensures t !in tags ==> RemoveTag(tags, t) == tags
  {
    if tags != [] {
      RemoveOnlyMatches(tags[1..], t);
      assert tags == [tags[0]] + tags[1..];
    }
  }

  /** Removing the tag just added restores the list it was added to. */
  lemma RemoveUndoesAdd(tags: seq<string>, input: string)
    requires !AllWhitespace(input) && Trim(input) !in tags
    ensures RemoveTag(AddTag(tags, input, "Enter").0, Trim(input)) == tags
  {
    var t := Trim(input);
    RemoveAppended(tags, t);
  }

  lemma {:induction false} RemoveAppended(tags: seq<string>, t: string)
    requires t !in tags
    ensures RemoveTag(tags + [t], t) == tags
  {
    if tags == [] {
      assert [] + [t] == [t];
      assert [t][1..] == [];
    } else {
      assert (tags + [t])[1..] == tags[1..] + [t];
      RemoveAppended(tags[1..], t);
      assert tags == [tags[0]] + tags[1..];
    }
  }

  // ---------------------------------------------------------------------
  // The form

  const TitleMax: nat := 200

  /** The field messages the client schema produces: `title` between 1 and
      200 characters, `content` at least 1. Its messages are the server
      schema's. */
  function FormErrors(title: string, content: string): (errs: (Option<string>, Option<string>))
    ensures errs.0.None? <==> 1 <= |title| <= TitleMax
    ensures errs.1.None? <==> |content| >= 1
    ensures title == [] ==> errs.0 == Some(NotesRoute.TitleRequiredMessage)
    ensures |title| > TitleMax ==> errs.0 == Some(NotesRoute.TitleTooLongMessage)
    ensures content == [] ==> errs.1 == Some(NotesRoute.ContentRequiredMessage)
  {
    var titleError :=
      if |title| < 1 then Some(NotesRoute.TitleRequiredMessage)
      else if |title| > TitleMax then Some(NotesRoute.TitleTooLongMessage)
      else None;
    var contentError := if |content| < 1 then Some(NotesRoute.ContentRequiredMessage) else None;
    (titleError, contentError)
  }

  predicate FormValid(title: string, content: string) {
    FormErrors(title, content) == (None, None)
  }

  /** The body the new-note page sends for a submission. */
  function SubmissionBody(title: string, content: string, tags: seq<string>): Json {
    JObject(map["title" := JString(title), "content" := JString(content), "tags" := StringArray(tags)])
  }

  /** The client form accepts exactly what the server's body schema
      accepts, so a submitted note is never refused with 400. */
  lemma FormMatchesServerSchema(title: string, content: string, tags: seq<string>)
    ensures FormValid(title, content) <==>
      NotesRoute.ParseBody(Some(SubmissionBody(title, content, tags))).Success?
  {
    var b := SubmissionBody(title, content, tags);
    assert b.fields["title"] == JString(title);
    assert b.fields["content"] == JString(content);
    assert b.fields["tags"] == StringArray(tags);
  }

  /** The AI buttons are enabled only for content of at least 10
      characters (`disabled={!content || content.length < 10}`). */
  function AiActionsEnabled(content: string): (enabled: bool)
    ensures enabled <==> |content| >= 10
  {
    !(content == [] || |content| < 10)
  }

  /** What the editor hands to its `onSubmit` callback. */
  datatype Submission = Submission(title: string, content: string, tags: seq<string>)

  // ---------------------------------------------------------------------
  // The component state

  class Editor {
    var tags: seq<string>
    var tagInput: string

    /** `useState(initialData?.tags || [])` and `useState("")`. */
    constructor (initialTags: Option<seq<string>>)
      ensures tags == (if initialTags.Some? then initialTags.value else [])
      ensures tagInput == []
    {
      tags := if initialTags.Some? then initialTags.value else [];
      tagInput := [];
    }

    /** The input's `onChange`. */
    method SetTagInput(value: string)
      modifies this
      ensures tagInput == value && tags == old(tags)
    {
      tagInput := value;
    }

    /** `handleAddTag`, on a key press in the tag input. */
    method HandleAddTag(key: string)
      modifies this
      ensures (tags, tagInput) == AddTag(old(tags), old(tagInput), key)
      ensures Distinct(old(tags)) ==> Distinct(tags)
    {
      TrimEmptyIff(tagInput);
      var trimmed := Trim(tagInput);
      if key == "Enter" && trimmed != [] {
        if trimmed !in tags {
          tags := tags + [trimmed];
        }
        tagInput := [];
      }
      if Distinct(old(tags)) {
        AddTagKeepsDistinct(old(tags), old(tagInput), key);
      }
    }

    /** `handleRemoveTag`, on a tag's remove button. */
    method HandleRemoveTag(tag: string)
      modifies this
      ensures tags == RemoveTag(old(tags), tag) && tagInput == old(tagInput)
      ensures Distinct(old(tags)) ==> Distinct(tags)
    {
      var current := tags;
      var kept: seq<string> := [];
      var i := 0;
      while i < |current|
        invariant 0 <= i <= |current|
        invariant kept == RemoveTag(current[..i], tag)
        invariant tags == current && tagInput == old(tagInput)
      {
        assert current[..i + 1] == current[..i] + [current[i]];
        RemoveTagAppend(current[..i], current[i], tag);
        if current[i] != tag {
          kept := kept + [current[i]];
        }
        i := i + 1;
      }
      assert current[..i] == current;
      if Distinct(current) {
        RemoveKeepsDistinct(current, tag);
      }
      tags := kept;
    }

    /** `handleSubmit(handleFormSubmit)`: the callback is called only with
      values the form schema accepts, together with the current tags. */
    method HandleFormSubmit(title: string, content: string) returns (submitted: Option<Submission>)
      ensures submitted.Some? <==> FormValid(title, content)
      ensures submitted.Some? ==> submitted.value == Submission(title, content, tags)
    {
      if FormValid(title, content) {
        submitted := Some(Submission(title, content, tags));
      } else {
        submitted := None;
      }
    }
  }

  lemma {:induction false} RemoveTagAppend(tags: seq<string>, x: string, t: string)
    ensures RemoveTag(tags + [x], t) == RemoveTag(tags, t) + (if x == t then [] else [x])
  {
    if tags == [] {
      assert [] + [x] == [x];
      assert [x][1..] == [];
    } else {
      assert (tags + [x])[1..] == tags[1..] + [x];
      RemoveTagAppend(tags[1..], x, t);
    }
  }

  /** Removing a tag never introduces a duplicate. */
  lemma {:induction false} RemoveKeepsDistinct(tags: seq<string>, t: string)
    requires Distinct(tags)
    ensures Distinct(RemoveTag(tags, t))
  {
    if tags != [] {
      var rest := tags[1..];
      assert Distinct(rest) by {
        forall i, j | 0 <= i < j < |rest| ensures rest[i] != rest[j] {
          assert rest[i] == tags[i + 1] && rest[j] == tags[j + 1];
        }
      }
      RemoveKeepsDistinct(rest, t);
      if tags[0] != t {
        var r := RemoveTag(rest, t);
        assert tags[0] !in rest;
        assert tags[0] !in r;
        DistinctCons(tags[0], r);
      }
    }
  }

  lemma DistinctCons(x: string, s: seq<string>)
    requires Distinct(s) && x !in s
    ensures Distinct([x] + s)
  {
    var r := [x] + s;
    forall i, j | 0 <= i < j < |r| ensures r[i] != r[j] {
      assert r[j] == s[j - 1];
      if i > 0 {
        assert r[i] == s[i - 1];
      }
    }
  }
}
