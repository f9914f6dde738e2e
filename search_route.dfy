/** The `/api/notes/search` route (app/api/notes/search/route.ts): after the
    session and query guards, the caller's notes whose title, content or one
    of whose tags contains the query, ignoring case, newest first. The query
    is matched as a literal string. */
module SearchRoute {
  import opened Wrappers
  import opened Text
  import opened NoteModel
  import opened NoteOrder
  import opened NotesRoute

  const QueryRequired := Response(400, ErrorBody("Search query is required"))
  const SearchFailed := Response(500, ErrorBody("Failed to search notes"))

  /** The `$or` of the three case-insensitive field conditions; a tag list
      matches when one of its elements does. */
  predicate MatchesQuery(n: Note, q: string)
    ensures MatchesQuery(n, q) ==>
      |q| <= |n.title| || |q| <= |n.content| || exists t :: t in n.tags && |q| <= |t|
  {
    ContainsIgnoringCase(n.title, q) || ContainsIgnoringCase(n.content, q) || AnyTagMatches(n.tags, q)
  }

  /** Matching ignores the case of the query (`$options: "i"`). */
  lemma MatchIgnoresQueryCase(n: Note, q: string)
    ensures MatchesQuery(n, q) <==> MatchesQuery(n, Lower(q))
  {
    LowerFixedIff(Lower(q));
  }

  predicate AnyTagMatches(tags: seq<string>, q: string) {
    exists t :: t in tags && ContainsIgnoringCase(t, q)
  }

  /** The query filter for `q`. */
  function Matching(q: string): Note -> bool {
    (n: Note) => MatchesQuery(n, q)
  }

  /** GET /api/notes/search?q=... over the stored `notes`; `q` is `None` when
      the parameter is absent. */
  function Search(notes: seq<Note>, caller: Option<UserId>, q: Option<string>, dbUp: bool): (resp: Response)
    ensures caller.None? ==> resp == Unauthorized
    ensures caller.Some? && (q.None? || q.value == []) ==> resp == QueryRequired
    ensures caller.Some? && q.Some? && q.value != [] && !dbUp ==> resp == SearchFailed
    ensures caller.Some? && q.Some? && q.value != [] && dbUp ==>
      && resp.status == 200 && resp.body.NotesBody?
      && NewestFirstOrdered(resp.body.notes)
      && (forall n :: n in resp.body.notes <==>
            n in notes && n.userId == caller.value && MatchesQuery(n, q.value))
  {
    if caller.None? then Unauthorized
    else if q.None? || q.value == [] then QueryRequired
    else if !dbUp then SearchFailed
    else
      var found := Filter(Owned(notes, caller.value), Matching(q.value));
      var sorted := NewestFirst(found);
      assert forall n :: n in sorted <==> n in found by {
        forall n ensures n in sorted <==> n in found {
          assert n in sorted <==> n in multiset(sorted);
        }
      }
      Response(200, NotesBody(sorted))
  }

  /** The search result is the caller's list with the non-matching notes
      removed, in the list's order; in particular it is a subset of it. */
  lemma SearchNarrowsList(notes: seq<Note>, uid: UserId, q: string)
    requires q != []
    ensures Search(notes, Some(uid), Some(q), true).body.notes ==
      Filter(ListNotes(notes, uid), Matching(q))
    ensures forall n :: n in Search(notes, Some(uid), Some(q), true).body.notes ==> n in ListNotes(notes, uid)
  {
    FilterNewestFirst(Owned(notes, uid), Matching(q));
  }

  /** An empty query would match every note, since every string contains
      the empty string; the 400 guard is what keeps it from listing them
      all. */
  lemma EmptyQueryMatchesAll(n: Note)
    ensures MatchesQuery(n, [])
  {
    assert Lower([]) == [];
    ContainsTrivial(Lower(n.title));
  }

  /** A whitespace-only query is not rejected: the guard tests only for an
      absent or empty parameter. */
  lemma BlankQueryAccepted(notes: seq<Note>, uid: UserId)
    ensures Search(notes, Some(uid), Some(" "), true).status == 200
  {
  }

  /** The query "hello" matches "Hello World", "say hello" and "HELLO". */
  lemma HelloMatches()
    ensures ContainsIgnoringCase("Hello World", "hello")
    ensures ContainsIgnoringCase("say hello", "hello")
    ensures ContainsIgnoringCase("HELLO", "hello")
  {
    assert Lower("Hello World")[0..5] == "hello";
    assert OccursAt(Lower("Hello World"), Lower("hello"), 0);
    assert Lower("say hello")[4..9] == "hello";
    assert OccursAt(Lower("say hello"), Lower("hello"), 4);
    assert Lower("HELLO") == "hello";
    assert OccursAt(Lower("HELLO"), Lower("hello"), 0);
  }
}
