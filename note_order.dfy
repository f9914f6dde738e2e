/** The order both note queries ask the database for,
    `.sort({ createdAt: -1 })`: newest first. The database does not say how
    notes with equal timestamps are ordered; the model sorts stably, so
    equal timestamps keep their insertion order, and the route contracts
    promise only what the database does (sorted and a permutation). */
module NoteOrder {
  import opened NoteModel

  /** Non-increasing `createdAt`. */
  predicate NewestFirstOrdered(s: seq<Note>) {
    forall i, j :: 0 <= i < j < |s| ==> s[i].createdAt >= s[j].createdAt
  }

  /** In an ordered sequence no note is newer than the first. */
  lemma HeadIsNewest(s: seq<Note>)
    requires NewestFirstOrdered(s) && s != []
    ensures forall m :: m in s ==> m.createdAt <= s[0].createdAt
  {
    forall m | m in s ensures m.createdAt <= s[0].createdAt {
      var k :| 0 <= k < |s| && s[k] == m;
    }
  }

  /** A note no older than everything in an ordered sequence can go in front. */
  lemma OrderedCons(x: Note, t: seq<Note>)
    requires NewestFirstOrdered(t)
    requires forall m :: m in t ==> m.createdAt <= x.createdAt
    ensures NewestFirstOrdered([x] + t)
  {
    var s := [x] + t;
    forall i, j | 0 <= i < j < |s| ensures s[i].createdAt >= s[j].createdAt {
      assert s[j] == t[j - 1];
      if i > 0 {
        assert s[i] == t[i - 1];
      } else {
        assert s[j] in t;
      }
    }
  }

  /** Puts `n` in front of the first note that is not newer than it. */
  function Insert(n: Note, s: seq<Note>): (r: seq<Note>)
    requires NewestFirstOrdered(s)
    ensures NewestFirstOrdered(r)
    ensures multiset(r) == multiset(s) + multiset{n}
  {
    if s == [] then [n]
    else if n.createdAt >= s[0].createdAt then
      HeadIsNewest(s);
      OrderedCons(n, s);
      [n] + s
    else
      var rest := Insert(n, s[1..]);
      InsertBehindHead(n, s, rest);
      [s[0]] + rest
  }

  /** The head of `s` can stay in front of `n` inserted into the tail. */
  lemma InsertBehindHead(n: Note, s: seq<Note>, rest: seq<Note>)
    requires NewestFirstOrdered(s) && s != [] && n.createdAt < s[0].createdAt
    requires NewestFirstOrdered(rest) && multiset(rest) == multiset(s[1..]) + multiset{n}
    ensures NewestFirstOrdered([s[0]] + rest)
    ensures multiset([s[0]] + rest) == multiset(s) + multiset{n}
  {
    HeadIsNewest(s);
    forall m | m in rest ensures m.createdAt <= s[0].createdAt {
      assert m in multiset(rest);
      if m != n {
        assert m in s[1..];
      }
    }
    OrderedCons(s[0], rest);
    assert s == [s[0]] + s[1..];
  }

  /** The notes of `s`, newest first. */
  function NewestFirst(s: seq<Note>): (r: seq<Note>)
    ensures NewestFirstOrdered(r)
    ensures multiset(r) == multiset(s)
  {
    if s == [] then []
    else
      assert s == [s[0]] + s[1..];
      Insert(s[0], NewestFirst(s[1..]))
  }

  /** The notes of `s` that `keep` accepts, in their order in `s`. */
  function Filter(s: seq<Note>, keep: Note -> bool): (r: seq<Note>)
    ensures forall n :: n in r <==> n in s && keep(n)
    ensures NewestFirstOrdered(s) ==> NewestFirstOrdered(r)
  {
    if s == [] then []
    else if keep(s[0]) then
      var rest := Filter(s[1..], keep);
      if NewestFirstOrdered(s) then HeadIsNewest(s); OrderedCons(s[0], rest); [s[0]] + rest
      else [s[0]] + rest
    else Filter(s[1..], keep)
  }

  lemma {:induction false} FilterInsert(n: Note, s: seq<Note>, keep: Note -> bool)
    requires NewestFirstOrdered(s)
    ensures Filter(Insert(n, s), keep) ==
      if keep(n) then Insert(n, Filter(s, keep)) else Filter(s, keep)
  {
    if s == [] || n.createdAt >= s[0].createdAt {
      assert ([n] + s)[1..] == s;
      var f := Filter(s, keep);
      if f != [] {
        assert f[0] in s;
      }
    } else {
      FilterInsert(n, s[1..], keep);
      var rest := Insert(n, s[1..]);
      assert ([s[0]] + rest)[1..] == rest;
      if keep(n) {
        var f := Filter(s[1..], keep);
        if keep(s[0]) {
          assert Filter(s, keep) == [s[0]] + f;
          assert (([s[0]] + f)[1..]) == f;
        }
      }
    }
  }

  /** Filtering the sorted notes is sorting the filtered notes, so a query
      that narrows the list keeps the list's order. */
  lemma {:induction false} FilterNewestFirst(s: seq<Note>, keep: Note -> bool)
    ensures Filter(NewestFirst(s), keep) == NewestFirst(Filter(s, keep))
  {
    if s != [] {
      FilterNewestFirst(s[1..], keep);
      FilterInsert(s[0], NewestFirst(s[1..]), keep);
      if keep(s[0]) {
        var f := Filter(s[1..], keep);
        assert ([s[0]] + f)[1..] == f;
      }
    }
  }
}
