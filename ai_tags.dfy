/** What `generateTags` (lib/ai.ts) does with the model's reply: split it
    on commas, trim each piece, drop the empty pieces and keep the first
    five. The request that produces the reply is not modelled. */
module AiTags {
  import opened Text

  const MaxTags: nat := 5

  /** `s.split(",")`: the pieces between commas, in order. A string with no
      comma is one piece, the empty string included. */
  function Split(s: string): (pieces: seq<string>)
    ensures |pieces| >= 1
    ensures forall p :: p in pieces ==> ',' !in p
    ensures ',' !in s ==> pieces == [s]
    decreases |s|
  {
    if s == [] then [[]]
    else
      var rest := Split(s[1..]);
      if s[0] == ',' then [[]] + rest
      else
        assert s == [s[0]] + s[1..];
        [[s[0]] + rest[0]] + rest[1..]
  }

  /** `pieces.join(",")`. */
  function Join(pieces: seq<string>): (s: string)
    decreases |pieces|
  {
    if pieces == [] then []
    else if |pieces| == 1 then pieces[0]
    else pieces[0] + "," + Join(pieces[1..])
  }

  /** Split is the inverse of Join on comma-free pieces ... */
  lemma {:induction false} SplitJoin(pieces: seq<string>)
    requires |pieces| >= 1 && forall p :: p in pieces ==> ',' !in p
    ensures Split(Join(pieces)) == pieces
    decreases |pieces|
  {
    if |pieces| > 1 {
      var rest := pieces[1..];
      assert forall p :: p in rest ==> p in pieces;
      SplitJoin(rest);
      SplitPrefix(pieces[0], Join(rest));
    }
  }

  /** Splitting a comma-free piece, a comma and a tail. */
  lemma {:induction false} SplitPrefix(p: string, tail: string)
    requires ',' !in p
    ensures Split(p + "," + tail) == [p] + Split(tail)
    decreases |p|
  {
    var s := p + "," + tail;
    if p == [] {
      assert s[1..] == tail;
    } else {
      assert s[0] == p[0] && s[1..] == p[1..] + "," + tail;
      SplitPrefix(p[1..], tail);
      var rest := Split(s[1..]);
      assert rest[0] == p[1..] && rest[1..] == Split(tail);
      assert [p[0]] + p[1..] == p;
    }
  }

  /** ... and Join undoes Split. */
  lemma {:induction false} JoinSplit(s: string)
    ensures Join(Split(s)) == s
    decreases |s|
  {
    if ',' in s {
      var i := FirstComma(s);
      var head, tail := s[..i], s[i + 1..];
      assert s == head + "," + tail;
      SplitPrefix(head, tail);
      JoinSplit(tail);
      var rest := Split(tail);
      assert ([head] + rest)[1..] == rest;
    }
  }

  /** The position of the first comma. */
  function FirstComma(s: string): (i: nat)
    requires ',' in s
    ensures i < |s| && s[i] == ',' && ',' !in s[..i]
  {
    if s[0] == ',' then 0
    else
      assert s == [s[0]] + s[1..];
      var k := FirstComma(s[1..]);
      assert s[..k + 1] == [s[0]] + s[1..][..k];
      k + 1
  }

  /** `.map(t => t.trim())` */
  function TrimAll(pieces: seq<string>): (r: seq<string>)
    ensures |r| == |pieces|
    ensures forall i :: 0 <= i < |r| ==> r[i] == Trim(pieces[i]) && IsTrimmed(r[i])
  {
    seq(|pieces|, i requires 0 <= i < |pieces| => Trim(pieces[i]))
  }

  /** `.filter(Boolean)`: only the empty string is falsy. */
  function NonEmpty(pieces: seq<string>): (r: seq<string>)
    ensures forall p :: p in r <==> p in pieces && p != []
    ensures |r| <= |pieces|
  {
    if pieces == [] then []
    else if pieces[0] == [] then NonEmpty(pieces[1..])
    else [pieces[0]] + NonEmpty(pieces[1..])
  }

  /** Dropping empty pieces works piece by piece, so the kept pieces stay
      in their order and duplicates are kept. */
  lemma {:induction false} NonEmptyAppend(a: seq<string>, b: seq<string>)
    ensures NonEmpty(a + b) == NonEmpty(a) + NonEmpty(b)
    decreases |a|
  {
    if a == [] {
      assert a + b == b;
    } else {
      assert (a + b)[0] == a[0] && (a + b)[1..] == a[1..] + b;
      NonEmptyAppend(a[1..], b);
      if a[0] != [] {
        assert [a[0]] + NonEmpty(a[1..]) + NonEmpty(b) == [a[0]] + (NonEmpty(a[1..]) + NonEmpty(b));
      }
    }
  }

  /** `.slice(0, 5)` */
  function Take(pieces: seq<string>, n: nat): (r: seq<string>)
    ensures |r| == if |pieces| <= n then |pieces| else n
    ensures r == pieces[..|r|]
    ensures forall t :: t in r ==> t in pieces
  {
    if |pieces| <= n then pieces else pieces[..n]
  }

  /** The tag list made from a reply. */
  function ParseTags(reply: string): (tags: seq<string>)
    ensures |tags| <= MaxTags
    ensures forall t :: t in tags ==> t != [] && IsTrimmed(t) && ',' !in t
  {
    var trimmed := TrimAll(Split(reply));
    TrimAllCommaFree(Split(reply));
    Take(NonEmpty(trimmed), MaxTags)
  }

  lemma TrimAllCommaFree(pieces: seq<string>)
    requires forall p :: p in pieces ==> ',' !in p
    ensures forall t :: t in TrimAll(pieces) ==> ',' !in t && IsTrimmed(t)
  {
    var trimmed := TrimAll(pieces);
    forall t | t in trimmed ensures ',' !in t {
      var i :| 0 <= i < |trimmed| && trimmed[i] == t;
      assert pieces[i] in pieces;
      TrimKeepsChars(pieces[i]);
    }
  }

  /** Trimming only removes characters. */
  lemma TrimKeepsChars(s: string)
    ensures forall c :: c in Trim(s) ==> c in s
  {
    var i, j := TrimIsSlice(s);
    forall c | c in Trim(s) ensures c in s {
      var k :| 0 <= k < |Trim(s)| && Trim(s)[k] == c;
      assert s[i + k] == c;
    }
  }

  /** A reply without a comma is one tag, or none when it is blank. */
  lemma NoCommaReply(reply: string)
    requires ',' !in reply
    ensures ParseTags(reply) == if AllWhitespace(reply) then [] else [Trim(reply)]
  {
    assert Split(reply) == [reply];
    TrimAllSingle(reply);
    NonEmptySingle(Trim(reply));
    TrimEmptyIff(reply);
  }

  lemma TrimAllSingle(p: string)
    ensures TrimAll([p]) == [Trim(p)]
  {
  }

  lemma NonEmptySingle(p: string)
    ensures NonEmpty([p]) == if p == [] then [] else [p]
  {
    assert [p][1..] == [];
  }

  /** A reply that is a comma-separated list of pieces gives the trimmed,
      non-blank pieces in their order, at most the first five of them,
      duplicates included. */
  lemma ParseJoined(pieces: seq<string>)
    requires |pieces| >= 1 && forall p :: p in pieces ==> ',' !in p
    ensures ParseTags(Join(pieces)) == Take(NonEmpty(TrimAll(pieces)), MaxTags)
  {
    SplitJoin(pieces);
  }

  /** Tags that are already clean come back as they were, cut to five. */
  lemma {:induction false} CleanTagsRoundTrip(tags: seq<string>)
    requires forall t :: t in tags ==> t != [] && IsTrimmed(t) && ',' !in t
    ensures ParseTags(Join(tags)) == Take(tags, MaxTags)
  {
    if tags == [] {
      assert Join(tags) == [];
      assert Split([]) == [[]];
      assert Trim([]) == [];
      assert TrimAll([[]]) == [[]];
    } else {
      ParseJoined(tags);
      forall i | 0 <= i < |tags| ensures Trim(tags[i]) == tags[i] {
        assert tags[i] in tags;
        TrimFixedIff(tags[i]);
      }
      assert TrimAll(tags) == tags;
      NonEmptyKeepsClean(tags);
    }
  }

  lemma {:induction false} NonEmptyKeepsClean(tags: seq<string>)
    requires forall t :: t in tags ==> t != []
    ensures NonEmpty(tags) == tags
  {
    if tags != [] {
      assert forall t :: t in tags[1..] ==> t in tags;
      NonEmptyKeepsClean(tags[1..]);
      assert tags[0] in tags;
      assert [tags[0]] + tags[1..] == tags;
    }
  }
}
