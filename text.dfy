/** String helpers shared by the whole model: the JavaScript `trim`,
    `toLowerCase` and substring containment the application relies on.
    Strings are sequences of characters and `|s|` is their length. */
module Text {

  /** The characters `String.prototype.trim` strips: the ECMAScript
      WhiteSpace set (tab, vertical tab, form feed, the byte order mark and
      every space separator) and the LineTerminator set. */
  predicate IsWhitespace(c: char) {
    || c == '\t' || c == '\n' || c == '\U{B}' || c == '\U{C}' || c == '\r'
    || c == ' ' || c == '\U{A0}' || c == '\U{1680}'
    || ('\U{2000}' <= c <= '\U{200A}')
    || c == '\U{2028}' || c == '\U{2029}' || c == '\U{202F}' || c == '\U{205F}'
    || c == '\U{3000}' || c == '\U{FEFF}'
  }

  predicate AllWhitespace(s: string) {
    forall i :: 0 <= i < |s| ==> IsWhitespace(s[i])
  }

  /** Neither end of `s` is a whitespace character. */
  predicate IsTrimmed(s: string) {
    s == [] || (!IsWhitespace(s[0]) && !IsWhitespace(s[|s| - 1]))
  }

  /** Every character of `s` from position `lo` up to, not including,
      position `hi` is whitespace. */
  predicate WhitespaceIn(s: string, lo: int, hi: int) {
    forall k :: lo <= k < hi && 0 <= k < |s| ==> IsWhitespace(s[k])
  }

  /** Drops the leading whitespace: the result is a suffix of `s`, what was
      dropped is all whitespace, and what is left does not start with it. */
  function TrimStart(s: string): (r: string)
    ensures |r| <= |s| && r == s[|s| - |r|..]
    ensures WhitespaceIn(s, 0, |s| - |r|)
    ensures r == [] || !IsWhitespace(r[0])
  {
    if s != [] && IsWhitespace(s[0]) then
      var r := TrimStart(s[1..]);
      assert forall k :: 1 <= k < |s| - |r| ==> s[k] == s[1..][k - 1];
      r
    else s
  }

  /** Drops the trailing whitespace: the result is a prefix of `s`, what was
      dropped is all whitespace, and what is left does not end with it. */
  function TrimEnd(s: string): (r: string)
    ensures |r| <= |s| && r == s[..|r|]
    ensures WhitespaceIn(s, |r|, |s|)
    ensures r == [] || !IsWhitespace(r[|r| - 1])
  {
    if s != [] && IsWhitespace(s[|s| - 1]) then
      var r := TrimEnd(s[..|s| - 1]);
      assert forall k :: |r| <= k < |s| - 1 ==> s[k] == s[..|s| - 1][k];
      r
    else s
  }

  /** JavaScript `s.trim()`: neither end of the result is whitespace. */
  function Trim(s: string): (r: string)
    ensures IsTrimmed(r)
    ensures |r| <= |s|
  {
    var t := TrimStart(s);
    var r := TrimEnd(t);
    assert r != [] ==> r[0] == t[0];
    r
  }

  /** `Trim(s)` is the slice `s[i..j]` of `s` left after removing a
      whitespace-only prefix and a whitespace-only suffix. */
  lemma TrimIsSlice(s: string) returns (i: nat, j: nat)
    ensures i <= j <= |s| && Trim(s) == s[i..j]
    ensures WhitespaceIn(s, 0, i) && WhitespaceIn(s, j, |s|)
  {
    var t := TrimStart(s);
    var r := TrimEnd(t);
    i := |s| - |t|;
    j := i + |r|;
    assert r == s[i..j];
    forall k | j <= k < |s| ensures IsWhitespace(s[k]) {
      assert s[k] == t[k - i];
    }
  }

  /** Trimming changes nothing exactly when the string is already trimmed. */
  lemma TrimFixedIff(s: string)
    ensures Trim(s) == s <==> IsTrimmed(s)
  {
    var _, _ := TrimIsSlice(s);
    if IsTrimmed(s) && s != [] {
      assert TrimStart(s) == s;
      assert TrimEnd(s) == s;
    }
  }

  /** Trimming twice is trimming once. */
  lemma TrimIdempotent(s: string)
    ensures Trim(Trim(s)) == Trim(s)
  {
    var _, _ := TrimIsSlice(s);
    TrimFixedIff(Trim(s));
  }

  /** A string trims to the empty string exactly when it is all whitespace
      (JavaScript: `s.trim()` is falsy). */
  lemma TrimEmptyIff(s: string)
    ensures Trim(s) == [] <==> AllWhitespace(s)
  {
    var i, j := TrimIsSlice(s);
    if Trim(s) == [] {
      assert i == j;
      forall k | 0 <= k < |s| ensures IsWhitespace(s[k]) {
        assert k < i || j <= k;
      }
    } else {
      assert !IsWhitespace(s[i]);
    }
  }

  /** JavaScript `toLowerCase` on the ASCII letters; every other character
      is kept. */
  function LowerChar(c: char): (r: char)
    ensures 'A' <= c <= 'Z' ==> 'a' <= r <= 'z'
    ensures !('A' <= c <= 'Z') ==> r == c
    ensures !('A' <= r <= 'Z')
  {
    if 'A' <= c <= 'Z' then (c as int - 'A' as int + 'a' as int) as char else c
  }

  function Lower(s: string): (r: string)
    ensures |r| == |s| && forall i :: 0 <= i < |s| ==> r[i] == LowerChar(s[i])
  {
    seq(|s|, i requires 0 <= i < |s| => LowerChar(s[i]))
  }

  /** `s` contains no upper-case ASCII letter. */
  predicate IsLower(s: string) {
    forall i :: 0 <= i < |s| ==> !('A' <= s[i] <= 'Z')
  }

  /** Lowering gives a lower-case string and leaves a lower-case string
      alone, so it is idempotent. */
  lemma LowerFixedIff(s: string)
    ensures IsLower(Lower(s))
    ensures Lower(s) == s <==> IsLower(s)
  {
    if Lower(s) == s {
      forall i | 0 <= i < |s| ensures !('A' <= s[i] <= 'Z') {
        assert s[i] == Lower(s)[i];
      }
    }
  }

  /** Trimming a lower-case string leaves it lower-case. */
  lemma TrimKeepsLower(s: string)
    requires IsLower(s)
    ensures IsLower(Trim(s))
  {
    var i, j := TrimIsSlice(s);
    assert forall k :: 0 <= k < j - i ==> Trim(s)[k] == s[i + k];
  }

  /** Lowercasing and trimming commute: no whitespace character is a
      letter, so the same characters are stripped either way. */
  lemma LowerTrimCommute(s: string)
    ensures Trim(Lower(s)) == Lower(Trim(s))
  {
    LowerTrimStart(s);
    LowerTrimEnd(TrimStart(s));
  }

  lemma {:induction false} LowerTrimStart(s: string)
    ensures TrimStart(Lower(s)) == Lower(TrimStart(s))
    decreases |s|
  {
    if s != [] {
      LowerCharWhitespace(s[0]);
      LowerDrop(s);
      if IsWhitespace(s[0]) {
        LowerTrimStart(s[1..]);
      }
    }
  }

  lemma {:induction false} LowerTrimEnd(s: string)
    ensures TrimEnd(Lower(s)) == Lower(TrimEnd(s))
    decreases |s|
  {
    if s != [] {
      var n := |s| - 1;
      LowerCharWhitespace(s[n]);
      LowerTake(s, n);
      if IsWhitespace(s[n]) {
        LowerTrimEnd(s[..n]);
      }
    }
  }

  lemma LowerCharWhitespace(c: char)
    ensures IsWhitespace(LowerChar(c)) <==> IsWhitespace(c)
  {
  }

  lemma LowerDrop(s: string)
    requires s != []
    ensures Lower(s)[0] == LowerChar(s[0]) && Lower(s)[1..] == Lower(s[1..])
  {
  }

  lemma LowerTake(s: string, n: nat)
    requires n < |s|
    ensures Lower(s)[n] == LowerChar(s[n]) && Lower(s)[..n] == Lower(s[..n])
  {
  }

  /** `q` occurs in `s` starting at position `i`. */
  predicate OccursAt(s: string, q: string, i: int) {
    0 <= i <= |s| - |q| && q == s[i..i + |q|]
  }

  /** `q` is a substring of `s` (JavaScript `s.includes(q)`). */
  predicate Contains(s: string, q: string) {
    exists i :: 0 <= i <= |s| - |q| && OccursAt(s, q, i)
  }

  /** Case-insensitive containment, comparing the lower-cased forms. */
  predicate ContainsIgnoringCase(s: string, q: string) {
    Contains(Lower(s), Lower(q))
  }

  /** Every string contains the empty string and itself. */
  lemma ContainsTrivial(s: string)
    ensures Contains(s, []) && Contains(s, s)
  {
    assert OccursAt(s, [], 0);
    assert OccursAt(s, s, 0);
  }
}
