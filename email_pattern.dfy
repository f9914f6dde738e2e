/** The email pattern of the User schema (models/User.ts:25),

      ^\w+([\.-]?\w+)*@\w+([\.-]?\w+)*(\.\w{2,3})+$

    written as a recogniser that follows the expression clause by clause:
    each `+` and `*` becomes a recursive predicate that tries every way of
    splitting its input, as a backtracking matcher does. The second half of
    the module gives a character-level description of the same language and
    proves the two agree. */
module EmailPattern {

  /** `\w`: an ASCII letter, a digit or the underscore. */
  predicate IsWordChar(c: char) {
    ('a' <= c <= 'z') || ('A' <= c <= 'Z') || ('0' <= c <= '9') || c == '_'
  }

  /** `[\.-]` */
  predicate IsSeparator(c: char) {
    c == '.' || c == '-'
  }

  /** `\w+` */
  predicate IsWordRun(s: string) {
    |s| >= 1 && forall i :: 0 <= i < |s| ==> IsWordChar(s[i])
  }

  /** `[\.-]?\w+` */
  predicate IsUnit(s: string) {
    IsWordRun(s) || (|s| >= 2 && IsSeparator(s[0]) && IsWordRun(s[1..]))
  }

  /** `([\.-]?\w+)*` */
  predicate MatchesUnits(s: string)
    decreases |s|
  {
    s == [] || exists k :: 1 <= k <= |s| && IsUnit(s[..k]) && MatchesUnits(s[k..])
  }

  /** `\w+([\.-]?\w+)*`, the shape of the local part and of the domain's
      leading labels. */
  predicate MatchesSegment(s: string) {
    exists k :: 1 <= k <= |s| && IsWordRun(s[..k]) && MatchesUnits(s[k..])
  }

  /** `\.\w{2,3}` */
  predicate IsTldGroup(s: string) {
    (|s| == 3 || |s| == 4) && s[0] == '.' && IsWordRun(s[1..])
  }

  /** `(\.\w{2,3})+` */
  predicate MatchesTldGroups(s: string)
    decreases |s|
  {
    exists k :: 3 <= k <= |s| && k <= 4 && IsTldGroup(s[..k]) && (k == |s| || MatchesTldGroups(s[k..]))
  }

  /** `\w+([\.-]?\w+)*(\.\w{2,3})+` */
  predicate MatchesDomain(s: string) {
    exists k :: 1 <= k <= |s| && MatchesSegment(s[..k]) && MatchesTldGroups(s[k..])
  }

  /** The whole anchored expression. */
  predicate MatchesEmail(s: string) {
    exists i :: 0 <= i < |s| && s[i] == '@' && MatchesSegment(s[..i]) && MatchesDomain(s[i + 1..])
  }

  // ---------------------------------------------------------------------
  // The same language, described character by character.

  /** Only word characters and separators, and every separator is
      immediately followed by a word character (so no two separators are
      adjacent and a non-empty string ends with a word character). */
  predicate UnitsShape(s: string) {
    && (forall i :: 0 <= i < |s| ==> IsWordChar(s[i]) || IsSeparator(s[i]))
    && (forall i :: 0 <= i < |s| && IsSeparator(s[i]) ==> i + 1 < |s| && IsWordChar(s[i + 1]))
  }

  /** A non-empty `UnitsShape` string that starts with a word character. */
  predicate SegmentShape(s: string) {
    |s| >= 1 && IsWordChar(s[0]) && UnitsShape(s)
  }

  /** `s` ends with a dot followed by two or three word characters. */
  predicate EndsWithTld(s: string) {
    || (|s| >= 3 && s[|s| - 3] == '.' && IsWordRun(s[|s| - 2..]))
    || (|s| >= 4 && s[|s| - 4] == '.' && IsWordRun(s[|s| - 3..]))
  }

  /** A segment whose last label is two or three characters after a dot. */
  predicate DomainShape(s: string) {
    SegmentShape(s) && EndsWithTld(s)
  }

  /** A segment, an `@`, and a domain. */
  predicate EmailShape(s: string) {
    exists i :: 0 <= i < |s| && s[i] == '@' && SegmentShape(s[..i]) && DomainShape(s[i + 1..])
  }

  // ---------------------------------------------------------------------
  // Facts about the shapes.

  lemma UnitsShapeConcat(a: string, b: string)
    requires UnitsShape(a) && UnitsShape(b)
    ensures UnitsShape(a + b)
  {
    var s := a + b;
    forall i | 0 <= i < |s| && IsSeparator(s[i]) ensures i + 1 < |s| && IsWordChar(s[i + 1]) {
      if i < |a| {
        assert a[i] == s[i];
        assert s[i + 1] == a[i + 1];
      } else {
        assert b[i - |a|] == s[i];
        assert s[i + 1] == b[i + 1 - |a|];
      }
    }
  }

  lemma UnitsShapeSuffix(s: string, k: nat)
    requires UnitsShape(s) && k <= |s|
    ensures UnitsShape(s[k..])
  {
    var t := s[k..];
    forall i | 0 <= i < |t| && IsSeparator(t[i]) ensures i + 1 < |t| && IsWordChar(t[i + 1]) {
      assert t[i] == s[k + i];
    }
  }

  /** A prefix ending just before a separator keeps the shape. */
  lemma UnitsShapePrefix(s: string, k: nat)
    requires UnitsShape(s) && k < |s| && IsSeparator(s[k])
    ensures UnitsShape(s[..k])
  {
    var p := s[..k];
    forall i | 0 <= i < |p| && IsSeparator(p[i]) ensures i + 1 < |p| && IsWordChar(p[i + 1]) {
      assert p[i] == s[i];
      if i + 1 == k {
        assert false;
      }
      assert p[i + 1] == s[i + 1];
    }
  }

  lemma WordRunShape(s: string)
    requires IsWordRun(s)
    ensures UnitsShape(s) && SegmentShape(s)
  {
  }

  lemma UnitShape(u: string)
    requires IsUnit(u)
    ensures UnitsShape(u)
  {
    if !IsWordRun(u) {
      assert forall j :: 1 <= j < |u| ==> u[j] == u[1..][j - 1];
    }
  }

  /** A single `\.\w{2,3}` group. */
  lemma TldGroupShape(g: string)
    requires IsTldGroup(g)
    ensures UnitsShape(g) && EndsWithTld(g)
  {
    assert forall j :: 1 <= j < |g| ==> g[j] == g[1..][j - 1];
    if |g| == 3 {
      assert g[|g| - 2..] == g[1..];
    } else {
      assert g[|g| - 3..] == g[1..];
    }
  }

  /** Putting anything in front keeps the ending. */
  lemma EndsWithTldConcat(a: string, b: string)
    requires EndsWithTld(b)
    ensures EndsWithTld(a + b)
  {
    var s := a + b;
    if |b| >= 3 && b[|b| - 3] == '.' && IsWordRun(b[|b| - 2..]) {
      assert s[|s| - 3] == b[|b| - 3];
      assert s[|s| - 2..] == b[|b| - 2..];
    } else {
      assert s[|s| - 4] == b[|b| - 4];
      assert s[|s| - 3..] == b[|b| - 3..];
    }
  }

  // ---------------------------------------------------------------------
  // The expression and the shapes describe the same strings.

  lemma {:induction false} UnitsMatchShape(s: string)
    ensures MatchesUnits(s) <==> UnitsShape(s)
    decreases |s|
  {
    if s == [] {
      return;
    }
    if MatchesUnits(s) {
      var k :| 1 <= k <= |s| && IsUnit(s[..k]) && MatchesUnits(s[k..]);
      UnitShape(s[..k]);
      UnitsMatchShape(s[k..]);
      UnitsShapeConcat(s[..k], s[k..]);
      assert s == s[..k] + s[k..];
    }
    if UnitsShape(s) {
      var k := if IsWordChar(s[0]) then 1 else 2;
      assert IsUnit(s[..k]) by {
        if k == 2 {
          assert s[..k][1..] == [s[1]];
        }
      }
      UnitsShapeSuffix(s, k);
      UnitsMatchShape(s[k..]);
    }
  }

  lemma SegmentMatchesShape(s: string)
    ensures MatchesSegment(s) <==> SegmentShape(s)
  {
    if MatchesSegment(s) {
      var k :| 1 <= k <= |s| && IsWordRun(s[..k]) && MatchesUnits(s[k..]);
      WordRunShape(s[..k]);
      UnitsMatchShape(s[k..]);
      UnitsShapeConcat(s[..k], s[k..]);
      assert s == s[..k] + s[k..];
      assert s[0] == s[..k][0];
    }
    if SegmentShape(s) {
      assert IsWordRun(s[..1]);
      UnitsShapeSuffix(s, 1);
      UnitsMatchShape(s[1..]);
    }
  }

  /** The shape of a run of `(\.\w{2,3})+`: it starts with a dot, has the
      units shape, and ends with a two- or three-character group. */
  predicate TldRunShape(s: string) {
    |s| >= 3 && s[0] == '.' && UnitsShape(s) && EndsWithTld(s)
  }

  /** What a run of `(\.\w{2,3})+` looks like. */
  lemma {:induction false} TldGroupsShape(s: string)
    requires MatchesTldGroups(s)
    ensures TldRunShape(s)
    decreases |s|
  {
    var k :| 3 <= k <= |s| && k <= 4 && IsTldGroup(s[..k]) && (k == |s| || MatchesTldGroups(s[k..]));
    if k == |s| {
      TldGroupShape(s[..k]);
      assert s[..k] == s;
    } else {
      TldGroupsShape(s[k..]);
      TldGroupThenShape(s, k);
    }
  }

  /** A group in front of a run of groups keeps the shape of a run. */
  lemma TldGroupThenShape(s: string, k: nat)
    requires k <= |s| && IsTldGroup(s[..k]) && TldRunShape(s[k..])
    ensures TldRunShape(s)
  {
    var g, rest := s[..k], s[k..];
    TldGroupShape(g);
    UnitsShapeConcat(g, rest);
    EndsWithTldConcat(g, rest);
    assert s == g + rest;
  }

  lemma DomainMatchesShape(s: string)
    ensures MatchesDomain(s) <==> DomainShape(s)
  {
    if MatchesDomain(s) {
      DomainMatchHasShape(s);
    }
    if DomainShape(s) {
      DomainShapeMatches(s);
    }
  }

  lemma DomainMatchHasShape(s: string)
    requires MatchesDomain(s)
    ensures DomainShape(s)
  {
    var k :| 1 <= k <= |s| && MatchesSegment(s[..k]) && MatchesTldGroups(s[k..]);
    SegmentMatchesShape(s[..k]);
    TldGroupsShape(s[k..]);
    DomainParts(s, k);
  }

  /** A segment followed by a run of groups is a domain. */
  lemma DomainParts(s: string, k: nat)
    requires k <= |s| && SegmentShape(s[..k]) && TldRunShape(s[k..])
    ensures DomainShape(s)
  {
    var d, g := s[..k], s[k..];
    UnitsShapeConcat(d, g);
    EndsWithTldConcat(d, g);
    assert s == d + g;
    assert s[0] == d[0];
  }

  /** A domain of the right shape splits before its last dot. */
  lemma DomainShapeMatches(s: string)
    requires DomainShape(s)
    ensures MatchesDomain(s)
  {
    var n := if s[|s| - 3] == '.' && IsWordRun(s[|s| - 2..]) then 2 else 3;
    var k := |s| - n - 1;
    assert s[k] == '.';
    assert k >= 1;
    var d, g := s[..k], s[k..];
    UnitsShapePrefix(s, k);
    assert d[0] == s[0];
    SegmentMatchesShape(d);
    assert g[1..] == s[|s| - n..];
    LastTldGroup(g);
    assert s[..k] == d && s[k..] == g;
  }

  /** A single dotted group is a run of groups. */
  lemma LastTldGroup(g: string)
    requires IsTldGroup(g)
    ensures MatchesTldGroups(g)
  {
    assert g[..|g|] == g;
  }

  /** The recogniser accepts exactly the strings of `EmailShape`. */
  lemma EmailMatchesShape(s: string)
    ensures MatchesEmail(s) <==> EmailShape(s)
  {
    if MatchesEmail(s) {
      var i :| 0 <= i < |s| && s[i] == '@' && MatchesSegment(s[..i]) && MatchesDomain(s[i + 1..]);
      SegmentMatchesShape(s[..i]);
      DomainMatchesShape(s[i + 1..]);
    }
    if EmailShape(s) {
      var i :| 0 <= i < |s| && s[i] == '@' && SegmentShape(s[..i]) && DomainShape(s[i + 1..]);
      SegmentMatchesShape(s[..i]);
      DomainMatchesShape(s[i + 1..]);
    }
  }

  /** An accepted address has exactly one `@`, and everything else in it is
      a word character, a dot or a hyphen. */
  lemma AcceptedHasOneAt(s: string, i: nat)
    requires MatchesEmail(s) && i < |s| && s[i] == '@'
    ensures forall j :: 0 <= j < |s| && j != i ==> IsWordChar(s[j]) || IsSeparator(s[j])
  {
    EmailMatchesShape(s);
    var a :| 0 <= a < |s| && s[a] == '@' && SegmentShape(s[..a]) && DomainShape(s[a + 1..]);
    forall j | 0 <= j < |s| && j != a ensures IsWordChar(s[j]) || IsSeparator(s[j]) {
      if j < a {
        assert s[j] == s[..a][j];
      } else {
        assert s[j] == s[a + 1..][j - a - 1];
      }
    }
  }

  /** A dotted local part and a `.com` ending are accepted. */
  lemma AcceptsDottedAddress()
    ensures MatchesEmail("jo.ann@mail.com")
  {
    var a := "jo.ann@mail.com";
    assert a[..6] == "jo.ann" && a[7..] == "mail.com";
    ExampleParts();
    EmailMatchesShape(a);
  }

  lemma ExampleParts()
    ensures SegmentShape("jo.ann") && DomainShape("mail.com")
  {
    var d := "mail.com";
    assert d[|d| - 4] == '.' && d[|d| - 3..] == "com";
  }

  /** The final group allows two or three characters only, so an address
      ending in `.info` is refused. */
  lemma RejectsFourLetterEnding()
    ensures !MatchesEmail("jane@example.info")
  {
    var a := "jane@example.info";
    var domain := a[5..];
    assert domain == "example.info";
    assert !EndsWithTld(domain);
    assert forall i :: 0 <= i < |a| && a[i] == '@' ==> i == 4;
    EmailMatchesShape(a);
  }
}
