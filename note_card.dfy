/** The content preview of a note card (components/note-card.tsx):
    content longer than the limit is cut and marked with an ellipsis. */
module NoteCard {

  /** The limit the card passes by default. */
  const DefaultPreviewLength: int := 150

  const Ellipsis := "..."

  function Max(a: int, b: int): int { if a >= b then a else b }
  function Min(a: int, b: int): int { if a <= b then a else b }

  /** `s.substring(0, end)`: JavaScript clamps `end` into `0..s.length`. */
  function PrefixTo(s: string, end: int): (r: string)
    ensures |r| == Min(Max(end, 0), |s|)
    ensures r == s[..|r|]
  {
    s[..Min(Max(end, 0), |s|)]
  }

  /** `truncateContent(content, maxLength)`. The limit may be any integer;
      a negative one gives just the ellipsis for any content. */
  function Truncate(content: string, maxLength: int): (r: string)
    ensures |content| <= maxLength ==> r == content
    ensures |content| > maxLength ==> r == content[..Max(maxLength, 0)] + Ellipsis
    ensures |r| <= Max(maxLength, 0) + |Ellipsis|
    ensures var k := Min(|content|, Max(maxLength, 0)); |r| >= k && r[..k] == content[..k]
  {
    if |content| <= maxLength then content
    else PrefixTo(content, maxLength) + Ellipsis
  }

  /** Truncating a preview again changes nothing. */
  lemma TruncateIdempotent(content: string, maxLength: int)
    ensures Truncate(Truncate(content, maxLength), maxLength) == Truncate(content, maxLength)
  {
    var r := Truncate(content, maxLength);
    if |content| > maxLength {
      var m := Max(maxLength, 0);
      assert r[..m] == content[..m];
    }
  }

  /** Content over the limit always comes out at the full limit followed by
      the ellipsis. */
  lemma TruncatedShape(content: string, maxLength: int)
    requires |content| > maxLength
    ensures var r := Truncate(content, maxLength);
      |r| == Max(maxLength, 0) + 3 && r[|r| - 3..] == Ellipsis
  {
    var r := Truncate(content, maxLength);
    var m := Max(maxLength, 0);
    assert r[m..] == Ellipsis;
  }

  /** The card's preview, with the default limit. */
  function Preview(content: string): (r: string)
    ensures |r| <= 153
    ensures |content| <= 150 ==> r == content
    ensures |content| > 150 ==> r == content[..150] + Ellipsis
  {
    Truncate(content, DefaultPreviewLength)
  }
}
