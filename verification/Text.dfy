/** White space and UTF-8 length of text, as the standard library sees them. */
module Text {

  /** `unicode.IsSpace` */
  predicate IsSpace(c: char) {
    || '\t' <= c <= '\r' || c == ' ' || c == '\U{85}' || c == '\U{A0}' || c == '\U{1680}'
    || '\U{2000}' <= c <= '\U{200A}' || c == '\U{2028}' || c == '\U{2029}' || c == '\U{202F}'
    || c == '\U{205F}' || c == '\U{3000}'
  }

  /** `strings.TrimSpace` */
  function Trim(s: string): string
    decreases |s|
  {
    if s == [] then []
    else if IsSpace(s[0]) then Trim(s[1..])
    else if IsSpace(s[|s| - 1]) then Trim(s[..|s| - 1])
    else s
  }

  predicate AllSpace(s: string) { forall i :: 0 <= i < |s| ==> IsSpace(s[i]) }

  predicate Unpadded(s: string) { s == [] || (!IsSpace(s[0]) && !IsSpace(s[|s| - 1])) }

  /** `s` is its trimmed form between two pieces of white space. */
  predicate Frames(before: string, trimmed: string, after: string, s: string) {
    s == before + trimmed + after && AllSpace(before) && AllSpace(after)
  }

  lemma FramesGrow(before: string, trimmed: string, after: string, s: string, c: char)
    requires Frames(before, trimmed, after, s) && IsSpace(c)
    ensures Frames([c] + before, trimmed, after, [c] + s) && Frames(before, trimmed, after + [c], s + [c])
  {
    assert [c] + s == ([c] + before) + trimmed + after;
    assert s + [c] == before + trimmed + (after + [c]);
  }

  lemma UnpaddedStays(s: string)
    requires Unpadded(s)
    ensures Trim(s) == s && Frames([], s, [], s)
  {
    assert s == [] + s + [];
  }

  /** Trimming takes away white space at both ends and nothing else, until none is left. */
  lemma {:induction false} TrimMeaning(s: string) returns (before: string, after: string)
    ensures Frames(before, Trim(s), after, s) && Unpadded(Trim(s))
    decreases |s|
  {
    if Unpadded(s) {
      before, after := [], [];
      UnpaddedStays(s);
    } else if IsSpace(s[0]) {
      before, after := TrimMeaning(s[1..]);
      FramesGrow(before, Trim(s[1..]), after, s[1..], s[0]);
      before := [s[0]] + before;
      assert s == [s[0]] + s[1..];
    } else {
      var front, last := s[..|s| - 1], s[|s| - 1];
      before, after := TrimMeaning(front);
      FramesGrow(before, Trim(front), after, front, last);
      after := after + [last];
      assert s == front + [last];
    }
  }

  lemma TrimmedIff(s: string)
    ensures Trim(s) == s <==> Unpadded(s)
  {
    var before, after := TrimMeaning(s);
  }

  /** The number of bytes of a text in UTF-8. */
  function Utf8Length(s: string): nat {
    if s == [] then 0 else Utf8Length(s[..|s| - 1]) + CharLength(s[|s| - 1])
  }

  function CharLength(c: char): nat {
    if c < '\U{80}' then 1 else if c < '\U{800}' then 2 else if c < '\U{10000}' then 3 else 4
  }
}
