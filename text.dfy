/** Substring search, the `in` operator on Python strings. */
module Text {

  predicate IsPrefix(pattern: string, text: string) {
    |pattern| <= |text| && text[..|pattern|] == pattern
  }

  /** `pattern in text`, scanning the start positions left to right. */
  function Contains(text: string, pattern: string): (b: bool)
    ensures IsPrefix(pattern, text) ==> b
    ensures b ==> |pattern| <= |text|
    decreases |text|
  {
    IsPrefix(pattern, text) || (|text| > 0 && Contains(text[1..], pattern))
  }

  /** Reference definition: `pattern` occurs in `text` starting at index `i`. */
  ghost predicate OccursAt(text: string, pattern: string, i: int) {
    0 <= i && i + |pattern| <= |text| && text[i..i + |pattern|] == pattern
  }

  /** The scan finds the pattern exactly when it occurs at some index. */
  lemma {:induction false} ContainsIffOccurs(text: string, pattern: string)
    ensures Contains(text, pattern) <==> exists i :: OccursAt(text, pattern, i)
    decreases |text|
  {
    if IsPrefix(pattern, text) {
      assert OccursAt(text, pattern, 0);
    } else if |text| == 0 {
      assert |pattern| > 0;
    } else {
      var tail := text[1..];
      ContainsIffOccurs(tail, pattern);
      if exists i :: OccursAt(tail, pattern, i) {
        var i :| OccursAt(tail, pattern, i);
        assert text[i + 1..i + 1 + |pattern|] == tail[i..i + |pattern|];
        assert OccursAt(text, pattern, i + 1);
      }
      if exists i :: OccursAt(text, pattern, i) {
        var i :| OccursAt(text, pattern, i);
        assert i != 0;
        assert tail[i - 1..i - 1 + |pattern|] == text[i..i + |pattern|];
        assert OccursAt(tail, pattern, i - 1);
      }
    }
  }

  /** A pattern longer than the text never occurs in it. */
  lemma LongerPatternAbsent(text: string, pattern: string)
    requires |pattern| > |text|
    ensures !Contains(text, pattern)
  {
    ContainsIffOccurs(text, pattern);
  }
}
