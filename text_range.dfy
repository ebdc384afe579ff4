/** A half-open range [start, end) of positions in a command string. */
module TextRange {
  datatype TextRange = TextRange(start: int, end: int)

  predicate IsEmpty(r: TextRange) { r.start == r.end }

  /** A range of width zero at `position`. */
  function At(position: int): (r: TextRange)
    ensures r.start == position && r.end == position
    ensures IsEmpty(r)
  {
    TextRange(position, position)
  }

  function Between(start: int, end: int): (r: TextRange)
    ensures r.start == start && r.end == end
    ensures IsEmpty(r) <==> start == end
  {
    TextRange(start, end)
  }

  function Min(a: int, b: int): int { if a <= b then a else b }
  function Max(a: int, b: int): int { if a >= b then a else b }

  /** The smallest range from the leftmost start to the rightmost end of `a` and `b`. */
  function Encompassing(a: TextRange, b: TextRange): (r: TextRange)
    ensures r.start <= a.start && r.start <= b.start && (r.start == a.start || r.start == b.start)
    ensures r.end >= a.end && r.end >= b.end && (r.end == a.end || r.end == b.end)
  {
    TextRange(Min(a.start, b.start), Max(a.end, b.end))
  }

  /** `isEmpty()`: the range is empty exactly when it is the range `at` its start, and when it selects no text. */
  lemma IsEmptyIff(r: TextRange, text: string)
    requires 0 <= r.start <= r.end <= |text|
    ensures IsEmpty(r) <==> r == At(r.start)
    ensures IsEmpty(r) <==> Get(r, text) == ""
  {
    if Get(r, text) == "" {
      assert |Get(r, text)| == r.end - r.start;
    }
  }

  lemma EncompassingCommutative(a: TextRange, b: TextRange)
    ensures Encompassing(a, b) == Encompassing(b, a)
  {
  }

  lemma EncompassingAssociative(a: TextRange, b: TextRange, c: TextRange)
    ensures Encompassing(Encompassing(a, b), c) == Encompassing(a, Encompassing(b, c))
  {
  }

  lemma EncompassingSelf(a: TextRange)
    ensures Encompassing(a, a) == a
  {
  }

  /** `text.substring(start, end)`. */
  function Get(r: TextRange, text: string): (s: string)
    requires 0 <= r.start <= r.end <= |text|
    ensures |s| == r.end - r.start
    ensures forall k :: 0 <= k < |s| ==> s[k] == text[r.start + k]
  {
    text[r.start..r.end]
  }
}
