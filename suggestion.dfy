/** One completion: a replacement text for a range of the input, with an optional tooltip. */
module Suggestion {
  import opened Wrappers
  import opened JavaText
  import opened TextRange

  /**
   * A suggestion.  `integer` is the value of an `IntegerSuggestion`, whose
   * text is that value in decimal; it is None for a plain `Suggestion`.
   */
  datatype Suggestion = Suggestion(range: TextRange, text: string, tooltip: Option<string>, integer: Option<int>)

  /** `new IntegerSuggestion(range, value, tooltip)`. */
  function IntegerSuggestion(range: TextRange, value: int, tooltip: Option<string>): (r: Suggestion)
    ensures r.range == range && r.tooltip == tooltip && r.integer == Some(value)
    ensures r.text == IntToString(value)
  {
    Suggestion(range, IntToString(value), tooltip, Some(value))
  }

  /** What `apply` needs of the range for its substring calls not to throw. */
  predicate CanApply(s: Suggestion, input: string)
  {
    0 <= s.range.start <= |input| && 0 <= s.range.end
  }

  /**
   * The input with the range replaced by the suggestion's text: just the
   * text when the range is the whole input; otherwise the input before the
   * start, the text, and the input from the end on (when it is inside).
   */
  function Apply(s: Suggestion, input: string): (r: string)
    requires CanApply(s, input)
    ensures s.range.start == 0 && s.range.end == |input| ==> r == s.text
    ensures |r| == s.range.start + |s.text| + (if s.range.end < |input| then |input| - s.range.end else 0)
    ensures r[..s.range.start] == input[..s.range.start]
    ensures r[s.range.start..s.range.start + |s.text|] == s.text
    ensures s.range.end < |input| ==> r[s.range.start + |s.text|..] == input[s.range.end..]
  {
    if s.range.start == 0 && s.range.end == |input| then s.text
    else
      var prefix := if s.range.start > 0 then input[..s.range.start] else "";
      var suffix := if s.range.end < |input| then input[s.range.end..] else "";
      prefix + s.text + suffix
  }

  /** For a range inside the input, `apply` is the plain splice. */
  lemma ApplySplice(s: Suggestion, input: string)
    requires 0 <= s.range.start <= s.range.end <= |input|
    ensures Apply(s, input) == input[..s.range.start] + s.text + input[s.range.end..]
  {
    var r := Apply(s, input);
    var splice := input[..s.range.start] + s.text + input[s.range.end..];
    if s.range.start == 0 && s.range.end == |input| {
      assert input[..0] == "" && input[|input|..] == "";
      assert splice == s.text;
    } else {
      assert r == splice;
    }
  }

  /**
   * `compareTo`: two integer suggestions by their values, as
   * `IntegerSuggestion.compareTo` does; any other pair by text, as
   * `String.compareTo`.
   */
  function CompareTo(a: Suggestion, b: Suggestion): (r: int)
    ensures a.integer.Some? && b.integer.Some? ==>
      (r == 0 <==> a.integer == b.integer) && (r < 0 <==> a.integer.value < b.integer.value)
    ensures a.integer.None? || b.integer.None? ==>
      (r == 0 <==> a.text == b.text) && (r < 0 <==> JavaText.CompareTo(a.text, b.text) < 0)
  {
    if a.integer.Some? && b.integer.Some? then CompareInt(a.integer.value, b.integer.value)
    else
      CompareToZeroIff(a.text, b.text);
      JavaText.CompareTo(a.text, b.text)
  }

  /**
   * `compareToIgnoreCase`: an integer suggestion compares as its
   * `compareTo` does (by value against another integer suggestion, by
   * text with case otherwise); a plain one by text, ignoring the case of
   * ASCII letters.
   */
  function CompareToIgnoreCase(a: Suggestion, b: Suggestion): (r: int)
    ensures a.integer.Some? && b.integer.Some? ==>
      (r == 0 <==> a.integer == b.integer) && (r < 0 <==> a.integer.value < b.integer.value)
    ensures a.integer.Some? && b.integer.None? ==>
      (r == 0 <==> a.text == b.text) && (r < 0 <==> JavaText.CompareTo(a.text, b.text) < 0)
    ensures a.integer.None? ==>
      (r == 0 <==> ToLower(a.text) == ToLower(b.text)) && (r < 0 <==> JavaText.CompareTo(ToLower(a.text), ToLower(b.text)) < 0)
  {
    if a.integer.Some? then CompareTo(a, b)
    else
      CompareToZeroIff(ToLower(a.text), ToLower(b.text));
      CompareIgnoreCase(a.text, b.text)
  }

  /** What `expand` needs of the two ranges for its substring calls not to throw. */
  predicate CanExpand(s: Suggestion, command: string, range: TextRange)
  {
    && (range.start < s.range.start ==> 0 <= range.start && s.range.start <= |command|)
    && (range.end > s.range.end ==> 0 <= s.range.end && range.end <= |command|)
  }

  /**
   * `expand`: the suggestion widened to `range`, that is the command text
   * between the new and the old start, the text, then the command text
   * between the old and the new end, with the tooltip kept.  `TextRange`
   * does not override `equals`, so the test at the top of `expand` is one of
   * identity: `sameObject` says whether `range` is the very object the
   * suggestion holds.  Only then is the suggestion itself returned; any other
   * range, even one with the same ends, gives a new plain `Suggestion`, so an
   * `IntegerSuggestion` loses its value.
   */
  function Expand(s: Suggestion, command: string, range: TextRange, sameObject: bool): (r: Suggestion)
    requires sameObject ==> range == s.range
    requires CanExpand(s, command, range)
    ensures r.range == range && r.tooltip == s.tooltip
    ensures sameObject ==> r == s
    ensures !sameObject ==> r.integer.None?
    ensures |r.text| == (if range.start < s.range.start then s.range.start - range.start else 0) + |s.text|
      + (if range.end > s.range.end then range.end - s.range.end else 0)
    ensures range.start < s.range.start ==> r.text[..s.range.start - range.start] == command[range.start..s.range.start]
    ensures var left := if range.start < s.range.start then s.range.start - range.start else 0;
      && r.text[left..left + |s.text|] == s.text
      && (range.end > s.range.end ==> r.text[left + |s.text|..] == command[s.range.end..range.end])
    ensures range.start >= s.range.start && range.end <= s.range.end ==> r.text == s.text
  {
    if sameObject then s
    else
      var left := if range.start < s.range.start then command[range.start..s.range.start] else "";
      var right := if range.end > s.range.end then command[s.range.end..range.end] else "";
      Suggestion(range, left + s.text + right, s.tooltip, None)
  }

  /** The suggestion as a plain `Suggestion`: an `IntegerSuggestion` without its value. */
  function Plain(s: Suggestion): Suggestion
  {
    s.(integer := None)
  }

  /** Expanding to an equal range object that is not the suggestion's own gives its plain form. */
  lemma ExpandEqualRange(s: Suggestion, command: string)
    ensures CanExpand(s, command, s.range)
    ensures Expand(s, command, s.range, false) == Plain(s)
  {
  }

  /**
   * Widening a suggestion to a larger range of the same command does not
   * change what applying it produces.
   */
  lemma ExpandPreservesApply(s: Suggestion, command: string, range: TextRange, sameObject: bool)
    requires sameObject ==> range == s.range
    requires 0 <= range.start <= s.range.start <= s.range.end <= range.end <= |command|
    ensures CanExpand(s, command, range)
    ensures Apply(Expand(s, command, range, sameObject), command) == Apply(s, command)
  {
    ApplySplice(s, command);
    if !sameObject {
      var e := Expand(s, command, range, sameObject);
      ApplySplice(e, command);
      var left, right := command[range.start..s.range.start], command[s.range.end..range.end];
      assert e.text == left + s.text + right;
      SliceJoin(command, range.start, s.range.start);
      SliceJoin(command, s.range.end, range.end);
      SpliceWiden(command[..range.start], left, s.text, right, command[range.end..]);
    }
  }

  /** Cutting a string at two points. */
  lemma SliceJoin(s: string, i: nat, j: nat)
    requires i <= j <= |s|
    ensures s[..i] + s[i..j] == s[..j]
    ensures s[i..j] + s[j..] == s[i..]
  {
  }

  /** Moving the pieces next to a replacement into the replacement. */
  lemma SpliceWiden(before: string, left: string, text: string, right: string, after: string)
    ensures before + (left + text + right) + after == (before + left) + text + (right + after)
  {
  }
}
