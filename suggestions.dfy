/**
 * A list of completions over a common range, how lists are combined, and
 * the builder that argument types and literals fill in.
 */
module Suggestions {
  import opened Wrappers
  import opened JavaText
  import opened TextRange
  import opened Suggestion
  import opened Sorting

  datatype Suggestions = Suggestions(range: TextRange, list: seq<Suggestion>)

  /** The shared empty result: no suggestions, range at(0). */
  const EMPTY: Suggestions := Suggestions(At(0), [])

  /** The smallest start, from `Integer.MAX_VALUE` as the loop in `create` begins. */
  function MinStart(ss: seq<Suggestion>): (m: int)
    ensures forall i :: 0 <= i < |ss| ==> m <= ss[i].range.start
    ensures m <= INT_MAX
    ensures m == INT_MAX || exists i :: 0 <= i < |ss| && ss[i].range.start == m
  {
    if |ss| == 0 then INT_MAX else Min(ss[|ss| - 1].range.start, MinStart(ss[..|ss| - 1]))
  }

  /** The largest end, from `Integer.MIN_VALUE` as the loop in `create` begins. */
  function MaxEnd(ss: seq<Suggestion>): (m: int)
    ensures forall i :: 0 <= i < |ss| ==> ss[i].range.end <= m
    ensures m >= INT_MIN
    ensures m == INT_MIN || exists i :: 0 <= i < |ss| && ss[i].range.end == m
  {
    if |ss| == 0 then INT_MIN else Max(ss[|ss| - 1].range.end, MaxEnd(ss[..|ss| - 1]))
  }

  function CommonRange(ss: seq<Suggestion>): TextRange
  {
    Between(MinStart(ss), MaxEnd(ss))
  }

  /** What `create` needs for every `expand` it performs not to throw. */
  predicate CanCreate(command: string, ss: seq<Suggestion>)
  {
    forall i :: 0 <= i < |ss| ==> CanExpand(ss[i], command, CommonRange(ss))
  }

  /** The order `compareToIgnoreCase` gives. */
  predicate IgnoreCaseLe(a: Suggestion, b: Suggestion)
  {
    CompareToIgnoreCase(a, b) <= 0
  }

  /** Only integer suggestions, or only plain ones. */
  predicate Uniform(s: seq<Suggestion>)
  {
    (forall x :: x in s ==> x.integer.Some?) || (forall x :: x in s ==> x.integer.None?)
  }

  /**
   * Among integer suggestions alone, `compareToIgnoreCase` orders by value;
   * among plain ones alone, by text ignoring case: either way a total,
   * transitive order.
   */
  lemma UniformPreorder(s: seq<Suggestion>)
    requires Uniform(s)
    ensures PreorderOn(s, IgnoreCaseLe)
    ensures (forall x :: x in s ==> x.integer.Some?) ==>
      forall a, b :: a in s && b in s ==> (IgnoreCaseLe(a, b) <==> a.integer.value <= b.integer.value)
  {
    if !(forall x :: x in s ==> x.integer.Some?) {
      forall a, b | a in s && b in s ensures IgnoreCaseLe(a, b) || IgnoreCaseLe(b, a) {
        CompareIgnoreCaseTotalPreorder(a.text, b.text, b.text);
      }
      forall a, b, c | a in s && b in s && c in s && IgnoreCaseLe(a, b) && IgnoreCaseLe(b, c)
        ensures IgnoreCaseLe(a, c)
      {
        CompareIgnoreCaseTotalPreorder(a.text, b.text, c.text);
      }
    }
  }

  /**
   * A list mixing the two kinds can have no order at all: 9 sorts before
   * 10 by value, 10 before the text "5" by text, and "5" before 9 by text.
   */
  lemma MixedNotTransitive()
    ensures var r := Between(0, 0);
      var nine, ten, five := Suggestion(r, "9", None, Some(9)), Suggestion(r, "10", None, Some(10)), Suggestion(r, "5", None, None);
      && IgnoreCaseLe(nine, ten) && IgnoreCaseLe(ten, five) && IgnoreCaseLe(five, nine)
      && !IgnoreCaseLe(ten, nine) && !IgnoreCaseLe(five, ten)
      && !PreorderOn([nine, ten, five], IgnoreCaseLe)
  {
    var r := Between(0, 0);
    var nine, ten, five := Suggestion(r, "9", None, Some(9)), Suggestion(r, "10", None, Some(10)), Suggestion(r, "5", None, None);
    assert JavaText.CompareTo("10", "5") < 0;
    assert JavaText.CompareTo("5", "10") > 0;
    assert ToLower("5") == "5" && ToLower("9") == "9" && ToLower("10") == "10";
    assert CompareIgnoreCase("5", "9") < 0;
    assert CompareIgnoreCase("5", "10") > 0;
  }

  predicate SortedIgnoreCase(s: seq<Suggestion>)
  {
    Sorted(s, IgnoreCaseLe)
  }

  /**
   * `List.sort(Suggestion::compareToIgnoreCase)`: a permutation, ordered
   * when the suggestions are all of one kind.
   */
  function SortIgnoreCase(s: seq<Suggestion>): (r: seq<Suggestion>)
    ensures multiset(r) == multiset(s)
    ensures Uniform(s) ==> SortedIgnoreCase(r)
  {
    if Uniform(s) then
      UniformPreorder(s);
      SortSorted(s, IgnoreCaseLe);
      Sort(s, IgnoreCaseLe)
    else Sort(s, IgnoreCaseLe)
  }

  /**
   * What `create` expands a suggestion to.  The range `create` expands to is
   * a new object, so as written (`byValue` false) it is never the
   * suggestion's own and every suggestion becomes a plain one; comparing
   * ranges by their ends (`byValue` true) keeps a suggestion already over
   * the range as it is.
   */
  function Expanded(s: Suggestion, command: string, range: TextRange, byValue: bool): Suggestion
    requires CanExpand(s, command, range)
  {
    Expand(s, command, range, byValue && s.range == range)
  }

  /**
   * `create`: EMPTY for no suggestions; otherwise every suggestion expanded
   * to the range from the smallest start to the largest end.  Expanded, all
   * are plain suggestions over that one range, so the set keeps one per text
   * and tooltip, and the list is sorted by text ignoring case.
   */
  method Create(command: string, suggestions: seq<Suggestion>) returns (r: Suggestions)
    requires CanCreate(command, suggestions)
    ensures |suggestions| == 0 ==> r == EMPTY
    ensures |suggestions| > 0 ==> r.range == CommonRange(suggestions)
    ensures forall x :: x in r.list <==> exists i :: 0 <= i < |suggestions| && x == Expand(suggestions[i], command, r.range, false)
    ensures forall x :: x in r.list ==> x.integer.None? && x.range == r.range
    ensures NoDuplicates(r.list) && SortedIgnoreCase(r.list)
  {
    if |suggestions| == 0 {
      return EMPTY;
    }
    var start, end := Bounds(suggestions);
    var range := Between(start, end);
    var texts := ExpandAll(command, suggestions, range, false);
    assert forall x :: x in texts ==> x.integer.None?;
    var sorted := SortIgnoreCase(texts);
    SameElements(sorted, texts);
    NoDuplicatesPermutation(sorted, texts);
    r := Suggestions(range, sorted);
  }

  /**
   * `create` with ranges compared by their ends: a suggestion already over
   * the common range is kept as it is, an `IntegerSuggestion` included, and
   * the list is sorted ignoring case when the suggestions are all of one kind.
   */
  method CreateCorrected(command: string, suggestions: seq<Suggestion>) returns (r: Suggestions)
    requires CanCreate(command, suggestions)
    ensures |suggestions| == 0 ==> r == EMPTY
    ensures |suggestions| > 0 ==> r.range == CommonRange(suggestions)
    ensures forall x :: x in r.list <==> exists i :: 0 <= i < |suggestions| && x == Expanded(suggestions[i], command, r.range, true)
    ensures NoDuplicates(r.list)
    ensures Uniform(r.list) ==> SortedIgnoreCase(r.list)
  {
    if |suggestions| == 0 {
      return EMPTY;
    }
    var start, end := Bounds(suggestions);
    var range := Between(start, end);
    var texts := ExpandAll(command, suggestions, range, true);
    var sorted := SortIgnoreCase(texts);
    SameElements(sorted, texts);
    NoDuplicatesPermutation(sorted, texts);
    r := Suggestions(range, sorted);
  }

  /** The first loop of `create`: the smallest start and the largest end. */
  method Bounds(suggestions: seq<Suggestion>) returns (start: int, end: int)
    ensures start == MinStart(suggestions) && end == MaxEnd(suggestions)
  {
    start, end := INT_MAX, INT_MIN;
    var i := 0;
    while i < |suggestions|
      invariant 0 <= i <= |suggestions|
      invariant start == MinStart(suggestions[..i]) && end == MaxEnd(suggestions[..i])
    {
      BoundsStep(suggestions, i);
      start := Min(suggestions[i].range.start, start);
      end := Max(suggestions[i].range.end, end);
      i := i + 1;
    }
    assert suggestions[..i] == suggestions;
  }

  lemma BoundsStep(ss: seq<Suggestion>, i: nat)
    requires i < |ss|
    ensures MinStart(ss[..i + 1]) == Min(ss[i].range.start, MinStart(ss[..i]))
    ensures MaxEnd(ss[..i + 1]) == Max(ss[i].range.end, MaxEnd(ss[..i]))
  {
    assert ss[..i + 1][..i] == ss[..i];
  }

  /**
   * The second loop of `create`: each suggestion expanded to `range`, first
   * occurrences only.  As written (`byValue` false) every one is a plain
   * suggestion, so an integer suggestion and a plain one of the same text
   * and tooltip become one entry.
   */
  method ExpandAll(command: string, suggestions: seq<Suggestion>, range: TextRange, byValue: bool) returns (texts: seq<Suggestion>)
    requires forall i :: 0 <= i < |suggestions| ==> CanExpand(suggestions[i], command, range)
    ensures NoDuplicates(texts)
    ensures forall x :: x in texts <==> exists k :: 0 <= k < |suggestions| && x == Expanded(suggestions[k], command, range, byValue)
    ensures !byValue ==> forall x :: x in texts ==> x.integer.None? && x.range == range
  {
    texts := [];
    var i := 0;
    while i < |suggestions|
      invariant 0 <= i <= |suggestions|
      invariant NoDuplicates(texts)
      invariant forall x :: x in texts <==> exists k :: 0 <= k < i && x == Expanded(suggestions[k], command, range, byValue)
    {
      var e := Expanded(suggestions[i], command, range, byValue);
      if e !in texts {
        texts := texts + [e];
      }
      i := i + 1;
    }
  }

  /**
   * `merge`: EMPTY for no lists, the one list unchanged for a single list,
   * else `create` over all the suggestions of all the lists, which makes
   * every one of them a plain suggestion.
   */
  method Merge(command: string, input: seq<Suggestions>) returns (r: Suggestions)
    requires |input| > 1 ==> CanCreate(command, AllSuggestions(input))
    ensures |input| == 0 ==> r == EMPTY
    ensures |input| == 1 ==> r == input[0]
    ensures |input| > 1 && |AllSuggestions(input)| == 0 ==> r == EMPTY
    ensures |input| > 1 && |AllSuggestions(input)| > 0 ==> r.range == CommonRange(AllSuggestions(input))
    ensures |input| > 1 ==> forall x :: x in r.list <==>
      (exists i :: 0 <= i < |AllSuggestions(input)| && x == Expand(AllSuggestions(input)[i], command, r.range, false))
    ensures |input| > 1 ==> NoDuplicates(r.list) && SortedIgnoreCase(r.list) && forall x :: x in r.list ==> x.integer.None?
  {
    if |input| == 0 {
      return EMPTY;
    }
    if |input| == 1 {
      return input[0];
    }
    r := Create(command, AllSuggestions(input));
  }

  /** The suggestions of every list, in order. */
  function AllSuggestions(input: seq<Suggestions>): (all: seq<Suggestion>)
    ensures forall i, x :: 0 <= i < |input| && x in input[i].list ==> x in all
  {
    if |input| == 0 then [] else input[0].list + AllSuggestions(input[1..])
  }

  /** Collects suggestions for the input from `start` on. */
  class Builder {
    const input: string
    const start: nat
    const remaining: string
    var result: seq<Suggestion>

    ghost predicate Valid()
      reads this
    {
      && start <= |input| <= INT_MAX
      && remaining == input[start..]
      && forall i :: 0 <= i < |result| ==>
           && result[i].range == Between(start, |input|) && result[i].tooltip.None?
           && (result[i].integer.Some? ==> result[i].text == IntToString(result[i].integer.value))
    }

    constructor (input: string, start: nat)
      requires start <= |input| <= INT_MAX
      ensures Valid() && this.input == input && this.start == start && result == []
    {
      this.input := input;
      this.start := start;
      this.remaining := input[start..];
      result := [];
    }

    /** Offers `text` for the rest of the input, unless it is exactly the rest of the input. */
    method Suggest(text: string)
      requires Valid()
      modifies this
      ensures Valid()
      ensures text == remaining ==> result == old(result)
      ensures text != remaining ==> result == old(result) + [Suggestion(Between(start, |input|), text, None, None)]
    {
      if text == remaining {
        return;
      }
      result := result + [Suggestion(Between(start, |input|), text, None, None)];
    }

    /** Offers `value` as an integer suggestion for the rest of the input, even when it is the rest of the input. */
    method SuggestInt(value: int)
      requires Valid()
      modifies this
      ensures Valid()
      ensures result == old(result) + [IntegerSuggestion(Between(start, |input|), value, None)]
    {
      result := result + [IntegerSuggestion(Between(start, |input|), value, None)];
    }

    /**
     * `build()`: `create` over the suggestions made.  They all cover the
     * builder's range, but `create` expands them to a new range object, so
     * what comes out is their plain forms, sorted by text ignoring case; an
     * integer suggestion keeps neither its value nor its order by value.
     */
    method Build() returns (r: Suggestions)
      requires Valid()
      ensures |result| > 0 ==> r.range == Between(start, |input|)
      ensures forall x :: x in r.list <==> exists y :: y in result && x == Plain(y)
      ensures forall x :: x in r.list ==> x.integer.None?
      ensures NoDuplicates(r.list) && SortedIgnoreCase(r.list)
    {
      BuilderRange(result, start, |input|);
      r := Create(input, result);
      if |result| > 0 {
        ExpandedPlain(result, input, r.range, r.list);
      }
    }

    /**
     * `build()` with ranges compared by their ends: the suggestions made,
     * each once, kept as they are; integer suggestions alone come out in
     * strictly ascending value.
     */
    method BuildCorrected() returns (r: Suggestions)
      requires Valid()
      ensures |result| > 0 ==> r.range == Between(start, |input|)
      ensures forall x :: x in r.list <==> x in result
      ensures NoDuplicates(r.list) && (Uniform(result) ==> SortedIgnoreCase(r.list))
      ensures (forall x :: x in result ==> x.integer.Some?) ==>
        forall i, j :: 0 <= i < j < |r.list| ==> r.list[i].integer.value < r.list[j].integer.value
    {
      BuilderRange(result, start, |input|);
      r := CreateCorrected(input, result);
      if |result| > 0 {
        ExpandedInPlace(result, input, r.range, r.list);
      }
      SameElementsUniform(r.list, result);
      if forall x :: x in result ==> x.integer.Some? {
        forall x | x in r.list
          ensures x.range == Between(start, |input|) && x.tooltip.None? && x.integer.Some?
          ensures x.text == IntToString(x.integer.value)
        {
          var i :| 0 <= i < |result| && result[i] == x;
        }
        ValuesAscending(r.list, Between(start, |input|));
      }
    }
  }

  /** Suggestions already over `range` are what the corrected `create` lists after expanding them to it. */
  lemma ExpandedInPlace(ss: seq<Suggestion>, command: string, range: TextRange, list: seq<Suggestion>)
    requires forall i :: 0 <= i < |ss| ==> ss[i].range == range
    requires forall x :: x in list <==> exists i :: 0 <= i < |ss| && x == Expanded(ss[i], command, range, true)
    ensures forall x :: x in list <==> x in ss
  {
    forall x ensures x in list <==> x in ss {
      if x in ss {
        var i :| 0 <= i < |ss| && ss[i] == x;
        assert x == Expanded(ss[i], command, range, true);
      }
    }
  }

  /** Suggestions already over `range` come out of `create` as written in their plain forms. */
  lemma ExpandedPlain(ss: seq<Suggestion>, command: string, range: TextRange, list: seq<Suggestion>)
    requires forall i :: 0 <= i < |ss| ==> ss[i].range == range
    requires forall x :: x in list <==> exists i :: 0 <= i < |ss| && x == Expand(ss[i], command, range, false)
    ensures forall x :: x in list <==> exists y :: y in ss && x == Plain(y)
  {
    forall x ensures x in list <==> exists y :: y in ss && x == Plain(y) {
      if x in list {
        var i :| 0 <= i < |ss| && x == Expand(ss[i], command, range, false);
        ExpandEqualRange(ss[i], command);
        assert ss[i] in ss;
      }
      if exists y :: y in ss && x == Plain(y) {
        var y :| y in ss && x == Plain(y);
        var i :| 0 <= i < |ss| && ss[i] == y;
        ExpandEqualRange(y, command);
        assert x == Expand(ss[i], command, range, false);
      }
    }
  }

  /**
   * As written, `builder.suggest(9).suggest(10).build()` lists "10" before
   * "9": the integer suggestions come out as plain ones, sorted by text.
   */
  method BuildNineTen() returns (texts: seq<string>, integers: seq<bool>)
    ensures texts == ["10", "9"] && integers == [false, false]
  {
    var builder := new Builder("", 0);
    builder.SuggestInt(9);
    builder.SuggestInt(10);
    var r := builder.Build();
    var range := Between(0, 0);
    assert IntToString(9) == "9" && IntToString(10) == "10";
    var nine, ten := Suggestion(range, "9", None, None), Suggestion(range, "10", None, None);
    assert builder.result == [IntegerSuggestion(range, 9, None), IntegerSuggestion(range, 10, None)];
    assert Plain(builder.result[0]) == nine && Plain(builder.result[1]) == ten;
    forall x ensures x in r.list <==> x == nine || x == ten {
      assert builder.result[0] in builder.result && builder.result[1] in builder.result;
    }
    TextOrderNineTen(r.list, range);
    texts := [r.list[0].text, r.list[1].text];
    integers := [r.list[0].integer.Some?, r.list[1].integer.Some?];
  }

  /** Comparing ranges by their ends, the same builder lists the values 9 and 10 in that order. */
  method BuildNineTenCorrected() returns (values: seq<int>)
    ensures values == [9, 10]
  {
    var builder := new Builder("", 0);
    builder.SuggestInt(9);
    builder.SuggestInt(10);
    var r := builder.BuildCorrected();
    var range := Between(0, 0);
    var nine, ten := IntegerSuggestion(range, 9, None), IntegerSuggestion(range, 10, None);
    assert builder.result == [nine, ten];
    TwoDistinct(r.list, nine, ten);
    values := [r.list[0].integer.value, r.list[1].integer.value];
  }

  /** The only list of the plain "9" and "10", each once, in `compareToIgnoreCase` order. */
  lemma TextOrderNineTen(list: seq<Suggestion>, range: TextRange)
    requires forall x :: x in list <==> x == Suggestion(range, "9", None, None) || x == Suggestion(range, "10", None, None)
    requires NoDuplicates(list) && SortedIgnoreCase(list)
    ensures list == [Suggestion(range, "10", None, None), Suggestion(range, "9", None, None)]
  {
    var nine, ten := Suggestion(range, "9", None, None), Suggestion(range, "10", None, None);
    TwoDistinct(list, nine, ten);
    assert ToLower("9") == "9" && ToLower("10") == "10";
    assert CompareIgnoreCase("9", "10") > 0;
    assert !IgnoreCaseLe(nine, ten);
    assert IgnoreCaseLe(list[0], list[1]);
  }

  /** Of three elements drawn from two values, two are equal. */
  lemma AmongTwo(list: seq<Suggestion>, a: Suggestion, b: Suggestion)
    requires forall x :: x in list ==> x == a || x == b
    ensures |list| > 2 ==> list[0] == list[1] || list[0] == list[2] || list[1] == list[2]
  {
    if |list| > 2 {
      assert list[0] in list && list[1] in list && list[2] in list;
    }
  }

  /** A list without duplicates holding exactly two distinct values has those two as its only elements. */
  lemma TwoDistinct(list: seq<Suggestion>, a: Suggestion, b: Suggestion)
    requires a != b
    requires forall x :: x in list <==> x == a || x == b
    requires NoDuplicates(list)
    ensures |list| == 2 && (list == [a, b] || list == [b, a])
  {
    assert a in list && b in list;
    AmongTwo(list, a, b);
    var i :| 0 <= i < |list| && list[i] == a;
    var j :| 0 <= j < |list| && list[j] == b;
  }

  /** Two lists with the same elements are of one kind together. */
  lemma SameElementsUniform(a: seq<Suggestion>, b: seq<Suggestion>)
    requires forall x :: x in a <==> x in b
    ensures Uniform(a) <==> Uniform(b)
  {
  }

  /**
   * Distinct integer suggestions over one range without tooltips, in
   * `compareToIgnoreCase` order, have strictly ascending values.
   */
  lemma ValuesAscending(list: seq<Suggestion>, range: TextRange)
    requires forall x :: x in list ==>
      x.range == range && x.tooltip.None? && x.integer.Some? && x.text == IntToString(x.integer.value)
    requires NoDuplicates(list) && SortedIgnoreCase(list)
    ensures forall i, j :: 0 <= i < j < |list| ==> list[i].integer.value < list[j].integer.value
  {
    forall i, j | 0 <= i < j < |list| ensures list[i].integer.value < list[j].integer.value {
      assert list[i] in list && list[j] in list;
    }
  }

  /** Suggestions that all cover one range expand to themselves in `create`. */
  lemma BuilderRange(ss: seq<Suggestion>, start: int, end: int)
    requires IsInt32(start) && IsInt32(end)
    requires forall i :: 0 <= i < |ss| ==> ss[i].range == Between(start, end)
    ensures |ss| > 0 ==> CommonRange(ss) == Between(start, end)
    ensures forall command :: CanCreate(command, ss)
  {
  }
}
