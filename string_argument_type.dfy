/**
 * The string argument type: its four reading modes, the quoting of
 * strings for display, and the completions a term argument offers.
 */
module StringArgumentType {
  import opened Wrappers
  import opened JavaText
  import opened Sorting
  import opened CommandSyntaxException
  import opened TextRange
  import opened Suggestion
  import Suggestions
  import opened TextReader

  datatype StringType = SingleWord | QuotablePhrase | GreedyPhrase | Term

  datatype StringArgumentType = StringArgumentType(options: seq<string>, stringType: StringType)

  /** The examples each string type documents. */
  function TypeExamples(t: StringType): seq<string>
  {
    match t
    case SingleWord => ["word", "words_with_underscores"]
    case QuotablePhrase => ["\"quoted phrase\"", "word", "\"\""]
    case GreedyPhrase => ["word", "words with spaces", "\"and symbols\""]
    case Term => ["predefined_token", "red", "green", "blue"]
  }

  /** `getExamples`: the options of a term, else the examples of the type. */
  function GetExamples(a: StringArgumentType): (r: seq<string>)
    ensures a.stringType == Term ==> r == a.options
    ensures a.stringType != Term ==> |r| > 0
  {
    if a.stringType != Term then TypeExamples(a.stringType) else a.options
  }

  predicate AllUnquoted(s: string)
  {
    forall i :: 0 <= i < |s| ==> IsAllowedInUnquotedText(s[i])
  }

  /** One character as `escape` writes it: a backslash before a backslash or a double quote. */
  function EscapedChar(c: char): (r: string)
    ensures r == [c] || r == [SYNTAX_ESCAPE, c]
  {
    if c == SYNTAX_ESCAPE || c == SYNTAX_DOUBLE_QUOTE then [SYNTAX_ESCAPE, c] else [c]
  }

  function EscapedBody(s: string): string
  {
    if |s| == 0 then "" else EscapedChar(s[0]) + EscapedBody(s[1..])
  }

  /** The input between double quotes, every backslash and double quote escaped. */
  function Escaped(s: string): (r: string)
    ensures |r| >= 2 && r[0] == SYNTAX_DOUBLE_QUOTE && r[|r| - 1] == SYNTAX_DOUBLE_QUOTE
  {
    [SYNTAX_DOUBLE_QUOTE] + EscapedBody(s) + [SYNTAX_DOUBLE_QUOTE]
  }

  lemma {:induction false} EscapedBodySnoc(s: string, c: char)
    ensures EscapedBody(s + [c]) == EscapedBody(s) + EscapedChar(c)
  {
    if |s| == 0 {
      assert s + [c] == [c];
    } else {
      assert (s + [c])[1..] == s[1..] + [c];
      EscapedBodySnoc(s[1..], c);
    }
  }

  /**
   * Reading an escaped body from any position of a text, up to its closing
   * double quote, gives back the original string.
   */
  lemma {:induction false} EscapedBodyReadsBack(s: string, t: string, i: nat, j: nat)
    requires i <= j < |t| && t[i..j] == EscapedBody(s) && t[j] == SYNTAX_DOUBLE_QUOTE
    ensures QuotedFrom(t, i, SYNTAX_DOUBLE_QUOTE) == Closed(s, j + 1)
    decreases |s|
  {
    if |s| == 0 {
      assert t[i] == SYNTAX_DOUBLE_QUOTE;
    } else {
      var c := s[0];
      var e := EscapedChar(c);
      WindowSplit(t, i, j, e, EscapedBody(s[1..]));
      var next := i + |e|;
      EscapedBodyReadsBack(s[1..], t, next, j);
      EscapedCharStep(t, i, c);
      ClosedCons(s, j + 1);
    }
  }

  /** An escaped character at `i` reads back as that character, and reading goes on after it. */
  lemma EscapedCharStep(t: string, i: nat, c: char)
    requires i + |EscapedChar(c)| <= |t| && t[i] == EscapedChar(c)[0]
    requires |EscapedChar(c)| > 1 ==> t[i + 1] == EscapedChar(c)[1]
    ensures QuotedFrom(t, i, SYNTAX_DOUBLE_QUOTE) == Prepend(c, QuotedFrom(t, i + |EscapedChar(c)|, SYNTAX_DOUBLE_QUOTE))
  {
    QuotedFromStep(t, i, SYNTAX_DOUBLE_QUOTE);
  }

  /** Putting back the first character of a read value. */
  lemma ClosedCons(s: string, end: nat)
    requires |s| > 0
    ensures Prepend(s[0], Closed(s[1..], end)) == Closed(s, end)
  {
    assert [s[0]] + s[1..] == s;
  }

  /** A window of `t` that holds `head + tail` holds `head` at its start and `tail` after it. */
  lemma WindowSplit(t: string, i: nat, j: nat, head: string, tail: string)
    requires i <= j <= |t| && t[i..j] == head + tail
    ensures i + |head| <= j && t[i + |head|..j] == tail
    ensures |head| > 0 ==> t[i] == head[0]
    ensures |head| > 1 ==> t[i + 1] == head[1]
  {
    var window := t[i..j];
    assert window[|head|..] == tail;
    if |head| > 0 {
      assert window[0] == head[0];
    }
    if |head| > 1 {
      assert window[1] == head[1];
    }
  }

  /** Round trip: reading `escape(s)` as quotable text yields s and consumes it all. */
  lemma EscapedReadsBack(s: string, rest: string)
    ensures TextAt(Escaped(s) + rest, 0) == Read(Success(s), |Escaped(s)|)
  {
    var t := Escaped(s) + rest;
    assert t[1..1 + |EscapedBody(s)|] == EscapedBody(s);
    assert t[1 + |EscapedBody(s)|] == SYNTAX_DOUBLE_QUOTE;
    EscapedBodyReadsBack(s, t, 1, 1 + |EscapedBody(s)|);
  }

  /** Escapes `input` with a loop over its characters. */
  method Escape(input: string) returns (r: string)
    ensures r == Escaped(input)
  {
    var body := "";
    var i := 0;
    while i < |input|
      invariant 0 <= i <= |input|
      invariant body == EscapedBody(input[..i])
    {
      var c := input[i];
      if c == SYNTAX_ESCAPE || c == SYNTAX_DOUBLE_QUOTE {
        body := body + [SYNTAX_ESCAPE];
      }
      body := body + [c];
      assert input[..i + 1] == input[..i] + [c];
      EscapedBodySnoc(input[..i], c);
      i := i + 1;
    }
    assert input[..i] == input;
    r := [SYNTAX_DOUBLE_QUOTE] + body + [SYNTAX_DOUBLE_QUOTE];
  }

  /** The input unchanged when every character may appear unquoted, else escaped. */
  method EscapeIfRequired(input: string) returns (r: string)
    ensures AllUnquoted(input) ==> r == input
    ensures !AllUnquoted(input) ==> r == Escaped(input)
  {
    var i := 0;
    while i < |input|
      invariant 0 <= i <= |input|
      invariant forall k :: 0 <= k < i ==> IsAllowedInUnquotedText(input[k])
    {
      if !IsAllowedInUnquotedText(input[i]) {
        r := Escape(input);
        return;
      }
      i := i + 1;
    }
    r := input;
  }

  /**
   * Round trip: what `escapeIfRequired` produces reads back, as quotable
   * text, to the original string, when it is followed by the end of the
   * input or by the argument separator.
   */
  lemma EscapeIfRequiredReadsBack(s: string, rest: string)
    requires rest == "" || rest[0] == ' '
    ensures AllUnquoted(s) ==> TextAt(s + rest, 0) == Read(Success(s), |s|)
    ensures !AllUnquoted(s) ==> TextAt(Escaped(s) + rest, 0) == Read(Success(s), |Escaped(s)|)
  {
    if AllUnquoted(s) {
      var t := s + rest;
      if |s| > 0 {
        assert IsAllowedInUnquotedText(t[0]);
        assert !IsQuotedTextStart(t[0]);
      }
      UnquotedRun(t, |s|);
      assert t[..|s|] == s;
    } else {
      EscapedReadsBack(s, rest);
    }
  }

  lemma UnquotedRun(t: string, n: nat)
    requires n <= |t|
    requires forall k :: 0 <= k < n ==> IsAllowedInUnquotedText(t[k])
    requires n == |t| || !IsAllowedInUnquotedText(t[n])
    ensures UnquotedAt(t, 0).cursor == n
  {
  }

  /**
   * `parse` from position `at`: a greedy phrase takes the rest of the
   * input; a single word is an unquoted word; a term is an unquoted word
   * that must be one of the options; a quotable phrase is `readText`.
   */
  function ParseAt(a: StringArgumentType, s: string, at: nat): (r: Read<string>)
    requires at <= |s|
    ensures a.stringType == GreedyPhrase ==> r == Read(Success(s[at..]), |s|)
    ensures a.stringType == SingleWord ==> r == UnquotedAt(s, at)
    ensures a.stringType == QuotablePhrase ==> r == TextAt(s, at)
    ensures a.stringType == Term && r.result.Success? ==> r == UnquotedAt(s, at) && r.result.value in a.options
    ensures a.stringType == Term && r.result.Failure? ==>
      var word := UnquotedAt(s, at);
      word.result.value !in a.options && r == Read(Failure(WithContext(TermInvalid(word.result.value), s, word.cursor)), word.cursor)
  {
    match a.stringType
    case GreedyPhrase => Read(Success(s[at..]), |s|)
    case SingleWord => UnquotedAt(s, at)
    case Term =>
      var word := UnquotedAt(s, at);
      if word.result.value in a.options then word
      else Read(Failure(WithContext(TermInvalid(word.result.value), s, word.cursor)), word.cursor)
    case QuotablePhrase => TextAt(s, at)
  }

  method Parse(a: StringArgumentType, reader: TextReader) returns (r: Result<string, SyntaxException>)
    requires reader.Valid()
    modifies reader
    ensures reader.Valid() && Read(r, reader.cursor) == ParseAt(a, reader.text, old(reader.cursor))
  {
    match a.stringType {
      case GreedyPhrase =>
        var text := reader.GetRemaining();
        reader.SetCursor(|reader.text|);
        r := Success(text);
      case SingleWord =>
        var word := reader.ReadUnquotedText();
        r := Success(word);
      case Term =>
        var term := reader.ReadUnquotedText();
        if term !in a.options {
          return Failure(WithContext(TermInvalid(term), reader.text, reader.cursor));
        }
        r := Success(term);
      case QuotablePhrase =>
        r := reader.ReadText();
    }
  }

  /** The natural order of strings. */
  predicate StringLe(a: string, b: string) { JavaText.CompareTo(a, b) <= 0 }

  lemma StringLePreorder()
    ensures Total(StringLe) && Transitive(StringLe)
  {
    forall a, b ensures StringLe(a, b) || StringLe(b, a) {
      CompareToAntisymmetric(a, b);
    }
    forall a, b, c | StringLe(a, b) && StringLe(b, c) ensures StringLe(a, c) {
      CompareToTransitive(a, b, c);
    }
  }

  function Matching(options: seq<string>, remaining: string): (r: seq<string>)
    ensures forall o :: o in r <==> o in options && StartsWith(ToLower(o), ToLower(remaining))
  {
    if |options| == 0 then []
    else
      var head := if StartsWith(ToLower(options[0]), ToLower(remaining)) then [options[0]] else [];
      head + Matching(options[1..], remaining)
  }

  /** The options a term offers: those starting with the remaining input, ignoring case, in order. */
  function TermCompletions(options: seq<string>, remaining: string): (r: seq<string>)
    ensures Sorted(r, StringLe)
    ensures multiset(r) == multiset(Matching(options, remaining))
    ensures forall o :: o in r <==> o in options && StartsWith(ToLower(o), ToLower(remaining))
  {
    StringLePreorder();
    var m := Matching(options, remaining);
    PreorderEverywhere(m, StringLe);
    SortSorted(m, StringLe);
    var sorted := Sort(m, StringLe);
    SameElements(sorted, m);
    sorted
  }

  /** The suggestions `Builder.suggest` adds for a list of texts, in order. */
  function Offered(texts: seq<string>, remaining: string, range: TextRange): (r: seq<Suggestion>)
    ensures forall x :: x in r <==> x.range == range && x.tooltip == None && x.integer == None && x.text in texts && x.text != remaining
  {
    if |texts| == 0 then []
    else
      var head := if texts[0] == remaining then [] else [Suggestion(range, texts[0], None, None)];
      head + Offered(texts[1..], remaining, range)
  }

  /**
   * `suggestions`: nothing for the non-term types; a term offers, in
   * order, each option that extends the remaining input ignoring case.
   */
  method ListSuggestions(a: StringArgumentType, builder: Suggestions.Builder) returns (r: Suggestions.Suggestions)
    requires builder.Valid()
    modifies builder
    ensures builder.Valid()
    ensures a.stringType != Term ==> r == Suggestions.EMPTY && builder.result == old(builder.result)
    ensures a.stringType == Term ==> (builder.result == old(builder.result)
      + Offered(TermCompletions(a.options, builder.remaining), builder.remaining, Between(builder.start, |builder.input|)))
    ensures a.stringType == Term ==> forall x :: x in r.list <==> exists y :: y in builder.result && x == Plain(y)
  {
    if a.stringType != Term {
      return Suggestions.EMPTY;
    }
    SuggestAll(builder, TermCompletions(a.options, builder.remaining));
    r := builder.Build();
  }

  /** Passes each text to `Builder.suggest`, in order. */
  method SuggestAll(builder: Suggestions.Builder, texts: seq<string>)
    requires builder.Valid()
    modifies builder
    ensures builder.Valid()
    ensures builder.result == old(builder.result) + Offered(texts, builder.remaining, Between(builder.start, |builder.input|))
  {
    var remaining := builder.remaining;
    var range := Between(builder.start, |builder.input|);
    var i := 0;
    while i < |texts|
      invariant 0 <= i <= |texts|
      invariant builder.Valid()
      invariant builder.result == old(builder.result) + Offered(texts[..i], remaining, range)
    {
      OfferedSnoc(texts[..i], texts[i], remaining, range);
      assert texts[..i + 1] == texts[..i] + [texts[i]];
      var offered := Offered(texts[..i], remaining, range);
      var added: seq<Suggestion> := if texts[i] == remaining then [] else [Suggestion(range, texts[i], None, None)];
      AppendAssoc(old(builder.result), offered, added);
      builder.Suggest(texts[i]);
      i := i + 1;
    }
    assert texts[..i] == texts;
  }

  lemma AppendAssoc(a: seq<Suggestion>, b: seq<Suggestion>, c: seq<Suggestion>)
    ensures a + (b + c) == (a + b) + c && b + [] == b
  {
  }

  lemma {:induction false} OfferedSnoc(texts: seq<string>, t: string, remaining: string, range: TextRange)
    ensures Offered(texts + [t], remaining, range)
      == Offered(texts, remaining, range) + (if t == remaining then [] else [Suggestion(range, t, None, None)])
  {
    if |texts| == 0 {
      assert [t][1..] == [];
    } else {
      assert (texts + [t])[1..] == texts[1..] + [t];
      OfferedSnoc(texts[1..], t, remaining, range);
    }
  }

  /** `toString`: "string()" for the non-term types, else the options listed. */
  function ToString(a: StringArgumentType): (r: string)
    ensures a.stringType != Term ==> r == "string()"
    ensures a.stringType == Term ==>
      && |r| >= 8 && StartsWith(r, "term([") && r[|r| - 2..] == "])"
      && r[6..|r| - 2] == Join(a.options, ", ")
  {
    if a.stringType != Term then "string()" else "term([" + Join(a.options, ", ") + "])"
  }
}
