/**
 * `LiteralNode`: a command node matched by one fixed word, kept in lower
 * case.  It matches when the input holds the word followed by a space or
 * the end; a default literal also matches when no input is left.
 */
module LiteralNode {
  import opened Wrappers
  import opened JavaText
  import opened TextRange
  import opened CommandSyntaxException
  import Reader = TextReader
  import N = CommandNodeEnvelope
  import B = CommandContextBuilder
  import S = Suggestions
  import Suggestion

  /** The constructor's `literal.toLowerCase(Locale.ROOT)`, with the aliases. */
  function LiteralKind(literal: string, aliases: seq<N.NodeId>): (k: N.Kind)
    ensures k.Literal? && |k.literal| == |literal| && k.aliases == aliases
    ensures ToLower(k.literal) == k.literal
  {
    var lower := ToLower(literal);
    assert ToLower(lower) == lower;
    N.Literal(lower, aliases)
  }

  /** Whether `text` continues at `end` with a space or ends there. */
  predicate EndsWord(text: string, end: nat)
  {
    end == |text| || (end < |text| && text[end] == ' ')
  }

  /**
   * The private `parse(reader)`: the end of the literal when the input at
   * `cursor` is the literal followed by a space or the end; the cursor
   * itself for a default node when no input is left; else `-1`, here
   * `None`.
   */
  function MatchEnd(literal: string, defaultNode: bool, text: string, cursor: nat): (r: Option<nat>)
    requires cursor <= |text|
    ensures r.Some? ==> r.value <= |text| && EndsWord(text, r.value)
    ensures r.Some? && cursor + |literal| <= |text| ==> r.value == cursor + |literal| && text[cursor..r.value] == literal
    ensures r.Some? && cursor + |literal| > |text| ==> r.value == cursor == |text| && defaultNode
  {
    if cursor + |literal| <= |text| then
      var end := cursor + |literal|;
      if text[cursor..end] == literal && EndsWord(text, end) then Some(end) else None
    else if cursor == |text| && defaultNode then Some(cursor)
    else None
  }

  /** The literal followed by a space or the end is always matched, whether or not the node is a default. */
  lemma MatchEndAccepts(literal: string, defaultNode: bool, text: string, cursor: nat)
    requires cursor + |literal| <= |text| && text[cursor..cursor + |literal|] == literal && EndsWord(text, cursor + |literal|)
    ensures MatchEnd(literal, defaultNode, text, cursor) == Some(cursor + |literal|)
  {
  }

  /** `isValidInput(input)`: the literal matches at the start of `input`. */
  predicate IsValidInput(literal: string, defaultNode: bool, input: string)
  {
    MatchEnd(literal, defaultNode, input, 0).Some?
  }

  /** A literal is valid input for itself, alone or followed by more words. */
  lemma LiteralIsValidInput(literal: string, defaultNode: bool, rest: string)
    ensures IsValidInput(literal, defaultNode, literal)
    ensures IsValidInput(literal, defaultNode, literal + " " + rest)
  {
    var text := literal + " " + rest;
    assert text[0..|literal|] == literal;
    assert text[|literal|] == ' ';
  }

  /**
   * Matching is exact while the literal is kept in lower case: input with
   * an upper-case letter where the literal stands is never matched.
   */
  lemma UpperCaseNeverMatches(literal: string, aliases: seq<N.NodeId>, defaultNode: bool, text: string, cursor: nat, k: nat)
    requires cursor <= |text| && k < |literal| && cursor + k < |text| && IsAsciiUpper(text[cursor + k])
    ensures MatchEnd(LiteralKind(literal, aliases).literal, defaultNode, text, cursor).None?
  {
    var lit := LiteralKind(literal, aliases).literal;
    assert lit[k] == LowerChar(literal[k]);
    if cursor + |lit| <= |text| {
      assert text[cursor..cursor + |lit|][k] == text[cursor + k];
    }
  }

  /**
   * `parse(reader, builder)` on values: on a match the node is added to the
   * builder with the range it matched and reading goes on from its end;
   * otherwise `LITERAL_INCORRECT` at the cursor.
   */
  function ParseInto(id: N.NodeId, n: N.Node, text: string, cursor: nat, b: B.BuilderState)
    : (r: Result<(B.BuilderState, nat), SyntaxException>)
    requires n.kind.Literal? && cursor <= |text|
    ensures r.Success? <==> MatchEnd(n.kind.literal, n.defaultNode, text, cursor).Some?
    ensures r.Success? ==>
      cursor <= r.value.1 <= |text| && r.value.0 == B.NodeAdded(b, id, n, Between(cursor, r.value.1))
    ensures r.Failure? ==> r.error == WithContext(LiteralIncorrect(n.kind.literal), text, cursor)
  {
    match MatchEnd(n.kind.literal, n.defaultNode, text, cursor)
    case Some(end) => Success((B.NodeAdded(b, id, n, Between(cursor, end)), end))
    case None => Failure(WithContext(LiteralIncorrect(n.kind.literal), text, cursor))
  }

  /** The private `parse(reader)`: returns the end or -1, leaving the cursor after a match and in place otherwise. */
  method Match(literal: string, defaultNode: bool, reader: Reader.TextReader) returns (end: int)
    requires reader.Valid()
    modifies reader
    ensures reader.Valid()
    ensures var m := MatchEnd(literal, defaultNode, reader.text, old(reader.cursor));
      (m.Some? ==> end == m.value && reader.cursor == m.value)
      && (m.None? ==> end == -1 && reader.cursor == old(reader.cursor))
  {
    var start := reader.cursor;
    if reader.CanRead(|literal|) {
      var e := start + |literal|;
      if reader.text[start..e] == literal {
        reader.SetCursor(e);
        if !reader.CanRead(1) || reader.Peek() == ' ' {
          return e;
        }
        reader.SetCursor(start);
      }
    } else if !reader.CanRead(1) && defaultNode {
      return start;
    }
    return -1;
  }

  /** `parse(reader, builder)`: adds the node to the builder or throws `LITERAL_INCORRECT`. */
  method Parse(id: N.NodeId, n: N.Node, reader: Reader.TextReader, builder: B.CommandContextBuilder)
    returns (error: Option<SyntaxException>)
    requires n.kind.Literal? && reader.Valid()
    modifies reader, builder
    ensures reader.Valid()
    ensures var r := ParseInto(id, n, reader.text, old(reader.cursor), old(builder.State()));
      (r.Success? ==> error.None? && builder.State() == r.value.0 && reader.cursor == r.value.1)
      && (r.Failure? ==> error == Some(r.error) && builder.State() == old(builder.State()) && reader.cursor == old(reader.cursor))
  {
    var start := reader.cursor;
    var end := Match(n.kind.literal, n.defaultNode, reader);
    if end > -1 {
      builder.WithNode(id, n, Between(start, end));
      return None;
    }
    return Some(WithContext(LiteralIncorrect(n.kind.literal), reader.text, reader.cursor));
  }

  /** `regionMatches(true, 0, prefix, 0, prefix.length())` on `s`: `prefix` begins `s`, ignoring case. */
  predicate PrefixIgnoreCase(prefix: string, s: string)
  {
    |prefix| <= |s| && forall i :: 0 <= i < |prefix| ==> LowerChar(prefix[i]) == LowerChar(s[i])
  }

  /**
   * `suggestions(context, builder)`: the literal is offered when what
   * remains of the input begins it, ignoring case; otherwise nothing.
   */
  method Suggest(literal: string, builder: S.Builder) returns (r: S.Suggestions)
    requires builder.Valid()
    modifies builder
    ensures builder.Valid()
    ensures !PrefixIgnoreCase(builder.remaining, literal) ==> r == S.EMPTY && builder.result == old(builder.result)
    ensures PrefixIgnoreCase(builder.remaining, literal) ==>
      builder.result == old(builder.result) + (if literal == builder.remaining then [] else [Suggestion.Suggestion(Between(builder.start, |builder.input|), literal, None, None)])
      && forall x :: x in r.list <==> exists y :: y in builder.result && x == Suggestion.Plain(y)
  {
    var remaining := builder.remaining;
    if |remaining| <= |literal| {
      var i := 0;
      while i < |remaining| && LowerChar(remaining[i]) == LowerChar(literal[i])
        invariant 0 <= i <= |remaining|
        invariant forall j :: 0 <= j < i ==> LowerChar(remaining[j]) == LowerChar(literal[j])
      {
        i := i + 1;
      }
      if i == |remaining| {
        builder.Suggest(literal);
        r := builder.Build();
        return;
      }
    }
    r := S.EMPTY;
  }

  /** `toString()`. */
  function ToString(literal: string): (s: string)
    ensures |s| == |literal| + 10 && s[9..9 + |literal|] == literal
    ensures s[..9] == "<literal " && s[|s| - 1] == '>'
  {
    "<literal " + literal + ">"
  }
}
