/**
 * The cursor-based lexer the command parser reads its input with.  Each
 * read operation is a method on the reader and is specified by a function
 * of the text and the cursor position it starts from.
 */
module TextReader {
  import opened Wrappers
  import opened JavaText
  import opened CommandSyntaxException

  const SYNTAX_DOUBLE_QUOTE: char := '"'
  const SYNTAX_SINGLE_QUOTE: char := '\''
  const SYNTAX_ESCAPE: char := '\\'

  predicate IsAllowedInteger(c: char) { '0' <= c <= '9' || c == '+' || c == '-' }

  predicate IsAllowedNumber(c: char) { IsAllowedInteger(c) || c == '.' || c == 'e' || c == 'E' }

  predicate IsAllowedInUnquotedText(c: char)
  {
    IsAllowedInteger(c) || ('A' <= c <= 'Z') || ('a' <= c <= 'z') || c == '_' || c == '.'
  }

  predicate IsQuotedTextStart(c: char) { c == SYNTAX_DOUBLE_QUOTE || c == SYNTAX_SINGLE_QUOTE }

  /** The outcome of a read: its result and where it leaves the cursor. */
  datatype Read<T> = Read(result: Result<T, SyntaxException>, cursor: nat)

  /** `readUnquotedText` from position `at`: the longest run of unquoted-text characters. */
  function UnquotedAt(s: string, at: nat): (r: Read<string>)
    requires at <= |s|
    ensures r.result.Success? && at <= r.cursor <= |s|
    ensures r.result.value == s[at..r.cursor]
    ensures forall k :: 0 <= k < |r.result.value| ==> IsAllowedInUnquotedText(r.result.value[k])
    ensures r.cursor < |s| ==> !IsAllowedInUnquotedText(s[r.cursor])
  {
    var e := ScanWhile(s, at, IsAllowedInUnquotedText);
    Read(Success(s[at..e]), e)
  }

  /**
   * `readBoolean` from position `at`: the unquoted word there decides.
   * "true" and "false" succeed with the cursor after the word; an empty
   * word is EXPECTED_BOOL; any other word is INVALID_BOOL carrying the
   * word, with the cursor back at `at`.
   */
  function BooleanAt(s: string, at: nat): (r: Read<bool>)
    requires at <= |s|
    ensures var word := UnquotedAt(s, at);
      && (r.result.Success? <==> word.result.value in {"true", "false"})
      && (r.result.Success? ==> r.cursor == word.cursor && r.result.value == (word.result.value == "true"))
      && (word.result.value == "" ==> r == Read(Failure(WithContext(ReaderExpectedBool, s, at)), at))
      && (word.result.value !in {"", "true", "false"} ==>
            r == Read(Failure(WithContext(ReaderInvalidBool(word.result.value), s, at)), at))
  {
    var word := UnquotedAt(s, at);
    var value := word.result.value;
    if value == "" then Read(Failure(WithContext(ReaderExpectedBool, s, word.cursor)), word.cursor)
    else if value == "true" then Read(Success(true), word.cursor)
    else if value == "false" then Read(Success(false), word.cursor)
    else Read(Failure(WithContext(ReaderInvalidBool(value), s, at)), at)
  }

  /**
   * `readInt` from position `at`: the run of integer characters there,
   * parsed as an `int`.  It succeeds, with the cursor after the run,
   * exactly when `Integer.parseInt` accepts the run; no integer character
   * at `at` is EXPECTED_INT; a run that does not parse is INVALID_INT
   * carrying the run, with the cursor back at `at`.
   */
  function IntAt(s: string, at: nat): (r: Read<int>)
    requires at <= |s|
    ensures var e := ScanWhile(s, at, IsAllowedInteger);
      && (r.result.Success? <==> ParseInt(s[at..e]).Some?)
      && (r.result.Success? ==> r.cursor == e && Some(r.result.value) == ParseInt(s[at..e]))
      && (r.result.Failure? ==> r.cursor == at)
      && (r.result.Failure? && r.result.error.kind == ReaderExpectedInt <==> at == |s| || !IsAllowedInteger(s[at]))
      && (r.result.Failure? && r.result.error.kind != ReaderExpectedInt ==>
            r.result.error == WithContext(ReaderInvalidInt(s[at..e]), s, at))
  {
    var e := ScanWhile(s, at, IsAllowedInteger);
    var number := s[at..e];
    if number == "" then Read(Failure(WithContext(ReaderExpectedInt, s, e)), e)
    else match ParseInt(number)
      case Some(v) => Read(Success(v), e)
      case None => Read(Failure(WithContext(ReaderInvalidInt(number), s, at)), at)
  }

  /** `readLong` from position `at`: as `readInt`, with the range of a `long`. */
  function LongAt(s: string, at: nat): (r: Read<int>)
    requires at <= |s|
    ensures var e := ScanWhile(s, at, IsAllowedInteger);
      && (r.result.Success? <==> ParseLong(s[at..e]).Some?)
      && (r.result.Success? ==> r.cursor == e && Some(r.result.value) == ParseLong(s[at..e]))
      && (r.result.Failure? ==> r.cursor == at)
      && (r.result.Failure? && r.result.error.kind == ReaderExpectedLong <==> at == |s| || !IsAllowedInteger(s[at]))
      && (r.result.Failure? && r.result.error.kind != ReaderExpectedLong ==>
            r.result.error == WithContext(ReaderInvalidLong(s[at..e]), s, at))
  {
    var e := ScanWhile(s, at, IsAllowedInteger);
    var number := s[at..e];
    if number == "" then Read(Failure(WithContext(ReaderExpectedLong, s, e)), e)
    else match ParseLong(number)
      case Some(v) => Read(Success(v), e)
      case None => Read(Failure(WithContext(ReaderInvalidLong(number), s, at)), at)
  }

  /** How a quoted string body ends. */
  datatype Quoted =
    | Closed(value: string, end: nat)   // the text up to the terminator; the cursor just after it
    | BadEscape(at: nat, c: char)       // a backslash before a character it may not escape
    | Unclosed                          // the input ended before the terminator

  function Prepend(c: char, q: Quoted): Quoted
  {
    if q.Closed? then Closed([c] + q.value, q.end) else q
  }

  function PrependAll(prefix: string, q: Quoted): (r: Quoted)
    ensures q.Closed? ==> r == Closed(prefix + q.value, q.end)
    ensures !q.Closed? ==> r == q
  {
    if q.Closed? then Closed(prefix + q.value, q.end) else q
  }

  lemma PrependAllSnoc(prefix: string, c: char, q: Quoted)
    ensures PrependAll(prefix, Prepend(c, q)) == PrependAll(prefix + [c], q)
  {
    if q.Closed? {
      assert prefix + ([c] + q.value) == (prefix + [c]) + q.value;
    }
  }

  /**
   * `readTextUntil(terminator)` from position `i`, just after the opening
   * quote: a backslash may only escape the terminator or a backslash.
   */
  function QuotedFrom(s: string, i: nat, terminator: char): (q: Quoted)
    ensures q.Closed? ==> i < q.end <= |s| && s[q.end - 1] == terminator
    ensures q.BadEscape? ==> i < q.at < |s| && q.c == s[q.at] && s[q.at - 1] == SYNTAX_ESCAPE
    ensures q.BadEscape? ==> q.c != terminator && q.c != SYNTAX_ESCAPE
    decreases |s| - i
  {
    if i >= |s| then Unclosed
    else if s[i] == SYNTAX_ESCAPE then
      if i + 1 >= |s| then Unclosed
      else if s[i + 1] == terminator || s[i + 1] == SYNTAX_ESCAPE then Prepend(s[i + 1], QuotedFrom(s, i + 2, terminator))
      else BadEscape(i + 1, s[i + 1])
    else if s[i] == terminator then Closed("", i + 1)
    else Prepend(s[i], QuotedFrom(s, i + 1, terminator))
  }

  /** One step of reading a quoted body: a plain character or an allowed escape. */
  lemma QuotedFromStep(t: string, i: nat, terminator: char)
    requires i < |t|
    ensures t[i] != SYNTAX_ESCAPE && t[i] != terminator ==> QuotedFrom(t, i, terminator) == Prepend(t[i], QuotedFrom(t, i + 1, terminator))
    ensures t[i] == SYNTAX_ESCAPE && i + 1 < |t| && (t[i + 1] == terminator || t[i + 1] == SYNTAX_ESCAPE) ==>
      QuotedFrom(t, i, terminator) == Prepend(t[i + 1], QuotedFrom(t, i + 2, terminator))
  {
  }

  /** The error or value `readTextUntil` turns a scan into, and the cursor it leaves. */
  function QuotedResult(s: string, q: Quoted): (r: Read<string>)
    requires q.Closed? ==> q.end <= |s|
    requires q.BadEscape? ==> q.at <= |s|
    ensures r.cursor <= |s|
  {
    match q
    case Closed(v, e) => Read(Success(v), e)
    case BadEscape(at, c) => Read(Failure(WithContext(ReaderInvalidEscape([c]), s, at)), at)
    case Unclosed => Read(Failure(WithContext(ReaderExpectedEndOfQuote, s, |s|)), |s|)
  }

  /**
   * `readQuotedText` from position `at`: "" at the end of the input, an
   * error unless the next character opens a quote, else the quoted body.
   */
  function QuotedTextAt(s: string, at: nat): (r: Read<string>)
    requires at <= |s|
    ensures at == |s| ==> r == Read(Success(""), at)
    ensures at < |s| && !IsQuotedTextStart(s[at]) ==> r == Read(Failure(WithContext(ReaderExpectedStartOfQuote, s, at)), at)
    ensures r.result.Failure? && r.result.error.kind == ReaderExpectedEndOfQuote ==> r.cursor == |s|
    ensures r.result.Failure? && r.result.error.kind.ReaderInvalidEscape? ==>
      at < r.cursor < |s| && s[r.cursor - 1] == SYNTAX_ESCAPE && r.result.error.kind.character == [s[r.cursor]]
  {
    if at == |s| then Read(Success(""), at)
    else if !IsQuotedTextStart(s[at]) then Read(Failure(WithContext(ReaderExpectedStartOfQuote, s, at)), at)
    else QuotedResult(s, QuotedFrom(s, at + 1, s[at]))
  }

  /** `readText` from position `at`: a quoted string if one starts here, else an unquoted word. */
  function TextAt(s: string, at: nat): (r: Read<string>)
    requires at <= |s|
    ensures at < |s| && !IsQuotedTextStart(s[at]) ==> r == UnquotedAt(s, at)
    ensures at == |s| || IsQuotedTextStart(s[at]) ==> r == QuotedTextAt(s, at)
  {
    if at < |s| && IsQuotedTextStart(s[at]) then QuotedTextAt(s, at)
    else if at == |s| then Read(Success(""), at)
    else UnquotedAt(s, at)
  }

  class TextReader {
    const text: string
    var cursor: nat

    ghost predicate Valid() reads this { cursor <= |text| }

    constructor (text: string)
      ensures Valid() && this.text == text && cursor == 0
    {
      this.text := text;
      cursor := 0;
    }

    /** A reader over the same text at the same position. */
    constructor Copy(other: TextReader)
      requires other.Valid()
      ensures Valid() && text == other.text && cursor == other.cursor
    {
      text := other.text;
      cursor := other.cursor;
    }

    /** Whether `length` more characters remain. */
    predicate CanRead(length: int) reads this
      ensures Valid() ==> (CanRead(length) <==> length <= |text| - cursor)
    {
      cursor + length <= |text|
    }

    function GetRemaining(): (r: string)
      reads this
      requires Valid()
      ensures |r| == |text| - cursor && text == text[..cursor] + r
    {
      text[cursor..]
    }

    function Peek(): (c: char)
      reads this
      requires Valid() && CanRead(1)
      ensures |GetRemaining()| > 0 && c == GetRemaining()[0]
    {
      text[cursor]
    }

    method SetCursor(c: nat)
      requires c <= |text|
      modifies this
      ensures Valid() && cursor == c
    {
      cursor := c;
    }

    method Skip()
      requires Valid() && CanRead(1)
      modifies this
      ensures Valid() && cursor == old(cursor) + 1
    {
      cursor := cursor + 1;
    }

    method ReadChar() returns (c: char)
      requires Valid() && CanRead(1)
      modifies this
      ensures Valid() && c == text[old(cursor)] && cursor == old(cursor) + 1
    {
      c := text[cursor];
      cursor := cursor + 1;
    }

    /** Advances past the longest run of `allowed` characters. */
    method SkipWhile(allowed: char -> bool)
      requires Valid()
      modifies this
      ensures Valid() && cursor == ScanWhile(text, old(cursor), allowed)
    {
      while CanRead(1) && allowed(Peek())
        invariant old(cursor) <= cursor <= |text|
        invariant ScanWhile(text, old(cursor), allowed) == ScanWhile(text, cursor, allowed)
        decreases |text| - cursor
      {
        cursor := cursor + 1;
      }
    }

    /** Skips whitespace: the cursor never moves back and stops at the first non-whitespace character. */
    method SkipWhitespace()
      requires Valid()
      modifies this
      ensures Valid() && cursor == ScanWhile(text, old(cursor), IsWhitespace)
    {
      SkipWhile(IsWhitespace);
    }

    method ReadUnquotedText() returns (s: string)
      requires Valid()
      modifies this
      ensures Valid() && Read(Success(s), cursor) == UnquotedAt(text, old(cursor))
    {
      var start := cursor;
      SkipWhile(IsAllowedInUnquotedText);
      s := text[start..cursor];
    }

    method ReadBoolean() returns (r: Result<bool, SyntaxException>)
      requires Valid()
      modifies this
      ensures Valid() && Read(r, cursor) == BooleanAt(text, old(cursor))
    {
      var start := cursor;
      var value := ReadUnquotedText();
      if value == "" {
        return Failure(WithContext(ReaderExpectedBool, text, cursor));
      }
      if value == "true" {
        r := Success(true);
      } else if value == "false" {
        r := Success(false);
      } else {
        cursor := start;
        r := Failure(WithContext(ReaderInvalidBool(value), text, cursor));
      }
    }

    method ReadInt() returns (r: Result<int, SyntaxException>)
      requires Valid()
      modifies this
      ensures Valid() && Read(r, cursor) == IntAt(text, old(cursor))
    {
      var start := cursor;
      SkipWhile(IsAllowedInteger);
      var number := text[start..cursor];
      if number == "" {
        return Failure(WithContext(ReaderExpectedInt, text, cursor));
      }
      var parsed := ParseInt(number);
      if parsed.Some? {
        r := Success(parsed.value);
      } else {
        cursor := start;
        r := Failure(WithContext(ReaderInvalidInt(number), text, cursor));
      }
    }

    method ReadLong() returns (r: Result<int, SyntaxException>)
      requires Valid()
      modifies this
      ensures Valid() && Read(r, cursor) == LongAt(text, old(cursor))
    {
      var start := cursor;
      SkipWhile(IsAllowedInteger);
      var number := text[start..cursor];
      if number == "" {
        return Failure(WithContext(ReaderExpectedLong, text, cursor));
      }
      var parsed := ParseLong(number);
      if parsed.Some? {
        r := Success(parsed.value);
      } else {
        cursor := start;
        r := Failure(WithContext(ReaderInvalidLong(number), text, cursor));
      }
    }

    /** Reads up to an unescaped `terminator`, the opening quote already consumed. */
    method ReadTextUntil(terminator: char) returns (r: Result<string, SyntaxException>)
      requires Valid()
      modifies this
      ensures Valid() && Read(r, cursor) == QuotedResult(text, QuotedFrom(text, old(cursor), terminator))
    {
      ghost var start := cursor;
      var result := "";
      var escaped := false;
      while cursor < |text|
        invariant start <= cursor <= |text|
        invariant escaped ==> cursor > start && text[cursor - 1] == SYNTAX_ESCAPE
        invariant QuotedFrom(text, start, terminator)
                  == PrependAll(result, QuotedFrom(text, if escaped then cursor - 1 else cursor, terminator))
        decreases |text| - cursor
      {
        var c := text[cursor];
        cursor := cursor + 1;
        if escaped {
          if c == terminator || c == SYNTAX_ESCAPE {
            QuotedFromStep(text, cursor - 2, terminator);
            PrependAllSnoc(result, c, QuotedFrom(text, cursor, terminator));
            result := result + [c];
            escaped := false;
          } else {
            cursor := cursor - 1;
            return Failure(WithContext(ReaderInvalidEscape([c]), text, cursor));
          }
        } else if c == SYNTAX_ESCAPE {
          escaped := true;
        } else if c == terminator {
          assert result + "" == result;
          return Success(result);
        } else {
          QuotedFromStep(text, cursor - 1, terminator);
          PrependAllSnoc(result, c, QuotedFrom(text, cursor, terminator));
          result := result + [c];
        }
      }
      r := Failure(WithContext(ReaderExpectedEndOfQuote, text, cursor));
    }

    method ReadQuotedText() returns (r: Result<string, SyntaxException>)
      requires Valid()
      modifies this
      ensures Valid() && Read(r, cursor) == QuotedTextAt(text, old(cursor))
    {
      if !CanRead(1) {
        return Success("");
      }
      var next := Peek();
      if !IsQuotedTextStart(next) {
        return Failure(WithContext(ReaderExpectedStartOfQuote, text, cursor));
      }
      Skip();
      r := ReadTextUntil(next);
    }

    method ReadText() returns (r: Result<string, SyntaxException>)
      requires Valid()
      modifies this
      ensures Valid() && Read(r, cursor) == TextAt(text, old(cursor))
    {
      if !CanRead(1) {
        return Success("");
      }
      var next := Peek();
      if IsQuotedTextStart(next) {
        Skip();
        r := ReadTextUntil(next);
        return;
      }
      var s := ReadUnquotedText();
      r := Success(s);
    }
  }
}
