/**
 * The syntax error raised by the reader, the argument types and the
 * dispatcher, with the message texts of the command exception types.
 */
module CommandSyntaxException {
  import opened Wrappers
  import opened JavaText

  /** How many characters before the cursor the context shows. */
  const CONTEXT_AMOUNT: nat := 10

  /** The exception types that the modelled code raises, with their arguments. */
  datatype ExceptionType =
    | ReaderExpectedBool
    | ReaderInvalidBool(value: string)
    | ReaderExpectedInt
    | ReaderInvalidInt(value: string)
    | ReaderExpectedLong
    | ReaderInvalidLong(value: string)
    | ReaderExpectedStartOfQuote
    | ReaderExpectedEndOfQuote
    | ReaderInvalidEscape(character: string)
    | IntegerTooSmall(found: int, minimum: int)
    | IntegerTooBig(found: int, maximum: int)
    | LiteralIncorrect(expected: string)
    | TermInvalid(term: string)
    | DispatcherUnknownCommand
    | DispatcherUnknownArgument
    | DispatcherExpectedArgumentSeparator
    | DispatcherParseException(cause: string)

  /** The message each exception type renders. */
  function MessageOf(t: ExceptionType): string
  {
    match t
    case ReaderExpectedBool => "Expected bool"
    case ReaderInvalidBool(v) => "Invalid bool, expected true or false but found '" + v + "'"
    case ReaderExpectedInt => "Expected integer"
    case ReaderInvalidInt(v) => "Invalid integer '" + v + "'"
    case ReaderExpectedLong => "Expected long"
    case ReaderInvalidLong(v) => "Invalid long '" + v + "'"
    case ReaderExpectedStartOfQuote => "Expected quote to start a string"
    case ReaderExpectedEndOfQuote => "Unclosed quoted string"
    case ReaderInvalidEscape(c) => "Invalid escape sequence '" + c + "' in quoted string"
    case IntegerTooSmall(found, min) => "Integer must not be less than " + IntToString(min) + ", found " + IntToString(found)
    case IntegerTooBig(found, max) => "Integer must not be more than " + IntToString(max) + ", found " + IntToString(found)
    case LiteralIncorrect(x) => "Expected literal " + x
    case TermInvalid(x) => "Invalid term '" + x + "'"
    case DispatcherUnknownCommand => "Unknown command"
    case DispatcherUnknownArgument => "Incorrect argument for command"
    case DispatcherExpectedArgumentSeparator => "Expected whitespace to end one argument, but found trailing data"
    case DispatcherParseException(m) => "Could not parse command: " + m
  }

  /** A syntax error: where it happened (if known), its message and its type. */
  datatype SyntaxException = SyntaxException(cursor: int, input: Option<string>, message: string, kind: ExceptionType)

  /** `createWithContext(reader)`: the reader's cursor and text are recorded. */
  function WithContext(kind: ExceptionType, text: string, cursor: int): (e: SyntaxException)
    ensures e.kind == kind && e.input == Some(text) && e.cursor == cursor
    ensures GetRawMessage(e) == MessageOf(kind)
  {
    SyntaxException(cursor, Some(text), MessageOf(kind), kind)
  }

  /** `create()`: no input, cursor -1, so the error carries no context. */
  function WithoutContext(kind: ExceptionType): (e: SyntaxException)
    ensures e.kind == kind && GetContext(e).None?
    ensures GetMessage(e) == MessageOf(kind)
  {
    SyntaxException(-1, None, MessageOf(kind), kind)
  }

  function ClampedCursor(e: SyntaxException): (c: nat)
    requires e.input.Some? && e.cursor >= 0
    ensures c <= |e.input.value| && c <= e.cursor
  {
    if e.cursor < |e.input.value| then e.cursor else |e.input.value|
  }

  /**
   * The text just before the cursor (clamped to the input): all of it when
   * it is at most CONTEXT_AMOUNT characters long, else "..." and its last
   * CONTEXT_AMOUNT characters.  No context without an input or a cursor.
   */
  function GetContext(e: SyntaxException): (r: Option<string>)
    ensures r.None? <==> e.input.None? || e.cursor < 0
    ensures r.Some? && ClampedCursor(e) <= CONTEXT_AMOUNT ==> r.value == e.input.value[..ClampedCursor(e)]
    ensures r.Some? && ClampedCursor(e) > CONTEXT_AMOUNT ==>
      var c := ClampedCursor(e);
      |r.value| == CONTEXT_AMOUNT + 3 && r.value[..3] == "..." && r.value[3..] == e.input.value[c - CONTEXT_AMOUNT..c]
  {
    if e.input.None? || e.cursor < 0 then None
    else
      var c := ClampedCursor(e);
      var from := if c > CONTEXT_AMOUNT then c - CONTEXT_AMOUNT else 0;
      Some((if c > CONTEXT_AMOUNT then "..." else "") + e.input.value[from..c])
  }

  /** The raw message, followed by the position and the context when there is one. */
  function GetMessage(e: SyntaxException): (r: string)
    ensures GetContext(e).None? ==> r == e.message
    ensures GetContext(e).Some? ==> r == e.message + " at position " + IntToString(e.cursor) + ": " + GetContext(e).value
    ensures StartsWith(r, GetRawMessage(e))
  {
    var context := GetContext(e);
    if context.Some? then e.message + " at position " + IntToString(e.cursor) + ": " + context.value else e.message
  }

  /** The message given at construction, unchanged. */
  function GetRawMessage(e: SyntaxException): (r: string)
    ensures r == e.message
  {
    e.message
  }
}
