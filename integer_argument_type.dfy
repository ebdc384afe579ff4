/** The integer argument type: an `int` read from the input and checked against bounds. */
module IntegerArgumentType {
  import opened Wrappers
  import opened JavaText
  import opened CommandSyntaxException
  import opened TextReader

  datatype IntegerArgumentType = IntegerArgumentType(minimum: int, maximum: int)

  /** `integer()`: no bounds beyond those of `int`. */
  const DEFAULT: IntegerArgumentType := IntegerArgumentType(INT_MIN, INT_MAX)

  const EXAMPLES: seq<string> := ["0", "123", "-123", "+123"]

  /**
   * `parse` from position `at`: the reader's integer, or an error; a value
   * out of bounds puts the cursor back where the number began.
   */
  function ParseAt(a: IntegerArgumentType, s: string, at: nat): (r: Read<int>)
    requires at <= |s|
    ensures r.result.Success? ==> a.minimum <= r.result.value <= a.maximum && r == IntAt(s, at)
    ensures IntAt(s, at).result.Failure? ==> r == IntAt(s, at)
    ensures IntAt(s, at).result.Success? && IntAt(s, at).result.value < a.minimum ==>
      r == Read(Failure(WithContext(IntegerTooSmall(IntAt(s, at).result.value, a.minimum), s, at)), at)
    ensures IntAt(s, at).result.Success? && a.minimum <= IntAt(s, at).result.value && IntAt(s, at).result.value > a.maximum ==>
      r == Read(Failure(WithContext(IntegerTooBig(IntAt(s, at).result.value, a.maximum), s, at)), at)
    ensures IntAt(s, at).result.Success? && a.minimum <= IntAt(s, at).result.value <= a.maximum ==> r == IntAt(s, at)
  {
    var read := IntAt(s, at);
    if read.result.Failure? then read
    else if read.result.value < a.minimum then Read(Failure(WithContext(IntegerTooSmall(read.result.value, a.minimum), s, at)), at)
    else if read.result.value > a.maximum then Read(Failure(WithContext(IntegerTooBig(read.result.value, a.maximum), s, at)), at)
    else read
  }

  method Parse(a: IntegerArgumentType, reader: TextReader) returns (r: Result<int, SyntaxException>)
    requires reader.Valid()
    modifies reader
    ensures reader.Valid() && Read(r, reader.cursor) == ParseAt(a, reader.text, old(reader.cursor))
  {
    var start := reader.cursor;
    r := reader.ReadInt();
    if r.Failure? {
      return;
    }
    var result := r.value;
    if result < a.minimum {
      reader.SetCursor(start);
      return Failure(WithContext(IntegerTooSmall(result, a.minimum), reader.text, reader.cursor));
    }
    if result > a.maximum {
      reader.SetCursor(start);
      return Failure(WithContext(IntegerTooBig(result, a.maximum), reader.text, reader.cursor));
    }
  }

  /** `equals`: both bounds equal. */
  function Equals(a: IntegerArgumentType, b: IntegerArgumentType): (r: bool)
    ensures r <==> a == b
  {
    a.maximum == b.maximum && a.minimum == b.minimum
  }

  /** `hashCode`: 31 * minimum + maximum in `int` arithmetic. */
  function HashCode(a: IntegerArgumentType): (h: int)
    ensures IsInt32(h)
  {
    WrapInt32(31 * a.minimum + a.maximum)
  }

  lemma EqualsHashCode(a: IntegerArgumentType, b: IntegerArgumentType)
    requires Equals(a, b)
    ensures HashCode(a) == HashCode(b)
  {
  }

  /** `toString`: the bounds that differ from the defaults, in the shapes integer(), integer(min), integer(min, max). */
  function ToString(a: IntegerArgumentType): (r: string)
    ensures a == DEFAULT ==> r == "integer()"
    ensures a != DEFAULT && a.maximum == INT_MAX ==> r == "integer(" + IntToString(a.minimum) + ")"
    ensures a.maximum != INT_MAX ==> r == "integer(" + IntToString(a.minimum) + ", " + IntToString(a.maximum) + ")"
  {
    if a.minimum == INT_MIN && a.maximum == INT_MAX then "integer()"
    else if a.maximum == INT_MAX then "integer(" + IntToString(a.minimum) + ")"
    else "integer(" + IntToString(a.minimum) + ", " + IntToString(a.maximum) + ")"
  }

  /** Only the unbounded type prints as "integer()". */
  lemma ToStringDefaultIff(a: IntegerArgumentType)
    ensures ToString(a) == "integer()" <==> a == DEFAULT
  {
    if a != DEFAULT {
      var r := ToString(a);
      assert r[8] != ')' by {
        assert r[8] == IntToString(a.minimum)[0];
        assert IntToString(a.minimum)[0] == '-' || IsAsciiDigit(IntToString(a.minimum)[0]);
      }
    }
  }
}
