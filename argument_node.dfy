/**
 * `ArgumentNode.parse`: an argument node reads its value with its argument
 * type, or takes its default value when it is a default node and no input
 * is left, then records the argument and itself in the context builder.
 */
module ArgumentNode {
  import opened Wrappers
  import opened TextRange
  import opened CommandSyntaxException
  import Reader = TextReader
  import N = CommandNodeEnvelope
  import B = CommandContextBuilder
  import IntegerArgumentType
  import StringArgumentType

  /** What `parse` throws: a syntax error of the argument type, or an unchecked exception with its message. */
  datatype Thrown = Syntax(error: SyntaxException) | Unchecked(message: string)

  /** The message of the `NullPointerException` thrown for a missing default value. */
  const NULL_RESULT: string := "result"

  /** `type.parse(reader)` from `cursor`, for the argument types of the model. */
  function TypeParse(t: N.ArgumentType, text: string, cursor: nat): (r: Reader.Read<N.ArgumentValue>)
    requires cursor <= |text|
    ensures r.result.Success? ==> cursor <= r.cursor <= |text|
  {
    match t
    case IntegerArgument(a) =>
      var read := IntegerArgumentType.ParseAt(a, text, cursor);
      Reader.Read(if read.result.Success? then Success(N.IntegerValue(read.result.value)) else Failure(read.result.error), read.cursor)
    case StringArgument(a) =>
      var read := StringArgumentType.ParseAt(a, text, cursor);
      Reader.Read(if read.result.Success? then Success(N.StringValue(read.result.value)) else Failure(read.result.error), read.cursor)
  }

  /**
   * `parse(reader, builder)` on values: the value read, or the default
   * value for a default node with no input left, is recorded under the
   * argument's name with the range it was read from, and the node is added.
   */
  function ParseInto(id: N.NodeId, n: N.Node, text: string, cursor: nat, b: B.BuilderState)
    : (r: Result<(B.BuilderState, nat), Thrown>)
    requires n.kind.Argument? && cursor <= |text|
    ensures r.Success? ==> cursor <= r.value.1 <= |text|
    ensures r.Success? ==> var c := r.value.0;
      && c.nodes == b.nodes + [B.ParsedCommandNode(id, Between(cursor, r.value.1))]
      && c.sender == b.sender && c.rootNode == b.rootNode && c.child == b.child && c.command == b.command
  {
    if cursor < |text| || !n.defaultNode then
      var read := TypeParse(n.kind.argumentType, text, cursor);
      if read.result.Failure? then Failure(Syntax(read.result.error))
      else
        var parsed := B.ParsedArgument(Between(cursor, read.cursor), read.result.value);
        Success((B.NodeAdded(B.ArgumentPut(b, n.kind.name, parsed), id, n, parsed.range), read.cursor))
    else if n.kind.defaultValue.None? then Failure(Unchecked(NULL_RESULT))
    else
      var parsed := B.ParsedArgument(At(cursor), n.kind.defaultValue.value);
      Success((B.NodeAdded(B.ArgumentPut(b, n.kind.name, parsed), id, n, parsed.range), cursor))
  }

  /**
   * A successful parse records the argument under its name with the range
   * read, and leaves every other argument as it was.
   */
  lemma ParseIntoRecords(id: N.NodeId, n: N.Node, text: string, cursor: nat, b: B.BuilderState)
    requires n.kind.Argument? && cursor <= |text|
    ensures var r := ParseInto(id, n, text, cursor, b);
      r.Success? ==>
        var (c, end) := r.value;
        && cursor <= end <= |text|
        && n.kind.name in c.arguments && c.arguments[n.kind.name].range == Between(cursor, end)
        && (forall a :: a in b.arguments && a != n.kind.name ==> a in c.arguments && c.arguments[a] == b.arguments[a])
  {
  }

  /**
   * A default node with no input left reads nothing: it takes its default
   * value, or throws the `NullPointerException` when it has none.
   */
  lemma DefaultAtEnd(id: N.NodeId, n: N.Node, text: string, b: B.BuilderState)
    requires n.kind.Argument? && n.defaultNode
    ensures var r := ParseInto(id, n, text, |text|, b);
      && (n.kind.defaultValue.None? ==> r == Failure(Unchecked(NULL_RESULT)))
      && (n.kind.defaultValue.Some? ==>
            r.Success? && r.value.1 == |text|
            && r.value.0.arguments[n.kind.name] == B.ParsedArgument(At(|text|), n.kind.defaultValue.value))
  {
  }

  /** Where input is left, or the node is not a default, the argument type decides: its errors are passed on. */
  lemma TypeDecides(id: N.NodeId, n: N.Node, text: string, cursor: nat, b: B.BuilderState)
    requires n.kind.Argument? && cursor <= |text| && (cursor < |text| || !n.defaultNode)
    ensures var r := ParseInto(id, n, text, cursor, b); var read := TypeParse(n.kind.argumentType, text, cursor);
      && (r.Success? <==> read.result.Success?)
      && (r.Failure? ==> r.error == Syntax(read.result.error))
      && (r.Success? ==> r.value.1 == read.cursor && r.value.0.arguments[n.kind.name].result == read.result.value)
  {
  }

  /** `type.parse(reader)`. */
  method ReadValue(t: N.ArgumentType, reader: Reader.TextReader) returns (r: Result<N.ArgumentValue, SyntaxException>)
    requires reader.Valid()
    modifies reader
    ensures reader.Valid() && Reader.Read(r, reader.cursor) == TypeParse(t, reader.text, old(reader.cursor))
  {
    match t {
      case IntegerArgument(a) =>
        var read := IntegerArgumentType.Parse(a, reader);
        r := if read.Success? then Success(N.IntegerValue(read.value)) else Failure(read.error);
      case StringArgument(a) =>
        var read := StringArgumentType.Parse(a, reader);
        r := if read.Success? then Success(N.StringValue(read.value)) else Failure(read.error);
    }
  }

  /** `parse(reader, builder)`. */
  method Parse(id: N.NodeId, n: N.Node, reader: Reader.TextReader, builder: B.CommandContextBuilder)
    returns (thrown: Option<Thrown>)
    requires n.kind.Argument? && reader.Valid()
    modifies reader, builder
    ensures reader.Valid()
    ensures var r := ParseInto(id, n, reader.text, old(reader.cursor), old(builder.State()));
      && (r.Success? ==> thrown.None? && builder.State() == r.value.0 && reader.cursor == r.value.1)
      && (r.Failure? ==> thrown == Some(r.error) && builder.State() == old(builder.State()))
      && (r.Failure? && r.error.Unchecked? ==> reader.cursor == old(reader.cursor))
      && (r.Failure? && r.error.Syntax? ==> reader.cursor == TypeParse(n.kind.argumentType, reader.text, old(reader.cursor)).cursor)
  {
    var start := reader.cursor;
    var value: N.ArgumentValue;
    if reader.CanRead(1) || !n.defaultNode {
      var r := ReadValue(n.kind.argumentType, reader);
      if r.Failure? {
        return Some(Syntax(r.error));
      }
      value := r.value;
    } else {
      if n.kind.defaultValue.None? {
        return Some(Unchecked(NULL_RESULT));
      }
      value := n.kind.defaultValue.value;
    }
    var parsed := B.ParsedArgument(Between(start, reader.cursor), value);
    builder.WithArgument(n.kind.name, parsed);
    builder.WithNode(id, n, parsed.range);
    thrown := None;
  }
}
