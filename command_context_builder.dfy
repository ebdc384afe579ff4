/**
 * `CommandContextBuilder`: what parsing has gathered so far — the
 * arguments by name, the nodes matched with their ranges, the command to
 * run, the redirect modifier and fork flag of the last node, the range
 * covered, the sender — and the child context started by a redirect.
 */
module CommandContextBuilder {
  import opened Wrappers
  import opened TextRange
  import N = CommandNodeEnvelope

  /** `ParsedArgument`: the range an argument was read from and its value. */
  datatype ParsedArgument = ParsedArgument(range: TextRange, result: N.ArgumentValue)

  /** `ParsedCommandNode`: a node matched and the range it matched. */
  datatype ParsedCommandNode = ParsedCommandNode(node: N.NodeId, range: TextRange)

  /** The fields of a builder; a child is held as the state it had when it was attached. */
  datatype BuilderState = BuilderState(
    arguments: map<string, ParsedArgument>,
    nodes: seq<ParsedCommandNode>,
    rootNode: N.NodeId,
    child: Option<BuilderState>,
    command: Option<N.CommandId>,
    fork: bool,
    modifier: Option<N.ModifierId>,
    range: TextRange,
    sender: N.Sender)

  /** `SuggestionContext`: the node whose children are to be suggested and where the suggestion starts. */
  datatype SuggestionContext = SuggestionContext(parent: N.NodeId, startPos: int)

  const CANNOT_FIND_NODE: string := "Can't find node before cursor"

  /** The constructor: nothing parsed, an empty range at `start`. */
  function Fresh(start: int, rootNode: N.NodeId, sender: N.Sender): (b: BuilderState)
    ensures b.nodes == [] && b.arguments == map[] && b.child.None? && b.command.None?
    ensures b.range == At(start) && b.rootNode == rootNode && b.sender == sender
  {
    BuilderState(map[], [], rootNode, None, None, false, None, At(start), sender)
  }

  /**
   * `withNode(node, range)`: the node is appended with its range, the range
   * grows to cover it, and the node's redirect modifier and fork flag
   * replace the builder's.
   */
  function NodeAdded(b: BuilderState, id: N.NodeId, n: N.Node, range: TextRange): (r: BuilderState)
  {
    b.(nodes := b.nodes + [ParsedCommandNode(id, range)],
       range := Encompassing(b.range, range),
       modifier := n.redirectModifier,
       fork := n.fork)
  }

  /** `withArgument(name, argument)`: a later argument of the same name replaces the earlier. */
  function ArgumentPut(b: BuilderState, name: string, argument: ParsedArgument): (r: BuilderState)
  {
    b.(arguments := b.arguments[name := argument])
  }

  /**
   * `copy()`: a new builder with the same start, root and sender, then the
   * command, arguments, nodes, child, range and fork copied; the redirect
   * modifier is not copied.
   */
  function Copied(b: BuilderState): (r: BuilderState)
  {
    Fresh(b.range.start, b.rootNode, b.sender).(command := b.command, arguments := b.arguments, nodes := b.nodes,
                                                child := b.child, range := b.range, fork := b.fork)
  }

  /** Every node matched lies within the builder's range. */
  predicate NodesWithin(b: BuilderState)
  {
    forall i :: 0 <= i < |b.nodes| ==> b.range.start <= b.nodes[i].range.start && b.nodes[i].range.end <= b.range.end
  }

  /**
   * The `for` loop of `findSuggestionContext`: the node before the first
   * node whose range holds the cursor (the root before the first node),
   * from that node's start; when none holds it, the last node, from the
   * builder's start.
   */
  function ContextAmong(nodes: seq<ParsedCommandNode>, cursor: int, prev: N.NodeId, start: int): (r: SuggestionContext)
  {
    if |nodes| == 0 then SuggestionContext(prev, start)
    else if nodes[0].range.start <= cursor <= nodes[0].range.end then SuggestionContext(prev, nodes[0].range.start)
    else ContextAmong(nodes[1..], cursor, nodes[0].node, start)
  }

  /** Whether the range of `p` holds the cursor. */
  predicate Holds(p: ParsedCommandNode, cursor: int)
  {
    p.range.start <= cursor <= p.range.end
  }

  /**
   * `findSuggestionContext(cursor)`: a cursor before the builder's range is
   * an `IllegalStateException`; past its end the child is asked, else the
   * place after the last node, else the root; within it, the loop above.
   */
  function SuggestionContextOf(b: BuilderState, cursor: int): (r: Result<SuggestionContext, string>)
    ensures r.Failure? ==> r.error == CANNOT_FIND_NODE
    ensures b.range.start > cursor ==> r.Failure?
  {
    if b.range.start > cursor then Failure(CANNOT_FIND_NODE)
    else if b.range.end < cursor then
      if b.child.Some? then SuggestionContextOf(b.child.value, cursor)
      else if |b.nodes| > 0 then
        var last := b.nodes[|b.nodes| - 1];
        Success(SuggestionContext(last.node, last.range.end + 1))
      else Success(SuggestionContext(b.rootNode, b.range.start))
    else Success(ContextAmong(b.nodes, cursor, b.rootNode, b.range.start))
  }

  /** `getLastChild()`: the end of the chain of children. */
  function LastChild(b: BuilderState): (r: BuilderState)
    ensures r.child.None?
  {
    if b.child.None? then b else LastChild(b.child.value)
  }

  /** The number of children below a builder. */
  function Depth(b: BuilderState): nat
  {
    if b.child.None? then 0 else 1 + Depth(b.child.value)
  }

  /** When node `k` is the first to hold the cursor, the loop picks the node before it, from its start. */
  lemma {:induction false} ContextAmongFirst(nodes: seq<ParsedCommandNode>, cursor: int, prev: N.NodeId, start: int, k: nat)
    requires k < |nodes| && Holds(nodes[k], cursor) && forall j :: 0 <= j < k ==> !Holds(nodes[j], cursor)
    ensures ContextAmong(nodes, cursor, prev, start) == SuggestionContext(if k == 0 then prev else nodes[k - 1].node, nodes[k].range.start)
  {
    if k > 0 {
      var t := nodes[1..];
      assert !Holds(nodes[0], cursor);
      forall j | 0 <= j < k - 1 ensures !Holds(t[j], cursor) {
        assert t[j] == nodes[j + 1];
      }
      ContextAmongFirst(t, cursor, nodes[0].node, start, k - 1);
      if k > 1 {
        assert t[k - 2] == nodes[k - 1];
      }
    }
  }

  /** When no node holds the cursor, the loop picks the last node (the root if there is none), from the builder's start. */
  lemma {:induction false} ContextAmongNone(nodes: seq<ParsedCommandNode>, cursor: int, prev: N.NodeId, start: int)
    requires forall j :: 0 <= j < |nodes| ==> !Holds(nodes[j], cursor)
    ensures ContextAmong(nodes, cursor, prev, start) == SuggestionContext(if |nodes| == 0 then prev else nodes[|nodes| - 1].node, start)
  {
    if |nodes| > 0 {
      var t := nodes[1..];
      assert !Holds(nodes[0], cursor);
      forall j | 0 <= j < |t| ensures !Holds(t[j], cursor) {
        assert t[j] == nodes[j + 1];
      }
      ContextAmongNone(t, cursor, nodes[0].node, start);
      if |nodes| > 1 {
        assert t[|t| - 1] == nodes[|nodes| - 1];
      }
    }
  }

  /** The start the loop picks is the builder's start or the start of a node that holds the cursor. */
  lemma {:induction false} ContextAmongStart(nodes: seq<ParsedCommandNode>, cursor: int, prev: N.NodeId, start: int)
    requires start <= cursor
    ensures ContextAmong(nodes, cursor, prev, start).startPos <= cursor
  {
    if |nodes| > 0 && !Holds(nodes[0], cursor) {
      ContextAmongStart(nodes[1..], cursor, nodes[0].node, start);
    }
  }

  /** A chain of builders whose nodes lie within their ranges and whose ranges end at or after their starts. */
  predicate WellFormed(b: BuilderState)
  {
    NodesWithin(b) && b.range.start <= b.range.end && (b.child.Some? ==> WellFormed(b.child.value))
  }

  /** A suggestion context found never starts after the cursor. */
  lemma {:induction false} SuggestionStartBeforeCursor(b: BuilderState, cursor: int)
    requires WellFormed(b) && SuggestionContextOf(b, cursor).Success?
    ensures SuggestionContextOf(b, cursor).value.startPos <= cursor
  {
    if b.range.end < cursor {
      if b.child.Some? {
        SuggestionStartBeforeCursor(b.child.value, cursor);
      } else if |b.nodes| > 0 {
        assert b.nodes[|b.nodes| - 1].range.end <= b.range.end;
      }
    } else {
      ContextAmongStart(b.nodes, cursor, b.rootNode, b.range.start);
    }
  }

  /** `withNode` keeps the nodes within the range, and the range only grows. */
  lemma NodeAddedWithin(b: BuilderState, id: N.NodeId, n: N.Node, range: TextRange)
    requires NodesWithin(b)
    ensures NodesWithin(NodeAdded(b, id, n, range))
    ensures var r := NodeAdded(b, id, n, range);
      r.range.start <= b.range.start && b.range.end <= r.range.end
      && r.range.start <= range.start && range.end <= r.range.end
  {
  }

  /** `withNode` on a copy is `withNode` on the original: the modifier the copy drops is always set again. */
  lemma CopyThenNode(b: BuilderState, id: N.NodeId, n: N.Node, range: TextRange)
    ensures NodeAdded(Copied(b), id, n, range) == NodeAdded(b, id, n, range)
    ensures Copied(b) == b.(modifier := None)
  {
  }

  /** The last child has no child, is reached by following `Depth` children, and stays put. */
  lemma {:induction false} LastChildProperties(b: BuilderState)
    ensures LastChild(LastChild(b)) == LastChild(b)
    ensures Depth(b) == 0 <==> LastChild(b) == b
    decreases b
  {
    if b.child.Some? {
      LastChildProperties(b.child.value);
      assert Depth(b.child.value) < Depth(b);
      LastChildDeeper(b);
    }
  }

  /** A builder with a child is not its own last child: the last child is strictly shallower. */
  lemma {:induction false} LastChildDeeper(b: BuilderState)
    requires b.child.Some?
    ensures LastChild(b) != b
  {
    LastChildDepth(b);
  }

  /** The last child has depth 0. */
  lemma {:induction false} LastChildDepth(b: BuilderState)
    ensures Depth(LastChild(b)) == 0
    decreases b
  {
    if b.child.Some? {
      LastChildDepth(b.child.value);
    }
  }

  class CommandContextBuilder {
    var arguments: map<string, ParsedArgument>
    var nodes: seq<ParsedCommandNode>
    const rootNode: N.NodeId
    var child: Option<BuilderState>
    var command: Option<N.CommandId>
    var fork: bool
    var modifier: Option<N.ModifierId>
    var range: TextRange
    var sender: N.Sender

    function State(): BuilderState
      reads this
    {
      BuilderState(arguments, nodes, rootNode, child, command, fork, modifier, range, sender)
    }

    constructor (start: int, rootNode: N.NodeId, sender: N.Sender)
      ensures State() == Fresh(start, rootNode, sender)
    {
      this.rootNode := rootNode;
      range := At(start);
      this.sender := sender;
      arguments := map[];
      nodes := [];
      child := None;
      command := None;
      fork := false;
      modifier := None;
    }

    /** `copy()`: a fresh builder; the redirect modifier is not carried over. */
    method Copy() returns (copy: CommandContextBuilder)
      ensures fresh(copy) && copy.State() == Copied(State())
    {
      copy := new CommandContextBuilder(range.start, rootNode, sender);
      copy.command := command;
      copy.arguments := arguments;
      copy.nodes := nodes;
      copy.child := child;
      copy.range := range;
      copy.fork := fork;
    }

    /** `withNode(node, range)`. */
    method WithNode(id: N.NodeId, n: N.Node, range: TextRange)
      modifies this
      ensures State() == NodeAdded(old(State()), id, n, range)
    {
      nodes := nodes + [ParsedCommandNode(id, range)];
      this.range := Encompassing(this.range, range);
      modifier := n.redirectModifier;
      fork := n.fork;
    }

    /** `withArgument(name, argument)`. */
    method WithArgument(name: string, argument: ParsedArgument)
      modifies this
      ensures State() == ArgumentPut(old(State()), name, argument)
    {
      arguments := arguments[name := argument];
    }

    /** `withChild(child)`. */
    method WithChild(child: BuilderState)
      modifies this
      ensures State() == old(State()).(child := Some(child))
    {
      this.child := Some(child);
    }

    /** `withCommand(command)`. */
    method WithCommand(command: Option<N.CommandId>)
      modifies this
      ensures State() == old(State()).(command := command)
    {
      this.command := command;
    }

    /** `withSender(sender)`. */
    method WithSender(sender: N.Sender)
      modifies this
      ensures State() == old(State()).(sender := sender)
    {
      this.sender := sender;
    }

    /** `findSuggestionContext(cursor)`. */
    method FindSuggestionContext(cursor: int) returns (r: Result<SuggestionContext, string>)
      ensures r == SuggestionContextOf(State(), cursor)
    {
      r := FindSuggestionContextIn(State(), cursor);
    }

    /** `getLastChild()`. */
    method GetLastChild() returns (r: BuilderState)
      ensures r == LastChild(State())
    {
      r := State();
      while r.child.Some?
        invariant LastChild(r) == LastChild(State())
        decreases r
      {
        r := r.child.value;
      }
    }
  }

  /** `findSuggestionContext` on a builder, following the children by recursion as the Java method does. */
  method FindSuggestionContextIn(b: BuilderState, cursor: int) returns (r: Result<SuggestionContext, string>)
    ensures r == SuggestionContextOf(b, cursor)
    decreases b
  {
    if b.range.start > cursor {
      return Failure(CANNOT_FIND_NODE);
    }
    if b.range.end < cursor {
      if b.child.Some? {
        r := FindSuggestionContextIn(b.child.value, cursor);
        return;
      }
      if |b.nodes| > 0 {
        var last := b.nodes[|b.nodes| - 1];
        return Success(SuggestionContext(last.node, last.range.end + 1));
      }
      return Success(SuggestionContext(b.rootNode, b.range.start));
    }
    var prev := b.rootNode;
    var i := 0;
    while i < |b.nodes|
      invariant 0 <= i <= |b.nodes|
      invariant ContextAmong(b.nodes, cursor, b.rootNode, b.range.start) == ContextAmong(b.nodes[i..], cursor, prev, b.range.start)
    {
      var node := b.nodes[i];
      assert b.nodes[i..][0] == node && b.nodes[i..][1..] == b.nodes[i + 1..];
      if node.range.start <= cursor <= node.range.end {
        return Success(SuggestionContext(prev, node.range.start));
      }
      prev := node.node;
      i := i + 1;
    }
    return Success(SuggestionContext(prev, b.range.start));
  }
}
