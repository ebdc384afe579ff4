/**
 * `CommandDispatcher`: parses input against the command tree, choosing
 * among the ways the input can be read, and executes the parse, following
 * redirects and forks; it also registers commands and finds nodes by path.
 */
module CommandDispatcher {
  import opened Wrappers
  import opened JavaText
  import opened TextRange
  import opened CommandSyntaxException
  import Reader = TextReader
  import N = CommandNodeEnvelope
  import B = CommandContextBuilder
  import LiteralNode
  import ArgumentNode
  import CommandResult

  const ARGUMENT_SEPARATOR: char := ' '

  const DEFAULT_NODE_REFUSED: string := "You cannot register default nodes!"

  /**
   * `ParseResults`: the builder parsing arrived at, the reader (its text
   * and cursor) where it stopped, and the exceptions of the children that
   * failed to parse, with the node that failed.
   */
  datatype ParseResults = ParseResults(
    builder: B.BuilderState,
    text: string,
    cursor: nat,
    exceptions: seq<(N.NodeId, SyntaxException)>)

  /**
   * `child.parse(reader, context)` within `parseNodes`: the root reads
   * nothing; a literal or an argument adds itself to the builder as its
   * class says, and an unchecked exception of an argument becomes
   * `DISPATCHER_PARSE_EXCEPTION`.
   */
  function NodeParsed(g: N.Graph, id: N.NodeId, text: string, cursor: nat, b: B.BuilderState)
    : (r: Result<(B.BuilderState, nat), SyntaxException>)
    requires cursor <= |text|
    ensures r.Success? ==> cursor <= r.value.1 <= |text|
    ensures r.Success? ==> var c := r.value.0;
      c.sender == b.sender && c.rootNode == b.rootNode && c.child == b.child
    ensures N.At(g, id).kind.Root? ==> r == Success((b, cursor))
    ensures r.Success? && !N.At(g, id).kind.Root? ==>
      r.value.0.nodes == b.nodes + [B.ParsedCommandNode(id, Between(cursor, r.value.1))]
  {
    var n := N.At(g, id);
    match n.kind
    case Root => Success((b, cursor))
    case Literal(_, _) => LiteralNode.ParseInto(id, n, text, cursor, b)
    case Argument(_, _, _) =>
      var r := ArgumentNode.ParseInto(id, n, text, cursor, b);
      if r.Success? then Success(r.value)
      else if r.error.Syntax? then Failure(r.error.error)
      else Failure(WithContext(DispatcherParseException(r.error.message), text, cursor))
  }

  /**
   * `child.parse(reader, context)` followed by the check that the separator
   * or the end comes next: a parse that stops before any other character
   * fails with `DISPATCHER_EXPECTED_ARGUMENT_SEPARATOR`.
   */
  function ChildParsed(g: N.Graph, id: N.NodeId, text: string, cursor: nat, b: B.BuilderState)
    : (r: Result<(B.BuilderState, nat), SyntaxException>)
    requires cursor <= |text|
    ensures r.Success? <==> NodeParsed(g, id, text, cursor, b).Success? && LiteralNode.EndsWord(text, NodeParsed(g, id, text, cursor, b).value.1)
    ensures r.Success? ==> r == NodeParsed(g, id, text, cursor, b)
    ensures r.Failure? && NodeParsed(g, id, text, cursor, b).Success? ==>
      r.error == WithContext(DispatcherExpectedArgumentSeparator, text, NodeParsed(g, id, text, cursor, b).value.1)
  {
    var parsed := NodeParsed(g, id, text, cursor, b);
    if parsed.Failure? then parsed
    else if parsed.value.1 < |text| && text[parsed.value.1] != ARGUMENT_SEPARATOR then
      Failure(WithContext(DispatcherExpectedArgumentSeparator, text, parsed.value.1))
    else parsed
  }

  /** What one relevant child contributes to `parseNodes`. */
  datatype Step =
    | Unusable
    | Failed(error: SyntaxException)
    | Redirected(results: ParseResults)
    | Candidate(results: ParseResults)

  /**
   * The candidate order of `parseNodes`: a parse that used up the input
   * ranks before one that did not, and then one without exceptions before
   * one with them.
   */
  function Rank(p: ParseResults): nat
  {
    (if p.cursor < |p.text| then 2 else 0) + (if |p.exceptions| > 0 then 1 else 0)
  }

  /**
   * Where the first candidate after the stable sort of `parseNodes` is:
   * the first of least rank.
   */
  function BestIndex(ps: seq<ParseResults>): (k: nat)
    requires |ps| > 0
    ensures k < |ps|
    ensures forall i :: 0 <= i < |ps| ==> Rank(ps[k]) <= Rank(ps[i])
    ensures forall i :: 0 <= i < k ==> Rank(ps[i]) > Rank(ps[k])
  {
    if |ps| == 1 then 0
    else
      var k := BestIndex(ps[1..]);
      assert ps[1..][k] == ps[k + 1];
      assert forall i :: 1 <= i < |ps| ==> ps[i] == ps[1..][i - 1];
      if Rank(ps[0]) <= Rank(ps[k + 1]) then 0 else k + 1
  }

  /** The candidate `parseNodes` returns. */
  function Best(ps: seq<ParseResults>): (r: ParseResults)
    requires |ps| > 0
  {
    ps[BestIndex(ps)]
  }

  /** Where reading goes on after `reader.skip()`; past the end it stays at the end. */
  function Skipped(text: string, end: nat): (next: nat)
    requires end <= |text|
    ensures next <= |text|
  {
    if end < |text| then end + 1 else end
  }

  /**
   * The body of the loop of `parseNodes` for one child: a child the sender
   * may not use is passed over; a failed parse is recorded; a parse that
   * succeeds goes on as `Continued` says.
   */
  function StepOf(g: N.Graph, child: N.NodeId, text: string, cursor: nat, b: B.BuilderState, fuel: nat): Step
    requires cursor <= |text| && fuel > 0
    decreases fuel, 1
  {
    if !N.CanUse(N.At(g, child), b.sender) then Unusable
    else match ChildParsed(g, child, text, cursor, B.Copied(b))
      case Failure(e) => Failed(e)
      case Success((parsed, end)) => Continued(g, child, text, end, parsed, b.sender, fuel)
  }

  /**
   * The rest of the loop body after a child parsed up to `end`: the
   * child's command is set, and when more input follows (or the child has
   * a default node) a redirect parses on from its target with a new
   * builder and ends the loop, and any other child parses on from itself.
   */
  function Continued(g: N.Graph, child: N.NodeId, text: string, end: nat, parsed: B.BuilderState, sender: N.Sender, fuel: nat): Step
    requires end <= |text| && fuel > 0
    decreases fuel, 0
  {
    var n := N.At(g, child);
    var context := parsed.(command := n.command);
    if end + (if n.redirect.None? then 2 else 1) <= |text| || n.defaultCommandNode.Some? then
      var next := Skipped(text, end);
      if n.redirect.Some? then
        var target := n.redirect.value;
        var parse := ParseFrom(g, target, text, next, B.Fresh(next, target, sender), fuel - 1);
        Redirected(ParseResults(context.(child := Some(parse.builder)), parse.text, parse.cursor, parse.exceptions))
      else Candidate(ParseFrom(g, child, text, next, context, fuel - 1))
    else Candidate(ParseResults(context, text, end, []))
  }

  /** The loop of `parseNodes` over the relevant children, then the choice among the candidates. */
  function Scan(g: N.Graph, children: seq<N.NodeId>, text: string, cursor: nat, b: B.BuilderState, fuel: nat,
                errors: seq<(N.NodeId, SyntaxException)>, potentials: seq<ParseResults>): ParseResults
    requires cursor <= |text| && fuel > 0
    decreases fuel, 2, |children|
  {
    if |children| == 0 then
      if |potentials| == 0 then ParseResults(b, text, cursor, errors) else Best(potentials)
    else
      match StepOf(g, children[0], text, cursor, b, fuel)
      case Unusable => Scan(g, children[1..], text, cursor, b, fuel, errors, potentials)
      case Failed(e) => Scan(g, children[1..], text, cursor, b, fuel, errors + [(children[0], e)], potentials)
      case Redirected(p) => p
      case Candidate(p) => Scan(g, children[1..], text, cursor, b, fuel, errors, potentials + [p])
  }

  /**
   * `parseNodes(node, reader, builder)` from `cursor`; `fuel` bounds the
   * depth of the recursion, which a cycle of default nodes could make
   * endless.
   */
  function ParseFrom(g: N.Graph, node: N.NodeId, text: string, cursor: nat, b: B.BuilderState, fuel: nat): ParseResults
    requires cursor <= |text|
    decreases fuel, 3
  {
    if fuel == 0 then ParseResults(b, text, cursor, [])
    else Scan(g, N.RelevantNodes(g, node, text, cursor), text, cursor, b, fuel, [], [])
  }

  /**
   * When no relevant child parses, `parseNodes` returns the builder it was
   * given, with the reader at the cursor it started from, and records the
   * exception of exactly the children that failed, in order, after those
   * already recorded.
   */
  lemma {:induction false} ScanNoneParses(g: N.Graph, children: seq<N.NodeId>, text: string, cursor: nat, b: B.BuilderState,
                                         fuel: nat, errors: seq<(N.NodeId, SyntaxException)>)
    requires cursor <= |text| && fuel > 0
    requires forall i :: 0 <= i < |children| ==>
      StepOf(g, children[i], text, cursor, b, fuel).Unusable? || StepOf(g, children[i], text, cursor, b, fuel).Failed?
    ensures var r := Scan(g, children, text, cursor, b, fuel, errors, []);
      && r.builder == b && r.cursor == cursor && r.text == text
      && |errors| <= |r.exceptions| && r.exceptions[..|errors|] == errors
      && (forall k :: |errors| <= k < |r.exceptions| ==>
            r.exceptions[k].0 in children && StepOf(g, r.exceptions[k].0, text, cursor, b, fuel) == Failed(r.exceptions[k].1))
      && (forall i :: 0 <= i < |children| && StepOf(g, children[i], text, cursor, b, fuel).Failed? ==>
            (children[i], StepOf(g, children[i], text, cursor, b, fuel).error) in r.exceptions)
    decreases |children|
  {
    if |children| > 0 {
      var s := StepOf(g, children[0], text, cursor, b, fuel);
      var errors' := if s.Failed? then errors + [(children[0], s.error)] else errors;
      var rest := children[1..];
      assert forall i :: 0 <= i < |rest| ==> rest[i] == children[i + 1];
      ScanNoneParses(g, rest, text, cursor, b, fuel, errors');
      var r := Scan(g, children, text, cursor, b, fuel, errors, []);
      assert r == Scan(g, rest, text, cursor, b, fuel, errors', []);
      assert r.exceptions[..|errors|] == errors by {
        assert r.exceptions[..|errors'|] == errors';
        assert r.exceptions[..|errors|] == r.exceptions[..|errors'|][..|errors|];
      }
      forall k | |errors| <= k < |r.exceptions|
        ensures r.exceptions[k].0 in children && StepOf(g, r.exceptions[k].0, text, cursor, b, fuel) == Failed(r.exceptions[k].1)
      {
        if k < |errors'| {
          assert r.exceptions[k] == errors'[k] == (children[0], s.error);
        }
      }
      forall i | 0 <= i < |children| && StepOf(g, children[i], text, cursor, b, fuel).Failed?
        ensures (children[i], StepOf(g, children[i], text, cursor, b, fuel).error) in r.exceptions
      {
        if i == 0 {
          assert r.exceptions[|errors|] == errors'[|errors|];
        } else {
          assert children[i] == rest[i - 1];
        }
      }
    }
  }

  /**
   * What parsing keeps: the text, a cursor that only moves forward within
   * it, the nodes already parsed, which new nodes follow, and the sender
   * and root of the builder.
   */
  predicate Extends(b: B.BuilderState, text: string, cursor: nat, r: ParseResults)
  {
    && r.text == text && cursor <= r.cursor <= |text|
    && b.nodes <= r.builder.nodes && r.builder.sender == b.sender && r.builder.rootNode == b.rootNode
  }

  /** `parseNodes` keeps what `Extends` says, whichever way it reads the input. */
  lemma {:induction false} ParseFromExtends(g: N.Graph, node: N.NodeId, text: string, cursor: nat, b: B.BuilderState, fuel: nat)
    requires cursor <= |text|
    ensures Extends(b, text, cursor, ParseFrom(g, node, text, cursor, b, fuel))
    decreases fuel, 3
  {
    if fuel > 0 {
      ScanExtends(g, N.RelevantNodes(g, node, text, cursor), text, cursor, b, fuel, [], []);
    }
  }

  lemma {:induction false} ScanExtends(g: N.Graph, children: seq<N.NodeId>, text: string, cursor: nat, b: B.BuilderState, fuel: nat,
                                      errors: seq<(N.NodeId, SyntaxException)>, potentials: seq<ParseResults>)
    requires cursor <= |text| && fuel > 0
    requires forall i :: 0 <= i < |potentials| ==> Extends(b, text, cursor, potentials[i])
    ensures Extends(b, text, cursor, Scan(g, children, text, cursor, b, fuel, errors, potentials))
    decreases fuel, 2, |children|
  {
    if |children| > 0 {
      var s := StepOf(g, children[0], text, cursor, b, fuel);
      StepOfExtends(g, children[0], text, cursor, b, fuel);
      if s.Candidate? {
        var ps := potentials + [s.results];
        assert forall i :: 0 <= i < |ps| ==> Extends(b, text, cursor, ps[i]);
        ScanExtends(g, children[1..], text, cursor, b, fuel, errors, ps);
      } else if s.Failed? {
        ScanExtends(g, children[1..], text, cursor, b, fuel, errors + [(children[0], s.error)], potentials);
      } else if s.Unusable? {
        ScanExtends(g, children[1..], text, cursor, b, fuel, errors, potentials);
      }
    }
  }

  lemma {:induction false} StepOfExtends(g: N.Graph, child: N.NodeId, text: string, cursor: nat, b: B.BuilderState, fuel: nat)
    requires cursor <= |text| && fuel > 0
    ensures var s := StepOf(g, child, text, cursor, b, fuel);
      s.Redirected? || s.Candidate? ==> Extends(b, text, cursor, s.results)
    decreases fuel, 1
  {
    if N.CanUse(N.At(g, child), b.sender) {
      var c := ChildParsed(g, child, text, cursor, B.Copied(b));
      if c.Success? {
        var (parsed, end) := c.value;
        ContinuedExtends(g, child, text, end, parsed, b.sender, fuel);
      }
    }
  }

  lemma {:induction false} ContinuedExtends(g: N.Graph, child: N.NodeId, text: string, end: nat, parsed: B.BuilderState,
                                           sender: N.Sender, fuel: nat)
    requires end <= |text| && fuel > 0
    ensures var s := Continued(g, child, text, end, parsed, sender, fuel);
      s.Redirected? || s.Candidate? ==> Extends(parsed, text, end, s.results)
    decreases fuel, 0
  {
    var n := N.At(g, child);
    var context := parsed.(command := n.command);
    if end + (if n.redirect.None? then 2 else 1) <= |text| || n.defaultCommandNode.Some? {
      var next := Skipped(text, end);
      if n.redirect.Some? {
        ParseFromExtends(g, n.redirect.value, text, next, B.Fresh(next, n.redirect.value, sender), fuel - 1);
      } else {
        ParseFromExtends(g, child, text, next, context, fuel - 1);
      }
    }
  }

  /** `child.parse(reader, context)`, on objects. */
  method ParseNode(tree: N.CommandGraph, id: N.NodeId, reader: Reader.TextReader, context: B.CommandContextBuilder)
    returns (error: Option<SyntaxException>)
    requires reader.Valid()
    modifies reader, context
    ensures reader.Valid()
    ensures var r := NodeParsed(tree.nodes, id, reader.text, old(reader.cursor), old(context.State()));
      && (r.Success? ==> error.None? && context.State() == r.value.0 && reader.cursor == r.value.1)
      && (r.Failure? ==> error == Some(r.error))
  {
    var n := N.At(tree.nodes, id);
    match n.kind {
      case Root =>
        error := None;
      case Literal(_, _) =>
        error := LiteralNode.Parse(id, n, reader, context);
      case Argument(_, _, _) =>
        var thrown := ArgumentNode.Parse(id, n, reader, context);
        if thrown.None? {
          error := None;
        } else if thrown.value.Syntax? {
          error := Some(thrown.value.error);
        } else {
          error := Some(WithContext(DispatcherParseException(thrown.value.message), reader.text, reader.cursor));
        }
    }
  }

  /** `child.parse(reader, context)` and the separator check, on objects. */
  method ParseChild(tree: N.CommandGraph, id: N.NodeId, reader: Reader.TextReader, context: B.CommandContextBuilder)
    returns (error: Option<SyntaxException>)
    requires reader.Valid()
    modifies reader, context
    ensures reader.Valid()
    ensures var r := ChildParsed(tree.nodes, id, reader.text, old(reader.cursor), old(context.State()));
      && (r.Success? ==> error.None? && context.State() == r.value.0 && reader.cursor == r.value.1)
      && (r.Failure? ==> error == Some(r.error))
  {
    error := ParseNode(tree, id, reader, context);
    if error.None? && reader.CanRead(1) && reader.Peek() != ARGUMENT_SEPARATOR {
      error := Some(WithContext(DispatcherExpectedArgumentSeparator, reader.text, reader.cursor));
    }
  }

  /** One pass of the loop of `parseNodes`, on objects: a fresh copy of the builder and of the reader for the child. */
  method TryChild(tree: N.CommandGraph, child: N.NodeId, originalReader: Reader.TextReader,
                  builder: B.CommandContextBuilder, fuel: nat) returns (step: Step)
    requires originalReader.Valid() && fuel > 0
    ensures step == StepOf(tree.nodes, child, originalReader.text, originalReader.cursor, builder.State(), fuel)
    decreases fuel, 1
  {
    if !N.CanUse(N.At(tree.nodes, child), builder.sender) {
      return Unusable;
    }
    var context := builder.Copy();
    var reader := new Reader.TextReader.Copy(originalReader);
    var error := ParseChild(tree, child, reader, context);
    if error.Some? {
      reader.SetCursor(originalReader.cursor);
      return Failed(error.value);
    }
    step := ContinueChild(tree, child, reader, context, builder.sender, fuel);
  }

  /** The rest of the loop body, on objects, after the child parsed. */
  method ContinueChild(tree: N.CommandGraph, child: N.NodeId, reader: Reader.TextReader,
                       context: B.CommandContextBuilder, sender: N.Sender, fuel: nat) returns (step: Step)
    requires reader.Valid() && fuel > 0
    modifies reader, context
    ensures step == Continued(tree.nodes, child, reader.text, old(reader.cursor), old(context.State()), sender, fuel)
    decreases fuel, 0
  {
    var n := N.At(tree.nodes, child);
    context.WithCommand(n.command);
    if reader.CanRead(if n.redirect.None? then 2 else 1) || n.defaultCommandNode.Some? {
      if reader.CanRead(1) {
        reader.Skip();
      }
      if n.redirect.Some? {
        var target := n.redirect.value;
        var targetBuilder := new B.CommandContextBuilder(reader.cursor, target, sender);
        var parse := ParseNodes(tree, target, reader, targetBuilder, fuel - 1);
        context.WithChild(parse.builder);
        return Redirected(ParseResults(context.State(), parse.text, parse.cursor, parse.exceptions));
      }
      var parse := ParseNodes(tree, child, reader, context, fuel - 1);
      return Candidate(parse);
    }
    return Candidate(ParseResults(context.State(), reader.text, reader.cursor, []));
  }

  /** `parseNodes(node, originalReader, builder)`: the reader is left where it was. */
  method ParseNodes(tree: N.CommandGraph, node: N.NodeId, originalReader: Reader.TextReader,
                    builder: B.CommandContextBuilder, fuel: nat) returns (r: ParseResults)
    requires originalReader.Valid()
    modifies originalReader
    ensures originalReader.Valid() && originalReader.cursor == old(originalReader.cursor)
    ensures r == ParseFrom(tree.nodes, node, originalReader.text, originalReader.cursor, builder.State(), fuel)
    decreases fuel, 3
  {
    var cursor := originalReader.cursor;
    if fuel == 0 {
      return ParseResults(builder.State(), originalReader.text, cursor, []);
    }
    var children := tree.GetRelevantNodes(node, originalReader);
    ghost var b := builder.State();
    var errors: seq<(N.NodeId, SyntaxException)> := [];
    var potentials: seq<ParseResults> := [];
    var i := 0;
    while i < |children|
      invariant 0 <= i <= |children|
      invariant originalReader.Valid() && originalReader.cursor == cursor && builder.State() == b
      invariant Scan(tree.nodes, children, originalReader.text, cursor, b, fuel, [], [])
             == Scan(tree.nodes, children[i..], originalReader.text, cursor, b, fuel, errors, potentials)
    {
      assert children[i..][0] == children[i] && children[i..][1..] == children[i + 1..];
      var step := TryChild(tree, children[i], originalReader, builder, fuel);
      match step {
        case Unusable =>
        case Failed(e) => errors := errors + [(children[i], e)];
        case Redirected(p) => return p;
        case Candidate(p) => potentials := potentials + [p];
      }
      i := i + 1;
    }
    if |potentials| == 0 {
      return ParseResults(builder.State(), originalReader.text, cursor, errors);
    }
    r := Best(potentials);
  }

  /** What running a command does: the count it returns, or the syntax exception it throws. */
  type Run = (N.CommandId, B.BuilderState) -> Result<int, SyntaxException>

  /** What a redirect modifier does: the senders to go on with, or the syntax exception it throws. */
  type Modify = (N.ModifierId, B.BuilderState) -> Result<seq<N.Sender>, SyntaxException>

  /** `copyFor(sender)`: the context with the sender replaced (the same context when the sender is the same). */
  function CopyFor(c: B.BuilderState, sender: N.Sender): (r: B.BuilderState)
    ensures B.Depth(r) == B.Depth(c) && r.sender == sender
  {
    c.(sender := sender)
  }

  /** The copies of a context for each sender, in order. */
  function CopiesFor(c: B.BuilderState, senders: seq<N.Sender>): (r: seq<B.BuilderState>)
    ensures |r| == |senders|
    ensures forall i :: 0 <= i < |r| ==> r[i] == CopyFor(c, senders[i])
  {
    seq(|senders|, i requires 0 <= i < |senders| => CopyFor(c, senders[i]))
  }

  /**
   * The local state of `execute`: the merged counts of the commands run and
   * of the successful forks, whether a fork was met, whether a command was
   * found, and the contexts of the next level.
   */
  datatype Progress = Progress(result: int, successfulForks: int, forked: bool, foundCommand: bool, next: seq<B.BuilderState>)

  /**
   * One context of a level of `execute`.  A context with a child passes the
   * child on, with the context's sender or, through the redirect modifier,
   * once per sender it returns; a context without one runs its command.
   * An exception ends `execute` unless a fork has been met.
   */
  function Visit(c: B.BuilderState, p: Progress, run: Run, apply: Modify): (r: Result<Progress, SyntaxException>)
    ensures r.Success? ==> p.next <= r.value.next
    ensures r.Success? ==> r.value.forked == (p.forked || (c.child.Some? && c.fork))
    ensures r.Success? && p.foundCommand ==> r.value.foundCommand
    ensures r.Failure? ==> !p.forked && !(c.child.Some? && c.fork)
  {
    if c.child.Some? then
      var forked := p.forked || c.fork;
      var child := c.child.value;
      if |child.nodes| == 0 then Success(p.(forked := forked))
      else if c.modifier.None? then Success(p.(forked := forked, foundCommand := true, next := p.next + [CopyFor(child, c.sender)]))
      else match apply(c.modifier.value, c)
        case Success(senders) => Success(p.(forked := forked, foundCommand := true, next := p.next + CopiesFor(child, senders)))
        case Failure(e) => if forked then Success(p.(forked := forked, foundCommand := true)) else Failure(e)
    else if c.command.None? then Success(p)
    else match run(c.command.value, c)
      case Success(v) =>
        Success(p.(foundCommand := true, result := WrapInt32(p.result + v), successfulForks := WrapInt32(p.successfulForks + 1)))
      case Failure(e) => if p.forked then Success(p.(foundCommand := true)) else Failure(e)
  }

  /** The `for` loop over the contexts of one level. */
  function VisitAll(cs: seq<B.BuilderState>, p: Progress, run: Run, apply: Modify): Result<Progress, SyntaxException>
    decreases |cs|
  {
    if |cs| == 0 then Success(p)
    else match Visit(cs[0], p, run, apply)
      case Failure(e) => Failure(e)
      case Success(q) => VisitAll(cs[1..], q, run, apply)
  }

  /** One more than the deepest chain of children among `cs`; 0 for no contexts. */
  function Height(cs: seq<B.BuilderState>): (h: nat)
    ensures forall i :: 0 <= i < |cs| ==> 1 + B.Depth(cs[i]) <= h
    ensures |cs| > 0 ==> h > 0
  {
    if |cs| == 0 then 0
    else
      var rest := Height(cs[1..]);
      assert forall i :: 1 <= i < |cs| ==> cs[i] == cs[1..][i - 1];
      if 1 + B.Depth(cs[0]) >= rest then 1 + B.Depth(cs[0]) else rest
  }

  /** Contexts all shallower than `h` have a height below `h`. */
  lemma {:induction false} HeightBelow(cs: seq<B.BuilderState>, h: nat)
    requires h > 0 && forall i :: 0 <= i < |cs| ==> 1 + B.Depth(cs[i]) < h
    ensures Height(cs) < h
  {
    if |cs| > 0 {
      assert forall i :: 0 <= i < |cs[1..]| ==> cs[1..][i] == cs[i + 1];
      HeightBelow(cs[1..], h);
    }
  }

  /** A level passes on only children of its contexts, each one shallower than they are. */
  lemma {:induction false} VisitAllShallower(cs: seq<B.BuilderState>, p: Progress, run: Run, apply: Modify, h: nat)
    requires forall i :: 0 <= i < |cs| ==> 1 + B.Depth(cs[i]) <= h
    requires forall i :: 0 <= i < |p.next| ==> 1 + B.Depth(p.next[i]) < h
    ensures VisitAll(cs, p, run, apply).Success? ==>
      forall i :: 0 <= i < |VisitAll(cs, p, run, apply).value.next| ==> 1 + B.Depth(VisitAll(cs, p, run, apply).value.next[i]) < h
    decreases |cs|
  {
    if |cs| > 0 {
      var v := Visit(cs[0], p, run, apply);
      if v.Success? {
        var q := v.value;
        forall i | 0 <= i < |q.next| ensures 1 + B.Depth(q.next[i]) < h {
          if i >= |p.next| {
            assert cs[0].child.Some? && B.Depth(cs[0]) == 1 + B.Depth(cs[0].child.value);
          }
        }
        assert forall i :: 0 <= i < |cs[1..]| ==> cs[1..][i] == cs[i + 1];
        VisitAllShallower(cs[1..], q, run, apply, h);
      }
    }
  }

  /** The `while` loop of `execute`, level by level, until a level passes nothing on. */
  function Levels(cs: seq<B.BuilderState>, p: Progress, run: Run, apply: Modify): Result<Progress, SyntaxException>
    decreases Height(cs)
  {
    if |cs| == 0 then Success(p)
    else
      var v := VisitAll(cs, p.(next := []), run, apply);
      if v.Failure? then Failure(v.error)
      else
        VisitAllShallower(cs, p.(next := []), run, apply, Height(cs));
        HeightBelow(v.value.next, Height(cs));
        Levels(v.value.next, v.value.(next := []), run, apply)
  }

  /**
   * `execute(parse)`: input left unread is the single exception of the
   * parse, or `DISPATCHER_UNKNOWN_COMMAND` when nothing was parsed, else
   * `DISPATCHER_UNKNOWN_ARGUMENT`; otherwise the contexts are executed, and
   * `DISPATCHER_UNKNOWN_COMMAND` is thrown when none had a command.  A
   * forked execution returns how many commands succeeded, another the
   * merged counts of the commands.
   */
  function Executed(parse: ParseResults, run: Run, apply: Modify): Result<int, SyntaxException>
  {
    if parse.cursor < |parse.text| then
      if |parse.exceptions| == 1 then Failure(parse.exceptions[0].1)
      else if IsEmpty(parse.builder.range) then Failure(WithContext(DispatcherUnknownCommand, parse.text, parse.cursor))
      else Failure(WithContext(DispatcherUnknownArgument, parse.text, parse.cursor))
    else
      var v := Levels([parse.builder], Progress(0, 0, false, false, []), run, apply);
      if v.Failure? then Failure(v.error)
      else if !v.value.foundCommand then Failure(WithContext(DispatcherUnknownCommand, parse.text, parse.cursor))
      else Success(if v.value.forked then v.value.successfulForks else v.value.result)
  }

  /** Input left unread is never executed: the error is the parse's single exception, or says what was unknown. */
  lemma ExecuteRejectsUnread(parse: ParseResults, run: Run, apply: Modify)
    requires parse.cursor < |parse.text|
    ensures Executed(parse, run, apply).Failure?
    ensures |parse.exceptions| == 1 ==> Executed(parse, run, apply).error == parse.exceptions[0].1
    ensures |parse.exceptions| != 1 && IsEmpty(parse.builder.range) ==>
      Executed(parse, run, apply).error == WithContext(DispatcherUnknownCommand, parse.text, parse.cursor)
    ensures |parse.exceptions| != 1 && !IsEmpty(parse.builder.range) ==>
      Executed(parse, run, apply).error == WithContext(DispatcherUnknownArgument, parse.text, parse.cursor)
  {
  }

  /** A parse that reached a command, with no redirect, returns what running the command returns. */
  lemma ExecuteRunsCommand(parse: ParseResults, run: Run, apply: Modify, k: N.CommandId)
    requires parse.cursor >= |parse.text| && parse.builder.child.None? && parse.builder.command == Some(k)
    requires run(k, parse.builder).Success? ==> IsInt32(run(k, parse.builder).value)
    ensures Executed(parse, run, apply) == run(k, parse.builder)
  {
    var p0 := Progress(0, 0, false, false, []);
    var cs := [parse.builder];
    assert cs[1..] == [];
    var v := Visit(parse.builder, p0, run, apply);
    assert VisitAll(cs, p0, run, apply) == v;
    if v.Success? {
      var q := v.value;
      assert q.next == [] && q.foundCommand && !q.forked && q.result == run(k, parse.builder).value;
      assert Levels(cs, p0, run, apply) == Levels([], q, run, apply) == Success(q);
    }
  }

  /** A parse that reached no command is `DISPATCHER_UNKNOWN_COMMAND`. */
  lemma ExecuteWithoutCommand(parse: ParseResults, run: Run, apply: Modify)
    requires parse.cursor >= |parse.text| && parse.builder.child.None? && parse.builder.command.None?
    ensures Executed(parse, run, apply) == Failure(WithContext(DispatcherUnknownCommand, parse.text, parse.cursor))
  {
    var p0 := Progress(0, 0, false, false, []);
    var cs := [parse.builder];
    assert cs[1..] == [];
    assert VisitAll(cs, p0, run, apply) == Success(p0);
    assert Levels([], p0, run, apply) == Success(p0);
  }

  /** How many of the senders the command succeeds for, run on the child context copied for each. */
  function Successes(run: Run, k: N.CommandId, child: B.BuilderState, senders: seq<N.Sender>): (n: nat)
    ensures n <= |senders|
  {
    if |senders| == 0 then 0
    else (if run(k, CopyFor(child, senders[0])).Success? then 1 else 0) + Successes(run, k, child, senders[1..])
  }

  /** Once a fork was met, a level of commands counts its successes, and a failing command stops nothing. */
  lemma {:induction false} ForkedLevelCounts(run: Run, apply: Modify, k: N.CommandId, child: B.BuilderState,
                                            senders: seq<N.Sender>, p: Progress)
    requires p.forked && p.foundCommand && IsInt32(p.successfulForks)
    requires child.child.None? && child.command == Some(k)
    ensures var v := VisitAll(CopiesFor(child, senders), p, run, apply);
      && v.Success? && v.value.next == p.next && v.value.forked && v.value.foundCommand
      && v.value.successfulForks == WrapInt32(p.successfulForks + Successes(run, k, child, senders))
    decreases |senders|
  {
    var cs := CopiesFor(child, senders);
    if |senders| > 0 {
      assert cs[1..] == CopiesFor(child, senders[1..]);
      var q := Visit(cs[0], p, run, apply).value;
      ForkedLevelCounts(run, apply, k, child, senders[1..], q);
      var rest := Successes(run, k, child, senders[1..]);
      var ok := if run(k, CopyFor(child, senders[0])).Success? then 1 else 0;
      assert q.successfulForks == WrapInt32(p.successfulForks + ok);
      CommandResult.WrapCongruent(q.successfulForks + rest, p.successfulForks + ok + rest);
    }
  }

  /**
   * A forking redirect whose modifier returns some senders runs the
   * command of its target once per sender and returns how many of those
   * runs succeeded; a failing run throws nothing.
   */
  lemma ExecuteForkCounts(parse: ParseResults, run: Run, apply: Modify, m: N.ModifierId, k: N.CommandId, senders: seq<N.Sender>)
    requires parse.cursor >= |parse.text|
    requires var b := parse.builder;
      && b.fork && b.child.Some? && |b.child.value.nodes| > 0 && b.modifier == Some(m) && apply(m, b) == Success(senders)
      && b.child.value.child.None? && b.child.value.command == Some(k)
    ensures Executed(parse, run, apply) == Success(WrapInt32(Successes(run, k, parse.builder.child.value, senders)))
  {
    var b := parse.builder;
    var child := b.child.value;
    var p0 := Progress(0, 0, false, false, []);
    var cs := [b];
    assert cs[1..] == [];
    assert p0.next + CopiesFor(child, senders) == CopiesFor(child, senders);
    var p1 := Progress(0, 0, true, true, CopiesFor(child, senders));
    assert Visit(b, p0, run, apply) == Success(p1);
    assert VisitAll(cs, p0, run, apply) == Success(p1);
    var p2 := p1.(next := []);
    assert Levels(cs, p0, run, apply) == Levels(p1.next, p2, run, apply);
    if |senders| == 0 {
      assert Levels(p1.next, p2, run, apply) == Success(p2);
    } else {
      ForkedLevelCounts(run, apply, k, child, senders, p2);
      var q := VisitAll(p1.next, p2, run, apply).value;
      assert Levels(p1.next, p2, run, apply) == Levels([], q, run, apply) == Success(q);
    }
  }

  /** Every count a command returns is a Java `int`. */
  ghost predicate RunsInt32(run: Run)
  {
    forall id, c :: run(id, c).Success? ==> IsInt32(run(id, c).value)
  }

  /** The body of the `for` loop of `execute` for one context, on the result objects. */
  method VisitContext(c: B.BuilderState, result: CommandResult.SimpleCommandResult, successfulForks: CommandResult.SimpleCommandResult,
                      forked: bool, foundCommand: bool, next: seq<B.BuilderState>, run: Run, apply: Modify)
    returns (thrown: Option<SyntaxException>, forked': bool, foundCommand': bool, next': seq<B.BuilderState>)
    requires result.Valid() && successfulForks.Valid() && result != successfulForks && RunsInt32(run)
    modifies result, successfulForks
    ensures result.Valid() && successfulForks.Valid()
    ensures var v := Visit(c, Progress(old(result.result), old(successfulForks.result), forked, foundCommand, next), run, apply);
      && (v.Failure? ==> thrown == Some(v.error))
      && (v.Success? ==> thrown.None? && v.value == Progress(result.result, successfulForks.result, forked', foundCommand', next'))
  {
    thrown, forked', foundCommand', next' := None, forked, foundCommand, next;
    if c.child.Some? {
      forked' := forked || c.fork;
      var child := c.child.value;
      if |child.nodes| == 0 {
        return;
      }
      foundCommand' := true;
      if c.modifier.None? {
        next' := next + [CopyFor(child, c.sender)];
        return;
      }
      var results := apply(c.modifier.value, c);
      if results.Success? {
        next' := next + CopiesFor(child, results.value);
      } else if !forked' {
        thrown := Some(results.error);
      }
      return;
    }
    if c.command.None? {
      return;
    }
    foundCommand' := true;
    var value := run(c.command.value, c);
    if value.Success? {
      var amount := CommandResult.OfAmount(value.value);
      var _ := result.Merge(amount);
      var one := CommandResult.Of();
      var _ := successfulForks.Merge(one);
    } else if !forked {
      thrown := Some(value.error);
    }
  }

  /** The `for` loop of `execute` over the contexts of one level, on the result objects. */
  method VisitLevel(contexts: seq<B.BuilderState>, result: CommandResult.SimpleCommandResult,
                    successfulForks: CommandResult.SimpleCommandResult, forked: bool, foundCommand: bool, run: Run, apply: Modify)
    returns (thrown: Option<SyntaxException>, forked': bool, foundCommand': bool, next: seq<B.BuilderState>)
    requires result.Valid() && successfulForks.Valid() && result != successfulForks && RunsInt32(run)
    modifies result, successfulForks
    ensures result.Valid() && successfulForks.Valid()
    ensures var v := VisitAll(contexts, Progress(old(result.result), old(successfulForks.result), forked, foundCommand, []), run, apply);
      && (v.Failure? ==> thrown == Some(v.error))
      && (v.Success? ==> thrown.None? && v.value == Progress(result.result, successfulForks.result, forked', foundCommand', next))
  {
    ghost var start := Progress(result.result, successfulForks.result, forked, foundCommand, []);
    forked', foundCommand', next := forked, foundCommand, [];
    var j := 0;
    while j < |contexts|
      invariant 0 <= j <= |contexts|
      invariant result.Valid() && successfulForks.Valid()
      invariant VisitAll(contexts, start, run, apply)
             == VisitAll(contexts[j..], Progress(result.result, successfulForks.result, forked', foundCommand', next), run, apply)
    {
      assert contexts[j..][0] == contexts[j] && contexts[j..][1..] == contexts[j + 1..];
      thrown, forked', foundCommand', next := VisitContext(contexts[j], result, successfulForks, forked', foundCommand', next, run, apply);
      if thrown.Some? {
        return;
      }
      j := j + 1;
    }
    thrown := None;
  }

  /** `execute(parse)`; the result consumer is not modelled. */
  method Execute(parse: ParseResults, run: Run, apply: Modify) returns (r: Result<int, SyntaxException>)
    requires RunsInt32(run)
    ensures r == Executed(parse, run, apply)
  {
    if parse.cursor < |parse.text| {
      if |parse.exceptions| == 1 {
        return Failure(parse.exceptions[0].1);
      }
      if IsEmpty(parse.builder.range) {
        return Failure(WithContext(DispatcherUnknownCommand, parse.text, parse.cursor));
      }
      return Failure(WithContext(DispatcherUnknownArgument, parse.text, parse.cursor));
    }
    var result := CommandResult.Empty();
    var successfulForks := CommandResult.Empty();
    var forked := false;
    var foundCommand := false;
    var contexts := [parse.builder];
    while |contexts| > 0
      invariant result.Valid() && successfulForks.Valid() && result != successfulForks
      invariant Levels([parse.builder], Progress(0, 0, false, false, []), run, apply)
             == Levels(contexts, Progress(result.result, successfulForks.result, forked, foundCommand, []), run, apply)
      decreases Height(contexts)
    {
      ghost var start := Progress(result.result, successfulForks.result, forked, foundCommand, []);
      var thrown, next;
      thrown, forked, foundCommand, next := VisitLevel(contexts, result, successfulForks, forked, foundCommand, run, apply);
      if thrown.Some? {
        return Failure(thrown.value);
      }
      VisitAllShallower(contexts, start, run, apply, Height(contexts));
      HeightBelow(next, Height(contexts));
      contexts := next;
    }
    if !foundCommand {
      return Failure(WithContext(DispatcherUnknownCommand, parse.text, parse.cursor));
    }
    r := Success(if forked then successfulForks.result else result.result);
  }

  /**
   * `register(commands)`: the stream checks each command as it reaches it,
   * so the commands before a default node are added and the rest are not;
   * an exception from `addChild` ends the stream as well.
   */
  function Registered(g: N.Graph, root: N.NodeId, commands: seq<N.NodeId>, fuel: nat): (r: N.Outcome)
    ensures r.error.Some? ==> r.error == Some(DEFAULT_NODE_REFUSED) || r.error == Some(N.ROOT_AS_CHILD)
    ensures |commands| > 0 && N.At(g, commands[0]).defaultNode ==> r == N.Outcome(g, Some(DEFAULT_NODE_REFUSED))
    decreases |commands|
  {
    if |commands| == 0 then N.Outcome(g, None)
    else if N.At(g, commands[0]).defaultNode then N.Outcome(g, Some(DEFAULT_NODE_REFUSED))
    else
      var first := N.AddChildTo(g, root, commands[0], fuel);
      if first.error.Some? then first
      else Registered(first.nodes, root, commands[1..], fuel)
  }

  /** Registering two lists of commands in turn is registering them together. */
  lemma {:induction false} RegisteredAppend(g: N.Graph, root: N.NodeId, a: seq<N.NodeId>, b: seq<N.NodeId>, fuel: nat)
    ensures var first := Registered(g, root, a, fuel);
      Registered(g, root, a + b, fuel) == if first.error.Some? then first else Registered(first.nodes, root, b, fuel)
    decreases |a|
  {
    if |a| > 0 {
      assert (a + b)[0] == a[0] && (a + b)[1..] == a[1..] + b;
      var first := N.AddChildTo(g, root, a[0], fuel);
      if first.error.None? && !N.At(g, a[0]).defaultNode {
        RegisteredAppend(first.nodes, root, a[1..], b, fuel);
      }
    } else {
      assert a + b == b;
    }
  }

  /** A default node ends the registration with `DEFAULT_NODE_REFUSED`: the commands before it stay added, none after it is. */
  lemma RegisterStopsAtDefault(g: N.Graph, root: N.NodeId, a: seq<N.NodeId>, d: N.NodeId, b: seq<N.NodeId>, fuel: nat)
    requires Registered(g, root, a, fuel).error.None? && N.At(Registered(g, root, a, fuel).nodes, d).defaultNode
    ensures Registered(g, root, a + [d] + b, fuel) == N.Outcome(Registered(g, root, a, fuel).nodes, Some(DEFAULT_NODE_REFUSED))
  {
    assert a + [d] + b == a + ([d] + b);
    RegisteredAppend(g, root, a, [d] + b, fuel);
  }

  /**
   * Registering keeps every node, its kind and its children; without an
   * exception every command registered is a child of the root by its name.
   */
  lemma {:induction false} RegisterGrows(g: N.Graph, root: N.NodeId, commands: seq<N.NodeId>, fuel: nat)
    ensures N.Grown(g, Registered(g, root, commands, fuel).nodes)
    ensures root in g && fuel > 0 && Registered(g, root, commands, fuel).error.None? ==>
      forall i :: 0 <= i < |commands| ==> N.Name(N.At(g, commands[i])) in N.At(Registered(g, root, commands, fuel).nodes, root).children
    decreases |commands|
  {
    if |commands| > 0 && !N.At(g, commands[0]).defaultNode {
      var first := N.AddChildTo(g, root, commands[0], fuel);
      N.AddChildToGrows(g, root, commands[0], fuel);
      if first.error.None? && root in g && fuel > 0 {
        N.AddChildToNamed(g, root, commands[0], fuel);
      }
      if first.error.None? {
        var r := Registered(first.nodes, root, commands[1..], fuel);
        RegisterGrows(first.nodes, root, commands[1..], fuel);
        N.GrownTransitive(g, first.nodes, r.nodes);
        if root in g && fuel > 0 && r.error.None? {
          assert !N.At(g, commands[0]).kind.Root?;
          forall i | 0 <= i < |commands| ensures N.Name(N.At(g, commands[i])) in N.At(r.nodes, root).children {
            if i == 0 {
              assert N.At(first.nodes, root).children.Keys <= N.At(r.nodes, root).children.Keys;
            } else {
              assert commands[1..][i - 1] == commands[i];
              assert N.Name(N.At(first.nodes, commands[i])) == N.Name(N.At(g, commands[i]));
            }
          }
        }
      }
    }
  }

  /** `unregister(names)`: `root.removeChild(name)` for each name in turn. */
  function Unregistered(g: N.Graph, root: N.NodeId, names: seq<string>): (h: N.Graph)
    ensures h.Keys == g.Keys
    ensures N.At(h, root).children.Keys <= N.At(g, root).children.Keys
    ensures forall name :: name in names ==> name !in N.At(h, root).children
    ensures forall id :: id != root ==> N.At(h, id) == N.At(g, id)
    decreases |names|
  {
    if |names| == 0 then g
    else Unregistered(N.Put(g, root, N.Detach(N.At(g, root), names[0])), root, names[1..])
  }

  /**
   * Unregistering takes exactly the names given from the root's children,
   * keeps the other children where they were and the tree map well
   * ordered, and changes no other node.
   */
  lemma {:induction false} UnregisterRemoves(g: N.Graph, root: N.NodeId, names: seq<string>)
    requires root in g && N.WellOrdered(g[root])
    ensures var h := Unregistered(g, root, names);
      && h.Keys == g.Keys && N.WellOrdered(h[root]) && h[root].kind == g[root].kind && h[root].command == g[root].command
      && (forall name :: name in h[root].children <==> name in g[root].children && name !in names)
      && (forall name :: name in h[root].children ==> h[root].children[name] == g[root].children[name])
      && (forall id :: id != root ==> N.At(h, id) == N.At(g, id))
    decreases |names|
  {
    if |names| > 0 {
      N.DetachRemoves(g[root], names[0]);
      var g1 := N.Put(g, root, N.Detach(g[root], names[0]));
      UnregisterRemoves(g1, root, names[1..]);
      forall name ensures name in names <==> name == names[0] || name in names[1..] {
        if name in names {
          var k :| 0 <= k < |names| && names[k] == name;
          if k > 0 {
            assert names[1..][k - 1] == name;
          }
        }
      }
    }
  }

  /** `findNode(path)`: the node reached from `id` by the names of the path, one child at a time. */
  function FindPath(g: N.Graph, id: N.NodeId, path: seq<string>): (r: Option<N.NodeId>)
    ensures |path| == 0 ==> r == Some(id)
    ensures |path| > 0 && path[0] !in N.At(g, id).children ==> r.None?
    ensures r.Some? && |path| > 0 ==> path[0] in N.At(g, id).children
    decreases |path|
  {
    if |path| == 0 then Some(id)
    else if path[0] in N.At(g, id).children then FindPath(g, N.At(g, id).children[path[0]], path[1..])
    else None
  }

  /** Following a path and then another is following the two together; a missing name ends the search. */
  lemma {:induction false} FindPathAppend(g: N.Graph, id: N.NodeId, p: seq<string>, q: seq<string>)
    ensures FindPath(g, id, p + q) == if FindPath(g, id, p).None? then None else FindPath(g, FindPath(g, id, p).value, q)
    decreases |p|
  {
    if |p| > 0 {
      assert (p + q)[0] == p[0] && (p + q)[1..] == p[1..] + q;
      if p[0] in N.At(g, id).children {
        FindPathAppend(g, N.At(g, id).children[p[0]], p[1..], q);
      }
    } else {
      assert p + q == q;
    }
  }

  /** A command registered without an exception is found by its name. */
  lemma RegisteredFound(g: N.Graph, root: N.NodeId, commands: seq<N.NodeId>, fuel: nat, i: nat)
    requires root in g && fuel > 0 && Registered(g, root, commands, fuel).error.None? && i < |commands|
    ensures FindPath(Registered(g, root, commands, fuel).nodes, root, [N.Name(N.At(g, commands[i]))]).Some?
  {
    RegisterGrows(g, root, commands, fuel);
  }

  /** The dispatcher: a root node created with it, in the graph of all command nodes. */
  class Dispatcher {
    const root: N.NodeId
    const tree: N.CommandGraph

    /** `new CommandDispatcher()`: a new root node with no children. */
    constructor (nodes: N.Graph, root: N.NodeId)
      ensures this.root == root && fresh(tree)
      ensures tree.nodes == nodes[root := N.BLANK]
    {
      this.root := root;
      tree := new N.CommandGraph(nodes[root := N.BLANK]);
    }

    /** `register(commands)`: adds the commands to the root, refusing a default node. */
    method Register(commands: seq<N.NodeId>, fuel: nat) returns (error: Option<string>)
      modifies tree
      ensures tree.nodes == Registered(old(tree.nodes), root, commands, fuel).nodes
      ensures error == Registered(old(tree.nodes), root, commands, fuel).error
    {
      var i := 0;
      while i < |commands|
        invariant 0 <= i <= |commands|
        invariant Registered(old(tree.nodes), root, commands, fuel) == Registered(tree.nodes, root, commands[i..], fuel)
      {
        assert commands[i..][0] == commands[i] && commands[i..][1..] == commands[i + 1..];
        if N.At(tree.nodes, commands[i]).defaultNode {
          return Some(DEFAULT_NODE_REFUSED);
        }
        error := tree.AddChild(root, commands[i], fuel);
        if error.Some? {
          return;
        }
        i := i + 1;
      }
      error := None;
    }

    /** `unregister(names)`. */
    method Unregister(names: seq<string>)
      modifies tree
      ensures tree.nodes == Unregistered(old(tree.nodes), root, names)
    {
      var i := 0;
      while i < |names|
        invariant 0 <= i <= |names|
        invariant Unregistered(old(tree.nodes), root, names) == Unregistered(tree.nodes, root, names[i..])
      {
        assert names[i..][0] == names[i] && names[i..][1..] == names[i + 1..];
        tree.RemoveChild(root, names[i]);
        i := i + 1;
      }
    }

    /** `findNode(path)`. */
    method FindNode(path: seq<string>) returns (r: Option<N.NodeId>)
      ensures r == FindPath(tree.nodes, root, path)
    {
      var node := root;
      for i := 0 to |path|
        invariant FindPath(tree.nodes, root, path) == FindPath(tree.nodes, node, path[i..])
      {
        assert path[i..][0] == path[i] && path[i..][1..] == path[i + 1..];
        var child := tree.GetChild(node, path[i]);
        if child.None? {
          return None;
        }
        node := child.value;
      }
      assert path[|path|..] == [];
      r := Some(node);
    }

    /** `parse(command, sender)`: parses from the root with a new context builder at the reader's cursor. */
    method Parse(command: Reader.TextReader, sender: N.Sender, fuel: nat) returns (r: ParseResults)
      requires command.Valid()
      modifies command
      ensures command.Valid() && command.cursor == old(command.cursor)
      ensures r == ParseFrom(tree.nodes, root, command.text, command.cursor, B.Fresh(command.cursor, root, sender), fuel)
      ensures r.text == command.text && command.cursor <= r.cursor <= |r.text|
      ensures r.builder.rootNode == root && r.builder.sender == sender
    {
      var builder := new B.CommandContextBuilder(command.cursor, root, sender);
      r := ParseNodes(tree, root, command, builder, fuel);
      ParseFromExtends(tree.nodes, root, command.text, command.cursor, builder.State(), fuel);
    }

    /** `execute(input, sender)`: executes what parsing the input gives. */
    method ExecuteInput(command: Reader.TextReader, sender: N.Sender, run: Run, apply: Modify, fuel: nat)
      returns (r: Result<int, SyntaxException>)
      requires command.Valid() && RunsInt32(run)
      modifies command
      ensures command.Valid() && command.cursor == old(command.cursor)
      ensures r == Executed(ParseFrom(tree.nodes, root, command.text, command.cursor, B.Fresh(command.cursor, root, sender), fuel), run, apply)
    {
      var parse := Parse(command, sender, fuel);
      r := Execute(parse, run, apply);
    }
  }
}
