/**
 * The command tree: `CommandNodeEnvelope`, the fields and tree operations
 * that every command node shares, and its three kinds of node (`RootNode`,
 * `LiteralNode`, `ArgumentNode`).  Nodes refer to each other by id, and a
 * `CommandGraph` holds the fields of every node by id, so that an operation
 * called on one node can change another, as it does with the Java objects.
 */
module CommandNodeEnvelope {
  import opened Wrappers
  import opened JavaText
  import opened Sorting
  import Reader = TextReader
  import IntegerArgumentType
  import StringArgumentType

  type NodeId = nat

  /** A `Command`; what running it does is a parameter of the executor. */
  type CommandId = nat

  /** A `RedirectModifier`; what it does is a parameter of the executor. */
  type ModifierId = nat

  /** A `CommandSender`, known by its name. */
  datatype Sender = Sender(name: string)

  /** A `Requirement`: a test of the sender. */
  type Requirement = Sender -> bool

  /** The argument types an `ArgumentNode` can hold. */
  datatype ArgumentType =
    | IntegerArgument(integerType: IntegerArgumentType.IntegerArgumentType)
    | StringArgument(stringType: StringArgumentType.StringArgumentType)

  /** What an argument type parses. */
  datatype ArgumentValue = IntegerValue(i: int) | StringValue(s: string)

  /** What distinguishes the three node classes. */
  datatype Kind =
    | Root
    | Literal(literal: string, aliases: seq<NodeId>)
    | Argument(name: string, argumentType: ArgumentType, defaultValue: Option<ArgumentValue>)

  /**
   * The fields of one node.  `children` is the tree map from name to
   * child, and `order` its names in the order the tree map iterates them;
   * `arguments` names the argument children in the order they were added.
   */
  datatype Node = Node(
    kind: Kind,
    children: map<string, NodeId>,
    order: seq<string>,
    arguments: seq<string>,
    hasLiterals: bool,
    command: Option<CommandId>,
    defaultCommandNode: Option<NodeId>,
    defaultNode: bool,
    fork: bool,
    redirect: Option<NodeId>,
    redirectModifier: Option<ModifierId>,
    requirements: seq<Requirement>,
    usage: string)

  type Graph = map<NodeId, Node>

  const ROOT_AS_CHILD: string := "Cannot add a RootNode as a child to any other CommandNode!"

  /** `getName()`, which is also `getKey()`: "" for the root, the literal, the argument's name. */
  function Name(n: Node): string
  {
    match n.kind
    case Root => ""
    case Literal(literal, _) => literal
    case Argument(name, _, _) => name
  }

  /** `getUsage()`: "" for the root, the usage field of a literal, `<name>` for an argument. */
  function Usage(n: Node): (r: string)
    ensures n.kind.Root? ==> r == ""
    ensures n.kind.Argument? ==> |r| == |Name(n)| + 2 && r[0] == '<' && r[1..|r| - 1] == Name(n) && r[|r| - 1] == '>'
  {
    match n.kind
    case Root => ""
    case Literal(_, _) => n.usage
    case Argument(name, _, _) => "<" + name + ">"
  }

  /** A node with no name, no children and no command. */
  const BLANK: Node := Node(Root, map[], [], [], false, None, None, false, false, None, None, [], "")

  /** The node `id` stands for; an id outside the graph stands for no node, read as `BLANK`. */
  function At(g: Graph, id: NodeId): (n: Node)
    ensures id in g ==> n == g[id]
  {
    if id in g then g[id] else BLANK
  }

  /** The graph with node `id` replaced by `n`; an id outside the graph changes nothing. */
  function Put(g: Graph, id: NodeId, n: Node): (h: Graph)
    ensures h.Keys == g.Keys
    ensures id in g ==> At(h, id) == n
    ensures forall x :: x != id ==> At(h, x) == At(g, x)
  {
    if id in g then g[id := n] else g
  }

  /** The nodes filed under `names`, in that order; names not in `m` are passed over. */
  function Lookup(m: map<string, NodeId>, names: seq<string>): (r: seq<NodeId>)
    ensures |r| <= |names|
  {
    if |names| == 0 then []
    else (if names[0] in m then [m[names[0]]] else []) + Lookup(m, names[1..])
  }

  /** Looking up names that are all in `m` gives their nodes one for one. */
  lemma {:induction false} LookupAll(m: map<string, NodeId>, names: seq<string>)
    requires forall i :: 0 <= i < |names| ==> names[i] in m
    ensures |Lookup(m, names)| == |names|
    ensures forall i :: 0 <= i < |names| ==> Lookup(m, names)[i] == m[names[i]]
  {
    if |names| > 0 {
      LookupAll(m, names[1..]);
    }
  }

  /** Every node looked up is filed in `m`. */
  lemma {:induction false} LookupValues(m: map<string, NodeId>, names: seq<string>)
    ensures forall i :: 0 <= i < |Lookup(m, names)| ==> Lookup(m, names)[i] in m.Values
  {
    if |names| > 0 {
      LookupValues(m, names[1..]);
      var rest := Lookup(m, names[1..]);
      var head := if names[0] in m then [m[names[0]]] else [];
      forall i | 0 <= i < |Lookup(m, names)| ensures Lookup(m, names)[i] in m.Values {
        if i >= |head| {
          assert Lookup(m, names)[i] == rest[i - |head|];
        }
      }
    }
  }

  /** `getChildren()`: the children in the order of their names. */
  function ChildIds(n: Node): seq<NodeId>
  {
    Lookup(n.children, n.order)
  }

  /** `arguments.values()`: the argument children in the order they were added. */
  function ArgumentIds(n: Node): seq<NodeId>
  {
    Lookup(n.children, n.arguments)
  }

  /** The natural order of names, by which the tree map keeps them. */
  predicate NameLe(a: string, b: string) { JavaText.CompareTo(a, b) <= 0 }

  lemma NameLePreorder()
    ensures Total(NameLe) && Transitive(NameLe)
  {
    forall a, b ensures NameLe(a, b) || NameLe(b, a) {
      CompareToAntisymmetric(a, b);
    }
    forall a, b, c | NameLe(a, b) && NameLe(b, c) ensures NameLe(a, c) {
      CompareToTransitive(a, b, c);
    }
  }

  /** The children's names are the keys of the tree map, in order, each once. */
  ghost predicate WellOrdered(n: Node)
  {
    && Sorted(n.order, NameLe) && NoDuplicates(n.order)
    && (forall name :: name in n.order <==> name in n.children)
    && (forall name :: name in n.arguments ==> name in n.children)
  }

  /** `children.put(name, node)` on a new name, with the literal flag or the argument entry. */
  function Attach(n: Node, name: string, id: NodeId, kind: Kind): (r: Node)
    ensures r.children == n.children[name := id]
    ensures r.kind == n.kind && r.command == n.command
  {
    n.(children := n.children[name := id],
       order := Insert(name, n.order, NameLe),
       hasLiterals := n.hasLiterals || kind.Literal?,
       arguments := if kind.Argument? then n.arguments + [name] else n.arguments)
  }

  /** `s` without `x`. */
  function Without(s: seq<string>, x: string): (r: seq<string>)
    ensures forall y :: y in r <==> y in s && y != x
    ensures |r| <= |s|
  {
    if |s| == 0 then []
    else (if s[0] == x then [] else [s[0]]) + Without(s[1..], x)
  }

  /** `removeChild(name)` on one node: the child goes from the tree map and from the arguments. */
  function Detach(n: Node, name: string): (r: Node)
    ensures r.children == n.children - {name}
    ensures name in n.children ==> name !in r.order && name !in r.arguments
    ensures forall x :: x in n.arguments && x != name ==> x in r.arguments
    ensures r.kind == n.kind && r.command == n.command && r.hasLiterals == n.hasLiterals && r.redirect == n.redirect
  {
    if name in n.children then
      n.(children := n.children - {name}, order := Without(n.order, name), arguments := Without(n.arguments, name))
    else n
  }

  /** The graph after a call, and the exception it threw, if any. */
  datatype Outcome = Outcome(nodes: Graph, error: Option<string>)

  /** What `addChild` keeps: every node, with its kind and its children. */
  predicate Grown(g: Graph, h: Graph)
  {
    && h.Keys == g.Keys
    && forall id :: id in g ==> h[id].kind == g[id].kind && g[id].children.Keys <= h[id].children.Keys
  }

  lemma GrownTransitive(g: Graph, h: Graph, k: Graph)
    requires Grown(g, h) && Grown(h, k)
    ensures Grown(g, k)
  {
  }

  /** `child.setCommand(node.getCommand())` as written: the merged child takes the command, even none. */
  function MergeCommand(existing: Option<CommandId>, incoming: Option<CommandId>): (r: Option<CommandId>)
    ensures incoming.Some? ==> r == incoming
    ensures incoming.None? ==> r.None?
  {
    incoming
  }

  /** The merge as intended: a node that has a command overwrites, one that has none keeps the child's. */
  function MergeCommandCorrected(existing: Option<CommandId>, incoming: Option<CommandId>): (r: Option<CommandId>)
    ensures r.Some? <==> existing.Some? || incoming.Some?
    ensures incoming.Some? ==> r == incoming
  {
    if incoming.Some? then incoming else existing
  }

  /**
   * `parent.addChild(node)`: a root node is refused; a literal's aliases
   * are added first; then `Place` files the node.  `fuel` bounds the depth
   * of the recursion.
   */
  function AddChildTo(g: Graph, parent: NodeId, node: NodeId, fuel: nat): (r: Outcome)
    ensures r.error.Some? ==> r.error == Some(ROOT_AS_CHILD)
    decreases fuel, 1
  {
    if fuel == 0 then Outcome(g, None)
    else if At(g, node).kind.Root? then Outcome(g, Some(ROOT_AS_CHILD))
    else
      var aliased := if At(g, node).kind.Literal? then AddChildrenTo(g, parent, At(g, node).kind.aliases, fuel - 1) else Outcome(g, None);
      if aliased.error.Some? then aliased
      else
        Place(aliased.nodes, parent, node, fuel - 1)
  }

  /**
   * The rest of `addChild`: a child of the same name takes the node's
   * command and, one by one, the node's children; otherwise the node
   * becomes a child.
   */
  function Place(g: Graph, parent: NodeId, node: NodeId, fuel: nat): (r: Outcome)
    ensures r.error.Some? ==> r.error == Some(ROOT_AS_CHILD)
    decreases fuel, 3
  {
    var name := Name(At(g, node));
    if name in At(g, parent).children then
      var existing := At(g, parent).children[name];
      var g1 := Put(g, existing, At(g, existing).(command := MergeCommand(At(g, existing).command, At(g, node).command)));
      AddChildrenTo(g1, existing, ChildIds(At(g1, node)), fuel)
    else
      Outcome(Put(g, parent, Attach(At(g, parent), name, node, At(g, node).kind)), None)
  }

  /** `nodes.forEach(parent::addChild)`: stops at the first exception. */
  function AddChildrenTo(g: Graph, parent: NodeId, ids: seq<NodeId>, fuel: nat): (r: Outcome)
    ensures r.error.Some? ==> r.error == Some(ROOT_AS_CHILD)
    decreases fuel, 2, |ids|
  {
    if |ids| == 0 then Outcome(g, None)
    else
      var first := AddChildTo(g, parent, ids[0], fuel);
      if first.error.Some? then first
      else
        AddChildrenTo(first.nodes, parent, ids[1..], fuel)
  }

  /** `addChild` keeps every node and its kind and takes no child away. */
  lemma {:induction false} AddChildToGrows(g: Graph, parent: NodeId, node: NodeId, fuel: nat)
    ensures Grown(g, AddChildTo(g, parent, node, fuel).nodes)
    decreases fuel, 1
  {
    if fuel > 0 && !At(g, node).kind.Root? {
      if At(g, node).kind.Literal? {
        var aliased := AddChildrenTo(g, parent, At(g, node).kind.aliases, fuel - 1);
        AddChildrenToGrows(g, parent, At(g, node).kind.aliases, fuel - 1);
        if aliased.error.None? {
          PlaceGrows(aliased.nodes, parent, node, fuel - 1);
          GrownTransitive(g, aliased.nodes, Place(aliased.nodes, parent, node, fuel - 1).nodes);
        }
      } else {
        PlaceGrows(g, parent, node, fuel - 1);
      }
    }
  }

  /** When `addChild` does not throw, the node (or the child it merged into) is filed under its name. */
  lemma AddChildToNamed(g: Graph, parent: NodeId, node: NodeId, fuel: nat)
    requires fuel > 0 && !At(g, node).kind.Root? && AddChildTo(g, parent, node, fuel).error.None? && parent in g
    ensures Name(At(g, node)) in At(AddChildTo(g, parent, node, fuel).nodes, parent).children
  {
    var aliased := if At(g, node).kind.Literal? then AddChildrenTo(g, parent, At(g, node).kind.aliases, fuel - 1) else Outcome(g, None);
    if At(g, node).kind.Literal? {
      AddChildrenToGrows(g, parent, At(g, node).kind.aliases, fuel - 1);
    }
    assert AddChildTo(g, parent, node, fuel) == Place(aliased.nodes, parent, node, fuel - 1);
    PlaceGrows(aliased.nodes, parent, node, fuel - 1);
    assert At(aliased.nodes, node).kind == At(g, node).kind;
  }

  lemma {:induction false} PlaceGrows(g: Graph, parent: NodeId, node: NodeId, fuel: nat)
    ensures Grown(g, Place(g, parent, node, fuel).nodes)
    ensures Place(g, parent, node, fuel).error.None? && parent in g ==>
      Name(At(g, node)) in At(Place(g, parent, node, fuel).nodes, parent).children
    decreases fuel, 3
  {
    var name := Name(At(g, node));
    if name in At(g, parent).children {
      var existing := At(g, parent).children[name];
      var g1 := Put(g, existing, At(g, existing).(command := MergeCommand(At(g, existing).command, At(g, node).command)));
      assert Grown(g, g1);
      AddChildrenToGrows(g1, existing, ChildIds(At(g1, node)), fuel);
      GrownTransitive(g, g1, Place(g, parent, node, fuel).nodes);
    } else {
      var h := Put(g, parent, Attach(At(g, parent), name, node, At(g, node).kind));
      assert Place(g, parent, node, fuel).nodes == h;
      forall id | id in g ensures h[id].kind == g[id].kind && g[id].children.Keys <= h[id].children.Keys {
        assert At(h, id) == h[id] && At(g, id) == g[id];
      }
    }
  }

  lemma {:induction false} AddChildrenToGrows(g: Graph, parent: NodeId, ids: seq<NodeId>, fuel: nat)
    ensures Grown(g, AddChildrenTo(g, parent, ids, fuel).nodes)
    decreases fuel, 2, |ids|
  {
    if |ids| > 0 {
      var first := AddChildTo(g, parent, ids[0], fuel);
      AddChildToGrows(g, parent, ids[0], fuel);
      if first.error.None? {
        AddChildrenToGrows(first.nodes, parent, ids[1..], fuel);
        GrownTransitive(g, first.nodes, AddChildrenTo(first.nodes, parent, ids[1..], fuel).nodes);
      }
    }
  }

  /** After `forEach(parent::addChild)` without an exception, every node added is a child by its name. */
  lemma {:induction false} AddChildrenToNamed(g: Graph, parent: NodeId, ids: seq<NodeId>, fuel: nat)
    requires parent in g && fuel > 0 && forall i :: 0 <= i < |ids| ==> !At(g, ids[i]).kind.Root?
    requires AddChildrenTo(g, parent, ids, fuel).error.None?
    ensures forall i :: 0 <= i < |ids| ==> Name(At(g, ids[i])) in At(AddChildrenTo(g, parent, ids, fuel).nodes, parent).children
    decreases |ids|
  {
    if |ids| > 0 {
      var first := AddChildTo(g, parent, ids[0], fuel);
      var r := AddChildrenTo(first.nodes, parent, ids[1..], fuel);
      assert AddChildrenTo(g, parent, ids, fuel) == r;
      assert first.error.None?;
      AddChildToGrows(g, parent, ids[0], fuel);
      AddChildToNamed(g, parent, ids[0], fuel);
      AddChildrenToGrows(first.nodes, parent, ids[1..], fuel);
      forall j | 0 <= j < |ids| - 1 ensures !At(first.nodes, ids[1..][j]).kind.Root? {
        assert ids[1..][j] == ids[j + 1];
      }
      AddChildrenToNamed(first.nodes, parent, ids[1..], fuel);
      assert At(first.nodes, parent).children.Keys <= At(r.nodes, parent).children.Keys;
      forall i | 0 <= i < |ids| ensures Name(At(g, ids[i])) in At(r.nodes, parent).children {
        if i == 0 {
          assert Name(At(g, ids[0])) in At(first.nodes, parent).children;
        } else {
          assert ids[1..][i - 1] == ids[i];
          assert Name(At(first.nodes, ids[i])) == Name(At(g, ids[i]));
        }
      }
    }
  }

  /** The next word of the input: up to the next space or the end. */
  predicate NotSpace(c: char) { c != ' ' }

  /**
   * `getRelevantNodes(input)`: the default node when no input is left and
   * there is one; the argument children when there is no literal child;
   * else the literal child named by the next word, if any, followed by the
   * argument children.
   */
  function RelevantNodes(g: Graph, id: NodeId, text: string, cursor: nat): (r: seq<NodeId>)
    requires cursor <= |text|
    ensures forall i :: 0 <= i < |r| ==> r[i] in At(g, id).children.Values || At(g, id).defaultCommandNode == Some(r[i])
  {
    var n := At(g, id);
    LookupValues(n.children, n.arguments);
    if cursor == |text| && n.defaultCommandNode.Some? then [n.defaultCommandNode.value]
    else if !n.hasLiterals then ArgumentIds(n)
    else
      var word := text[cursor..ScanWhile(text, cursor, NotSpace)];
      if word in n.children && At(g, n.children[word]).kind.Literal? then [n.children[word]] + ArgumentIds(n)
      else ArgumentIds(n)
  }

  /** `canUse(sender)`: every requirement accepts the sender. */
  predicate CanUse(n: Node, sender: Sender)
    ensures n.requirements == [] ==> CanUse(n, sender)
    ensures CanUse(n, sender) && |n.requirements| > 0 ==> n.requirements[|n.requirements| - 1](sender)
  {
    forall i :: 0 <= i < |n.requirements| ==> n.requirements[i](sender)
  }

  /**
   * `compareTo(o)` as written: two literals compare by key; otherwise a
   * literal ranks after anything else, and anything else ranks first.
   */
  function CompareNodes(a: Node, b: Node): (r: int)
    ensures a.kind.Literal? && b.kind.Literal? ==> r == JavaText.CompareTo(Name(a), Name(b))
    ensures !(a.kind.Literal? && b.kind.Literal?) ==> r == (if b.kind.Literal? then 1 else -1)
  {
    if a.kind.Literal? && b.kind.Literal? then JavaText.CompareTo(Name(a), Name(b))
    else if b.kind.Literal? then 1 else -1
  }

  /** `compareTo(o)` as intended: nodes of the same kind, literal or not, compare by key. */
  function CompareNodesCorrected(a: Node, b: Node): (r: int)
    ensures a.kind.Literal? != b.kind.Literal? ==> (r < 0 <==> a.kind.Literal?)
    ensures a.kind.Literal? == b.kind.Literal? ==> (r == 0 <==> Name(a) == Name(b))
  {
    CompareToZeroIff(Name(a), Name(b));
    if a.kind.Literal? == b.kind.Literal? then JavaText.CompareTo(Name(a), Name(b))
    else if b.kind.Literal? then 1 else -1
  }

  /** Adding a root node throws and changes nothing. */
  lemma AddRootRefused(g: Graph, parent: NodeId, node: NodeId, fuel: nat)
    requires fuel > 0 && At(g, node).kind.Root?
    ensures AddChildTo(g, parent, node, fuel) == Outcome(g, Some(ROOT_AS_CHILD))
  {
  }

  /**
   * An argument under a new name becomes a child of `parent` and the last
   * of its arguments; no other node changes.
   */
  lemma AddNewArgument(g: Graph, parent: NodeId, node: NodeId, fuel: nat)
    requires parent in g && fuel > 0 && At(g, node).kind.Argument?
    requires Name(At(g, node)) !in At(g, parent).children
    ensures var r := AddChildTo(g, parent, node, fuel);
      && r.error.None?
      && At(r.nodes, parent).children == At(g, parent).children[Name(At(g, node)) := node]
      && At(r.nodes, parent).arguments == At(g, parent).arguments + [Name(At(g, node))]
      && At(r.nodes, parent).hasLiterals == At(g, parent).hasLiterals
      && At(r.nodes, parent).command == At(g, parent).command
      && forall id :: id != parent ==> At(r.nodes, id) == At(g, id)
  {
  }

  /**
   * A literal without aliases under a new name becomes a child of
   * `parent`, which from then on has literals; its arguments stay.
   */
  lemma AddNewLiteral(g: Graph, parent: NodeId, node: NodeId, fuel: nat)
    requires parent in g && fuel > 0 && At(g, node).kind.Literal? && At(g, node).kind.aliases == []
    requires Name(At(g, node)) !in At(g, parent).children
    ensures var r := AddChildTo(g, parent, node, fuel);
      && r.error.None?
      && At(r.nodes, parent).children == At(g, parent).children[Name(At(g, node)) := node]
      && At(r.nodes, parent).arguments == At(g, parent).arguments
      && At(r.nodes, parent).hasLiterals
      && forall id :: id != parent ==> At(r.nodes, id) == At(g, id)
  {
    assert AddChildrenTo(g, parent, [], fuel - 1) == Outcome(g, None);
  }

  /** Inserting a new name keeps the names of a tree map sorted and distinct. */
  lemma AttachWellOrdered(n: Node, name: string, id: NodeId, kind: Kind)
    requires WellOrdered(n) && name !in n.children
    ensures WellOrdered(Attach(n, name, id, kind))
  {
    var r := Attach(n, name, id, kind);
    NameLePreorder();
    PreorderEverywhere([name] + n.order, NameLe);
    InsertSorted(name, n.order, NameLe);
    assert NoDuplicates(n.order + [name]) by {
      forall i, j | 0 <= i < j < |n.order| + 1 ensures (n.order + [name])[i] != (n.order + [name])[j] {
        if j == |n.order| {
          assert n.order[i] in n.order;
        }
      }
    }
    assert multiset(n.order + [name]) == multiset(n.order) + multiset{name};
    NoDuplicatesPermutation(r.order, n.order + [name]);
    SameElements(r.order, n.order + [name]);
  }

  /** Taking a name out keeps the names sorted. */
  lemma {:induction false} WithoutSorted(s: seq<string>, x: string)
    requires Sorted(s, NameLe)
    ensures Sorted(Without(s, x), NameLe)
  {
    if |s| > 0 {
      WithoutSorted(s[1..], x);
      var rest := Without(s[1..], x);
      forall k | 0 <= k < |rest| ensures NameLe(s[0], rest[k]) {
        assert rest[k] in s[1..];
        var j :| 0 <= j < |s[1..]| && s[1..][j] == rest[k];
        assert s[j + 1] == rest[k];
      }
    }
  }

  /** Taking a name out keeps the names distinct. */
  lemma {:induction false} WithoutNoDuplicates(s: seq<string>, x: string)
    requires NoDuplicates(s)
    ensures NoDuplicates(Without(s, x))
  {
    if |s| > 0 {
      WithoutNoDuplicates(s[1..], x);
      var rest := Without(s[1..], x);
      forall k | 0 <= k < |rest| ensures s[0] != rest[k] {
        assert rest[k] in s[1..];
        var j :| 0 <= j < |s[1..]| && s[1..][j] == rest[k];
        assert s[j + 1] == rest[k];
      }
    }
  }

  /**
   * `removeChild(name)`: the name goes from the tree map and from the
   * arguments, every other child stays, the names stay sorted, and the
   * literal flag is left as it was.
   */
  lemma DetachRemoves(n: Node, name: string)
    requires WellOrdered(n)
    ensures var r := Detach(n, name);
      && r.children == n.children - {name}
      && name !in r.order && name !in r.arguments
      && (forall x :: x in n.arguments && x != name ==> x in r.arguments)
      && r.hasLiterals == n.hasLiterals && r.command == n.command
      && WellOrdered(r)
  {
    if name in n.children {
      WithoutSorted(n.order, name);
      WithoutNoDuplicates(n.order, name);
    }
  }

  /**
   * As written, merging a node without a command into a child that has one
   * drops the child's command: `literal("child").executes(c)` and then
   * `literal("child")` leave the child with no command.
   */
  lemma AddChildDropsCommand()
    ensures var child := Node(Literal("child", []), map[], [], [], false, Some(7), None, false, false, None, None, [], "child");
      var again := child.(command := None);
      var root := BLANK.(children := map["child" := 1], order := ["child"], hasLiterals := true);
      var g := map[0 := root, 1 := child, 2 := again];
      var r := AddChildTo(g, 0, 2, 1);
      r.error.None? && At(r.nodes, 1).command == None
  {
    var child := Node(Literal("child", []), map[], [], [], false, Some(7), None, false, false, None, None, [], "child");
    var again := child.(command := None);
    var root := BLANK.(children := map["child" := 1], order := ["child"], hasLiterals := true);
    var g := map[0 := root, 1 := child, 2 := again];
    assert AddChildrenTo(g, 0, [], 0) == Outcome(g, None);
    var g1 := Put(g, 1, child.(command := None));
    assert ChildIds(At(g1, 2)) == [];
    assert AddChildrenTo(g1, 1, [], 0) == Outcome(g1, None);
  }

  /** The intended merge keeps the child's command unless the node brings one, which then wins. */
  lemma MergeCommandCorrectedKeeps(existing: Option<CommandId>, incoming: Option<CommandId>)
    ensures incoming.None? ==> MergeCommandCorrected(existing, incoming) == existing
    ensures incoming.Some? ==> MergeCommandCorrected(existing, incoming) == incoming
    ensures MergeCommand(existing, incoming) != MergeCommandCorrected(existing, incoming) <==> incoming.None? && existing.Some?
  {
  }

  /**
   * `getRelevantNodes` offers the default node alone when the input is
   * used up; otherwise the argument children, led by at most one literal
   * child, which is the one named by the next word.
   */
  lemma RelevantNodesShape(g: Graph, id: NodeId, text: string, cursor: nat)
    requires cursor <= |text|
    ensures var n := At(g, id); var r := RelevantNodes(g, id, text, cursor);
      var word := text[cursor..ScanWhile(text, cursor, NotSpace)];
      if cursor == |text| && n.defaultCommandNode.Some? then r == [n.defaultCommandNode.value]
      else
        && |ArgumentIds(n)| <= |r| <= |ArgumentIds(n)| + 1
        && r[|r| - |ArgumentIds(n)|..] == ArgumentIds(n)
        && (|r| > |ArgumentIds(n)| <==> n.hasLiterals && word in n.children && At(g, n.children[word]).kind.Literal?)
        && (|r| > |ArgumentIds(n)| ==> r[0] == n.children[word])
  {
  }

  /** `canUse`: with no requirement everyone may use a node; each requirement added must accept the sender too. */
  lemma CanUseRequirements(n: Node, sender: Sender, requirement: Requirement)
    ensures n.requirements == [] ==> CanUse(n, sender)
    ensures CanUse(n.(requirements := n.requirements + [requirement]), sender) <==> CanUse(n, sender) && requirement(sender)
  {
    var m := n.(requirements := n.requirements + [requirement]);
    if CanUse(n, sender) && requirement(sender) {
      forall i | 0 <= i < |m.requirements| ensures m.requirements[i](sender) {
        if i < |n.requirements| {
          assert m.requirements[i] == n.requirements[i];
        }
      }
    }
    if CanUse(m, sender) {
      assert m.requirements[|n.requirements|] == requirement;
      forall i | 0 <= i < |n.requirements| ensures n.requirements[i](sender) {
        assert m.requirements[i] == n.requirements[i];
      }
    }
  }

  /** As written, two argument nodes each rank before the other: `compareTo` is not antisymmetric. */
  lemma CompareNodesNotAntisymmetric(a: Node, b: Node)
    requires a.kind.Argument? && b.kind.Argument?
    ensures CompareNodes(a, b) == -1 && CompareNodes(b, a) == -1
  {
  }

  /** The intended order ranks literals first and is antisymmetric and transitive. */
  lemma CompareNodesCorrectedOrder(a: Node, b: Node, c: Node)
    ensures CompareNodesCorrected(b, a) == -CompareNodesCorrected(a, b)
    ensures a.kind.Literal? && !b.kind.Literal? ==> CompareNodesCorrected(a, b) < 0
    ensures CompareNodesCorrected(a, b) <= 0 && CompareNodesCorrected(b, c) <= 0 ==> CompareNodesCorrected(a, c) <= 0
  {
    CompareToAntisymmetric(Name(a), Name(b));
    if CompareNodesCorrected(a, b) <= 0 && CompareNodesCorrected(b, c) <= 0
      && a.kind.Literal? == b.kind.Literal? && b.kind.Literal? == c.kind.Literal? {
      CompareToTransitive(Name(a), Name(b), Name(c));
    }
  }

  /** The command nodes, by id. */
  class CommandGraph {
    var nodes: Graph

    constructor (nodes: Graph)
      ensures this.nodes == nodes
    {
      this.nodes := nodes;
    }

    /** `getChild(name)`. */
    function GetChild(parent: NodeId, name: string): (r: Option<NodeId>)
      reads this
      ensures r.Some? <==> name in At(nodes, parent).children
      ensures r.Some? ==> r.value == At(nodes, parent).children[name]
    {
      var n := At(nodes, parent);
      if name in n.children then Some(n.children[name]) else None
    }

    /** `addChild(node)` on `parent`; the error is the `UnsupportedOperationException`. */
    method AddChild(parent: NodeId, node: NodeId, fuel: nat) returns (error: Option<string>)
      modifies this
      ensures nodes == AddChildTo(old(nodes), parent, node, fuel).nodes
      ensures error == AddChildTo(old(nodes), parent, node, fuel).error
      decreases fuel, 1
    {
      if fuel == 0 {
        return None;
      }
      var n := At(nodes, node);
      if n.kind.Root? {
        return Some(ROOT_AS_CHILD);
      }
      if n.kind.Literal? {
        error := AddChildren(parent, n.kind.aliases, fuel - 1);
        if error.Some? {
          return;
        }
      }
      error := PlaceChild(parent, node, fuel - 1);
    }

    /** The rest of `addChild`: merge into a child of the same name, or file the node. */
    method PlaceChild(parent: NodeId, node: NodeId, fuel: nat) returns (error: Option<string>)
      modifies this
      ensures nodes == Place(old(nodes), parent, node, fuel).nodes
      ensures error == Place(old(nodes), parent, node, fuel).error
      decreases fuel, 3
    {
      var name := Name(At(nodes, node));
      var p := At(nodes, parent);
      if name in p.children {
        var existing := p.children[name];
        nodes := Put(nodes, existing, At(nodes, existing).(command := MergeCommand(At(nodes, existing).command, At(nodes, node).command)));
        error := AddChildren(existing, ChildIds(At(nodes, node)), fuel);
      } else {
        nodes := Put(nodes, parent, Attach(p, name, node, At(nodes, node).kind));
        error := None;
      }
    }

    /** `ids.forEach(parent::addChild)`. */
    method AddChildren(parent: NodeId, ids: seq<NodeId>, fuel: nat) returns (error: Option<string>)
      modifies this
      ensures nodes == AddChildrenTo(old(nodes), parent, ids, fuel).nodes
      ensures error == AddChildrenTo(old(nodes), parent, ids, fuel).error
      decreases fuel, 2, |ids|
    {
      var i := 0;
      while i < |ids|
        invariant 0 <= i <= |ids|
        invariant AddChildrenTo(old(nodes), parent, ids, fuel) == AddChildrenTo(nodes, parent, ids[i..], fuel)
      {
        assert ids[i..][0] == ids[i] && ids[i..][1..] == ids[i + 1..];
        error := AddChild(parent, ids[i], fuel);
        if error.Some? {
          return;
        }
        i := i + 1;
      }
      error := None;
    }

    /** `removeChild(name)` on `parent`. */
    method RemoveChild(parent: NodeId, name: string)
      modifies this
      ensures nodes == Put(old(nodes), parent, Detach(At(old(nodes), parent), name))
    {
      var n := At(nodes, parent);
      if GetChild(parent, name).Some? {
        nodes := Put(nodes, parent, n.(children := n.children - {name}, order := Without(n.order, name),
                                       arguments := Without(n.arguments, name)));
      }
    }

    /** `getRelevantNodes(input)`: reads ahead for the next word and puts the cursor back. */
    method GetRelevantNodes(id: NodeId, input: Reader.TextReader) returns (r: seq<NodeId>)
      requires input.Valid()
      modifies input
      ensures input.Valid() && input.cursor == old(input.cursor)
      ensures r == RelevantNodes(nodes, id, input.text, input.cursor)
    {
      var n := At(nodes, id);
      if !input.CanRead(1) && n.defaultCommandNode.Some? {
        return [n.defaultCommandNode.value];
      }
      if !n.hasLiterals {
        return ArgumentIds(n);
      }
      var cursor := input.cursor;
      while input.CanRead(1) && input.Peek() != ' '
        invariant input.Valid() && cursor <= input.cursor
        invariant ScanWhile(input.text, cursor, NotSpace) == ScanWhile(input.text, input.cursor, NotSpace)
        decreases |input.text| - input.cursor
      {
        input.Skip();
      }
      var text := input.text[cursor..input.cursor];
      input.SetCursor(cursor);
      if text in n.children && At(nodes, n.children[text]).kind.Literal? {
        return [n.children[text]] + ArgumentIds(n);
      }
      return ArgumentIds(n);
    }
  }
}
