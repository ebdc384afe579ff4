/**
 * The usage strings of `CommandDispatcher`: `isNodeExecutable`, the full
 * usage lines of `getAllUsage` and the condensed form of `getSmartUsage`,
 * where optional parts stand in `[ ]`, required ones in `( )` and
 * alternatives are separated by `|`.
 */
module CommandUsage {
  import opened Wrappers
  import opened Sorting
  import N = CommandNodeEnvelope
  import JavaText

  const ARGUMENT_SEPARATOR: string := " "
  const USAGE_OPTIONAL_OPEN: string := "["
  const USAGE_OPTIONAL_CLOSE: string := "]"
  const USAGE_REQUIRED_OPEN: string := "("
  const USAGE_REQUIRED_CLOSE: string := ")"
  const USAGE_OR: string := "|"

  /**
   * `isNodeExecutable(node)`: a node has a command, or its default node
   * is executable.  `fuel` bounds how many default nodes are followed.
   */
  function Executable(g: N.Graph, id: N.NodeId, fuel: nat): (r: bool)
    ensures N.At(g, id).command.Some? ==> r
    ensures r ==> N.At(g, id).command.Some? || N.At(g, id).defaultCommandNode.Some?
    decreases fuel
  {
    var n := N.At(g, id);
    if n.command.Some? then true
    else if n.defaultCommandNode.None? || fuel == 0 then false
    else Executable(g, n.defaultCommandNode.value, fuel - 1)
  }

  /** The node reached from `id` by following `steps` default nodes, if there are that many. */
  function DefaultChain(g: N.Graph, id: N.NodeId, steps: nat): Option<N.NodeId>
    decreases steps
  {
    if steps == 0 then Some(id)
    else if N.At(g, id).defaultCommandNode.None? then None
    else DefaultChain(g, N.At(g, id).defaultCommandNode.value, steps - 1)
  }

  /** A node is executable exactly when some node on its chain of default nodes, within `fuel` steps, has a command. */
  lemma {:induction false} ExecutableChain(g: N.Graph, id: N.NodeId, fuel: nat)
    ensures Executable(g, id, fuel) <==>
      exists j :: 0 <= j <= fuel && DefaultChain(g, id, j).Some? && N.At(g, DefaultChain(g, id, j).value).command.Some?
    decreases fuel
  {
    var n := N.At(g, id);
    if n.command.Some? {
      assert DefaultChain(g, id, 0) == Some(id);
    } else if n.defaultCommandNode.None? || fuel == 0 {
      forall j | 0 <= j <= fuel && DefaultChain(g, id, j).Some?
        ensures N.At(g, DefaultChain(g, id, j).value).command.None?
      {
        assert j == 0;
      }
    } else {
      var d := n.defaultCommandNode.value;
      ExecutableChain(g, d, fuel - 1);
      forall j | 0 < j <= fuel ensures DefaultChain(g, id, j) == DefaultChain(g, d, j - 1) {
      }
      if Executable(g, d, fuel - 1) {
        var j :| 0 <= j <= fuel - 1 && DefaultChain(g, d, j).Some? && N.At(g, DefaultChain(g, d, j).value).command.Some?;
        assert DefaultChain(g, id, j + 1) == DefaultChain(g, d, j);
        assert 0 <= j + 1 <= fuel && DefaultChain(g, id, j + 1).Some? && N.At(g, DefaultChain(g, id, j + 1).value).command.Some?;
      } else {
        forall j | 0 <= j <= fuel && DefaultChain(g, id, j).Some?
          ensures N.At(g, DefaultChain(g, id, j).value).command.None?
        {
          if j > 0 {
            assert DefaultChain(g, id, j) == DefaultChain(g, d, j - 1);
            assert 0 <= j - 1 <= fuel - 1 && DefaultChain(g, d, j - 1).Some?;
            assert N.At(g, DefaultChain(g, d, j - 1).value).command.None?;
          }
        }
      }
    }
  }

  /** With more fuel a node stays executable. */
  lemma {:induction false} ExecutableMonotone(g: N.Graph, id: N.NodeId, fuel: nat, more: nat)
    requires fuel <= more && Executable(g, id, fuel)
    ensures Executable(g, id, more)
    decreases fuel
  {
    var n := N.At(g, id);
    if n.command.None? {
      ExecutableMonotone(g, n.defaultCommandNode.value, fuel - 1, more - 1);
    }
  }

  /** `isNodeExecutable(node)`: the `while` loop down the default nodes. */
  method IsNodeExecutable(tree: N.CommandGraph, id: N.NodeId, fuel: nat) returns (r: bool)
    ensures r == Executable(tree.nodes, id, fuel)
  {
    var node := id;
    var steps := fuel;
    while N.At(tree.nodes, node).command.None? && N.At(tree.nodes, node).defaultCommandNode.Some? && steps > 0
      invariant Executable(tree.nodes, id, fuel) == Executable(tree.nodes, node, steps)
      decreases steps
    {
      node := N.At(tree.nodes, node).defaultCommandNode.value;
      steps := steps - 1;
    }
    r := N.At(tree.nodes, node).command.Some?;
  }

  /** How a redirect is shown: "..." back to the root, else "-> " and the usage of the target. */
  function RedirectUsage(g: N.Graph, root: N.NodeId, target: N.NodeId): string
  {
    if target == root then "..." else "-> " + N.Usage(N.At(g, target))
  }

  /** The prefix of a child's lines: its usage alone under an empty prefix, else after the prefix and a space. */
  function Extend(prefix: string, usage: string): (r: string)
    ensures prefix != "" ==> prefix <= r && r != ""
  {
    if prefix == "" then usage else prefix + ARGUMENT_SEPARATOR + usage
  }

  /**
   * The private `getAllUsage(node, sender, result, prefix, restricted)`:
   * nothing for a node the sender may not use when restricted; the prefix
   * when the node is executable; then the redirect, or the lines of every
   * child.  `fuel` bounds the depth of the walk.
   */
  function AllUsage(g: N.Graph, root: N.NodeId, id: N.NodeId, sender: N.Sender, prefix: string, restricted: bool, fuel: nat)
    : (r: seq<string>)
    ensures restricted && !N.CanUse(N.At(g, id), sender) ==> r == []
    ensures fuel > 0 && (!restricted || N.CanUse(N.At(g, id), sender)) && Executable(g, id, fuel) ==> |r| > 0 && r[0] == prefix
    decreases fuel, 0
  {
    var n := N.At(g, id);
    if fuel == 0 || (restricted && !N.CanUse(n, sender)) then []
    else
      (if Executable(g, id, fuel) then [prefix] else [])
      + if n.redirect.Some? then [(if prefix == "" then N.Usage(n) else prefix) + ARGUMENT_SEPARATOR + RedirectUsage(g, root, n.redirect.value)]
        else ChildrenUsage(g, root, N.ChildIds(n), sender, prefix, restricted, fuel - 1)
  }

  /** The lines of the children `ids`, in order. */
  function ChildrenUsage(g: N.Graph, root: N.NodeId, ids: seq<N.NodeId>, sender: N.Sender, prefix: string, restricted: bool, fuel: nat)
    : seq<string>
    decreases fuel, 1, |ids|
  {
    if |ids| == 0 then []
    else
      AllUsage(g, root, ids[0], sender, Extend(prefix, N.Usage(N.At(g, ids[0]))), restricted, fuel)
      + ChildrenUsage(g, root, ids[1..], sender, prefix, restricted, fuel)
  }

  /** Under a non-empty prefix every line begins with the prefix. */
  lemma {:induction false} AllUsagePrefixed(g: N.Graph, root: N.NodeId, id: N.NodeId, sender: N.Sender, prefix: string, restricted: bool, fuel: nat)
    requires prefix != ""
    ensures forall s :: s in AllUsage(g, root, id, sender, prefix, restricted, fuel) ==> prefix <= s
    decreases fuel, 0
  {
    var n := N.At(g, id);
    if fuel > 0 && !(restricted && !N.CanUse(n, sender)) && n.redirect.None? {
      ChildrenUsagePrefixed(g, root, N.ChildIds(n), sender, prefix, restricted, fuel - 1);
    }
  }

  lemma {:induction false} ChildrenUsagePrefixed(g: N.Graph, root: N.NodeId, ids: seq<N.NodeId>, sender: N.Sender, prefix: string, restricted: bool, fuel: nat)
    requires prefix != ""
    ensures forall s :: s in ChildrenUsage(g, root, ids, sender, prefix, restricted, fuel) ==> prefix <= s
    decreases fuel, 1, |ids|
  {
    if |ids| > 0 {
      var childPrefix := Extend(prefix, N.Usage(N.At(g, ids[0])));
      AllUsagePrefixed(g, root, ids[0], sender, childPrefix, restricted, fuel);
      ChildrenUsagePrefixed(g, root, ids[1..], sender, prefix, restricted, fuel);
      forall s | s in AllUsage(g, root, ids[0], sender, childPrefix, restricted, fuel) ensures prefix <= s {
        assert childPrefix <= s;
        assert s[..|prefix|] == childPrefix[..|prefix|];
      }
    }
  }

  /** Restricting to what the sender may use only leaves lines out. */
  lemma {:induction false} RestrictedAmongAll(g: N.Graph, root: N.NodeId, id: N.NodeId, sender: N.Sender, prefix: string, fuel: nat)
    ensures forall s :: s in AllUsage(g, root, id, sender, prefix, true, fuel) ==> s in AllUsage(g, root, id, sender, prefix, false, fuel)
    decreases fuel, 0
  {
    var n := N.At(g, id);
    if fuel > 0 && N.CanUse(n, sender) && n.redirect.None? {
      ChildrenRestrictedAmongAll(g, root, N.ChildIds(n), sender, prefix, fuel - 1);
    }
  }

  lemma {:induction false} ChildrenRestrictedAmongAll(g: N.Graph, root: N.NodeId, ids: seq<N.NodeId>, sender: N.Sender, prefix: string, fuel: nat)
    ensures forall s :: s in ChildrenUsage(g, root, ids, sender, prefix, true, fuel) ==> s in ChildrenUsage(g, root, ids, sender, prefix, false, fuel)
    decreases fuel, 1, |ids|
  {
    if |ids| > 0 {
      RestrictedAmongAll(g, root, ids[0], sender, Extend(prefix, N.Usage(N.At(g, ids[0]))), fuel);
      ChildrenRestrictedAmongAll(g, root, ids[1..], sender, prefix, fuel);
    }
  }

  /** The private `getAllUsage`: appends the lines of the node to `result`. */
  method CollectUsage(tree: N.CommandGraph, root: N.NodeId, id: N.NodeId, sender: N.Sender, result: seq<string>,
                      prefix: string, restricted: bool, fuel: nat) returns (r: seq<string>)
    ensures r == result + AllUsage(tree.nodes, root, id, sender, prefix, restricted, fuel)
    decreases fuel, 0
  {
    var n := N.At(tree.nodes, id);
    if fuel == 0 || (restricted && !N.CanUse(n, sender)) {
      assert AllUsage(tree.nodes, root, id, sender, prefix, restricted, fuel) == [];
      assert result + [] == result;
      return result;
    }
    var executable := IsNodeExecutable(tree, id, fuel);
    var own := if executable then [prefix] else [];
    ghost var g := tree.nodes;
    if n.redirect.Some? {
      var line := (if prefix == "" then N.Usage(n) else prefix) + ARGUMENT_SEPARATOR + RedirectUsage(tree.nodes, root, n.redirect.value);
      assert AllUsage(g, root, id, sender, prefix, restricted, fuel) == own + [line];
      r := result + (own + [line]);
    } else {
      ghost var rest := ChildrenUsage(g, root, N.ChildIds(n), sender, prefix, restricted, fuel - 1);
      assert AllUsage(g, root, id, sender, prefix, restricted, fuel) == own + rest;
      r := CollectChildren(tree, root, N.ChildIds(n), sender, result + own, prefix, restricted, fuel - 1);
      LinesAppended(result, own, rest, result + own);
    }
  }

  /** The `forEach` over the children in the private `getAllUsage`. */
  method CollectChildren(tree: N.CommandGraph, root: N.NodeId, children: seq<N.NodeId>, sender: N.Sender, result: seq<string>,
                         prefix: string, restricted: bool, fuel: nat) returns (r: seq<string>)
    ensures r == result + ChildrenUsage(tree.nodes, root, children, sender, prefix, restricted, fuel)
    decreases fuel, 2
  {
    r := result;
    for i := 0 to |children|
      invariant r + ChildrenUsage(tree.nodes, root, children[i..], sender, prefix, restricted, fuel)
        == result + ChildrenUsage(tree.nodes, root, children, sender, prefix, restricted, fuel)
    {
      r := CollectChild(tree, root, children, i, sender, r, prefix, restricted, fuel);
    }
    assert children[|children|..] == [];
  }

  /** One step of the `forEach`: the lines of the `i`th child. */
  method CollectChild(tree: N.CommandGraph, root: N.NodeId, children: seq<N.NodeId>, i: nat, sender: N.Sender, result: seq<string>,
                      prefix: string, restricted: bool, fuel: nat) returns (r: seq<string>)
    requires i < |children|
    ensures r + ChildrenUsage(tree.nodes, root, children[i + 1..], sender, prefix, restricted, fuel)
      == result + ChildrenUsage(tree.nodes, root, children[i..], sender, prefix, restricted, fuel)
    decreases fuel, 1
  {
    ghost var g := tree.nodes;
    ChildrenUsageStep(g, root, children, i, sender, prefix, restricted, fuel);
    var child := children[i];
    var childPrefix := Extend(prefix, N.Usage(N.At(tree.nodes, child)));
    r := CollectUsage(tree, root, child, sender, result, childPrefix, restricted, fuel);
    LinesAppended(result, AllUsage(g, root, child, sender, childPrefix, restricted, fuel),
      ChildrenUsage(g, root, children[i + 1..], sender, prefix, restricted, fuel), r);
  }

  /** Lines appended in two steps are the lines appended at once. */
  lemma LinesAppended(result: seq<string>, first: seq<string>, rest: seq<string>, r: seq<string>)
    requires r == result + first
    ensures r + rest == result + (first + rest)
  {
  }

  /** The lines of the children from the `i`th on are those of the `i`th child and then the rest. */
  lemma ChildrenUsageStep(g: N.Graph, root: N.NodeId, ids: seq<N.NodeId>, i: nat, sender: N.Sender, prefix: string, restricted: bool, fuel: nat)
    requires i < |ids|
    ensures ChildrenUsage(g, root, ids[i..], sender, prefix, restricted, fuel)
      == AllUsage(g, root, ids[i], sender, Extend(prefix, N.Usage(N.At(g, ids[i]))), restricted, fuel)
         + ChildrenUsage(g, root, ids[i + 1..], sender, prefix, restricted, fuel)
  {
    assert ids[i..][0] == ids[i] && ids[i..][1..] == ids[i + 1..];
  }

  /** `getAllUsage(node, sender, restricted)`: every full usage line under the node. */
  method GetAllUsage(tree: N.CommandGraph, root: N.NodeId, id: N.NodeId, sender: N.Sender, restricted: bool, fuel: nat)
    returns (r: seq<string>)
    ensures r == AllUsage(tree.nodes, root, id, sender, "", restricted, fuel)
  {
    r := CollectUsage(tree, root, id, sender, [], "", restricted, fuel);
  }

  /** The usage of a node as `getSmartUsage` shows it: in `[ ]` when optional. */
  function Self(n: N.Node, optional: bool): string
  {
    if optional then USAGE_OPTIONAL_OPEN + N.Usage(n) + USAGE_OPTIONAL_CLOSE else N.Usage(n)
  }

  /** The children the sender may use, in order. */
  function Usable(g: N.Graph, ids: seq<N.NodeId>, sender: N.Sender): seq<N.NodeId>
  {
    if |ids| == 0 then []
    else (if N.CanUse(N.At(g, ids[0]), sender) then [ids[0]] else []) + Usable(g, ids[1..], sender)
  }

  /** The usable children are the children the sender may use. */
  lemma {:induction false} UsableMembers(g: N.Graph, ids: seq<N.NodeId>, sender: N.Sender)
    ensures forall x :: x in Usable(g, ids, sender) <==> x in ids && N.CanUse(N.At(g, x), sender)
  {
    if |ids| > 0 {
      UsableMembers(g, ids[1..], sender);
      assert forall x :: x in ids <==> x == ids[0] || x in ids[1..];
    }
  }

  /** A `LinkedHashSet` of `s`: each element once, in the order it first occurs. */
  function Distinct(s: seq<string>): seq<string>
  {
    if |s| == 0 then []
    else
      var d := Distinct(s[..|s| - 1]);
      if s[|s| - 1] in d then d else d + [s[|s| - 1]]
  }

  /** `Distinct` keeps every element once, the first one first. */
  lemma {:induction false} DistinctMembers(s: seq<string>)
    ensures forall x :: x in Distinct(s) <==> x in s
    ensures NoDuplicates(Distinct(s))
    ensures |s| > 0 ==> |Distinct(s)| > 0 && Distinct(s)[0] == s[0]
  {
    if |s| > 0 {
      DistinctMembers(s[..|s| - 1]);
      assert forall x :: x in s <==> x in s[..|s| - 1] || x == s[|s| - 1];
      if |s| > 1 {
        assert s[..|s| - 1][0] == s[0];
      }
    }
  }

  /** The usages the children show under an executable node or not. */
  function Selves(g: N.Graph, ids: seq<N.NodeId>, optional: bool): seq<string>
  {
    seq(|ids|, i requires 0 <= i < |ids| => Self(N.At(g, ids[i]), optional))
  }

  /** The children's plain usages, for the alternatives. */
  function Usages(g: N.Graph, ids: seq<N.NodeId>): seq<string>
  {
    seq(|ids|, i requires 0 <= i < |ids| => N.Usage(N.At(g, ids[i])))
  }

  /** Children showing different usages are shown differently in `[ ]`, too. */
  lemma SelfInjective(a: N.Node, b: N.Node, optional: bool)
    requires N.Usage(a) != N.Usage(b)
    ensures Self(a, optional) != Self(b, optional)
  {
    if optional {
      var x := Self(a, optional);
      var y := Self(b, optional);
      assert x[1..|x| - 1] == N.Usage(a);
      assert y[1..|y| - 1] == N.Usage(b);
    }
  }

  /**
   * The private `getSmartUsage(node, sender, optional, deep)`: none for a
   * node the sender may not use; otherwise the node's own usage, followed
   * (unless `deep`) by what `SmartTail` shows after a space.  `fuel`
   * bounds the depth of the walk.
   */
  function SmartUsage(g: N.Graph, root: N.NodeId, id: N.NodeId, sender: N.Sender, optional: bool, deep: bool, fuel: nat)
    : (r: Option<string>)
    ensures r.None? <==> !N.CanUse(N.At(g, id), sender)
    ensures r.Some? ==> Self(N.At(g, id), optional) <= r.value
    decreases fuel, 1
  {
    var n := N.At(g, id);
    if !N.CanUse(n, sender) then None
    else if deep || fuel == 0 then Some(Self(n, optional))
    else
      var tail := SmartTail(g, root, id, sender, fuel);
      Some(if tail.None? then Self(n, optional) else Self(n, optional) + ARGUMENT_SEPARATOR + tail.value)
  }

  /**
   * What `getSmartUsage` shows after a node's own usage: its redirect;
   * else the usage of its one usable child; else, for several usable
   * children, their one usage or their alternatives, in `[ ]` under an
   * executable node and in `( )` otherwise; none when nothing follows.
   */
  function SmartTail(g: N.Graph, root: N.NodeId, id: N.NodeId, sender: N.Sender, fuel: nat): (r: Option<string>)
    ensures N.At(g, id).redirect.Some? ==> r == Some(RedirectUsage(g, root, N.At(g, id).redirect.value))
    ensures N.At(g, id).redirect.None? && |Usable(g, N.ChildIds(N.At(g, id)), sender)| == 0 ==> r.None?
    decreases fuel, 0
  {
    var n := N.At(g, id);
    var childOptional := Executable(g, id, fuel);
    if n.redirect.Some? then Some(RedirectUsage(g, root, n.redirect.value))
    else
      var children := Usable(g, N.ChildIds(n), sender);
      if |children| == 0 || fuel == 0 then None
      else if |children| == 1 then SmartUsage(g, root, children[0], sender, childOptional, childOptional, fuel - 1)
      else
        var childUsage := Distinct(Selves(g, children, childOptional));
        if |childUsage| == 1 then
          Some(if childOptional then USAGE_OPTIONAL_OPEN + childUsage[0] + USAGE_OPTIONAL_CLOSE else childUsage[0])
        else
          var open := if childOptional then USAGE_OPTIONAL_OPEN else USAGE_REQUIRED_OPEN;
          var close := if childOptional then USAGE_OPTIONAL_CLOSE else USAGE_REQUIRED_CLOSE;
          Some(open + JavaText.Join(Usages(g, children), USAGE_OR) + close)
  }

  /** A deep usage is the node's own usage, as the children listed by their parent show. */
  lemma SmartUsageDeep(g: N.Graph, root: N.NodeId, id: N.NodeId, sender: N.Sender, optional: bool, fuel: nat)
    requires N.CanUse(N.At(g, id), sender)
    ensures SmartUsage(g, root, id, sender, optional, true, fuel) == Some(Self(N.At(g, id), optional))
  {
  }

  /**
   * Two or more usable children showing different usages are alternatives:
   * in `[ ]` under an executable node, in `( )` otherwise, separated by
   * `|`, and every usable child shows its usage there.
   */
  lemma SmartUsageAlternatives(g: N.Graph, root: N.NodeId, id: N.NodeId, sender: N.Sender, fuel: nat, i: nat, j: nat)
    requires fuel > 0 && N.At(g, id).redirect.None?
    requires var children := Usable(g, N.ChildIds(N.At(g, id)), sender);
      && i < |children| && j < |children| && N.Usage(N.At(g, children[j])) != N.Usage(N.At(g, children[i]))
    ensures var children := Usable(g, N.ChildIds(N.At(g, id)), sender);
      var open := if Executable(g, id, fuel) then USAGE_OPTIONAL_OPEN else USAGE_REQUIRED_OPEN;
      var close := if Executable(g, id, fuel) then USAGE_OPTIONAL_CLOSE else USAGE_REQUIRED_CLOSE;
      && SmartTail(g, root, id, sender, fuel) == Some(open + JavaText.Join(Usages(g, children), USAGE_OR) + close)
      && N.Usage(N.At(g, children[i])) in Usages(g, children)
  {
    var children := Usable(g, N.ChildIds(N.At(g, id)), sender);
    var childOptional := Executable(g, id, fuel);
    var selves := Selves(g, children, childOptional);
    assert selves[i] == Self(N.At(g, children[i]), childOptional) && selves[j] == Self(N.At(g, children[j]), childOptional);
    SelfInjective(N.At(g, children[j]), N.At(g, children[i]), childOptional);
    var d := Distinct(selves);
    DistinctMembers(selves);
    assert selves[j] in d && selves[i] in d && selves[j] != selves[i];
    assert |d| != 1;
    assert Usages(g, children)[i] == N.Usage(N.At(g, children[i]));
  }

  /** The entries of `getSmartUsage`: each child the sender may use, with its usage. */
  function SmartUsages(g: N.Graph, root: N.NodeId, ids: seq<N.NodeId>, sender: N.Sender, optional: bool, fuel: nat)
    : (r: seq<(N.NodeId, string)>)
    decreases |ids|
  {
    if |ids| == 0 then []
    else
      var usage := SmartUsage(g, root, ids[0], sender, optional, false, fuel);
      (if usage.Some? then [(ids[0], usage.value)] else []) + SmartUsages(g, root, ids[1..], sender, optional, fuel)
  }

  /**
   * `getSmartUsage` lists exactly the children the sender may use, each
   * with a usage that begins with the child's own usage, in `[ ]` when
   * the node has a command.
   */
  lemma {:induction false} SmartUsagesEntries(g: N.Graph, root: N.NodeId, ids: seq<N.NodeId>, sender: N.Sender, optional: bool, fuel: nat)
    ensures var r := SmartUsages(g, root, ids, sender, optional, fuel);
      && (forall e :: e in r ==> e.0 in ids && N.CanUse(N.At(g, e.0), sender) && Self(N.At(g, e.0), optional) <= e.1)
      && (forall x :: x in ids && N.CanUse(N.At(g, x), sender) ==> exists e :: e in r && e.0 == x)
    decreases |ids|
  {
    if |ids| > 0 {
      SmartUsagesEntries(g, root, ids[1..], sender, optional, fuel);
      var r := SmartUsages(g, root, ids, sender, optional, fuel);
      var rest := SmartUsages(g, root, ids[1..], sender, optional, fuel);
      forall x | x in ids && N.CanUse(N.At(g, x), sender) ensures exists e :: e in r && e.0 == x {
        if x == ids[0] {
          assert r[0].0 == x;
        } else {
          assert x in ids[1..];
          var e :| e in rest && e.0 == x;
          assert e in r;
        }
      }
    }
  }

  /** `getSmartUsage(node, sender)`: the `forEach` filling the `LinkedHashMap`. */
  method GetSmartUsage(tree: N.CommandGraph, root: N.NodeId, id: N.NodeId, sender: N.Sender, fuel: nat)
    returns (r: seq<(N.NodeId, string)>)
    ensures r == SmartUsages(tree.nodes, root, N.ChildIds(N.At(tree.nodes, id)), sender, N.At(tree.nodes, id).command.Some?, fuel)
  {
    var n := N.At(tree.nodes, id);
    var optional := n.command.Some?;
    var children := N.ChildIds(n);
    ghost var all := SmartUsages(tree.nodes, root, children, sender, optional, fuel);
    r := [];
    assert children[0..] == children && [] + all == all;
    for i := 0 to |children|
      invariant r + SmartUsages(tree.nodes, root, children[i..], sender, optional, fuel) == all
    {
      r := PutSmartUsage(tree, root, children, i, sender, optional, r, fuel);
    }
    assert children[|children|..] == [] && SmartUsages(tree.nodes, root, [], sender, optional, fuel) == [];
    assert r + [] == r;
  }

  /** One step of the `forEach`: `result.put(child, usage)` when the child has a usage. */
  method PutSmartUsage(tree: N.CommandGraph, root: N.NodeId, children: seq<N.NodeId>, i: nat, sender: N.Sender, optional: bool,
                       result: seq<(N.NodeId, string)>, fuel: nat) returns (r: seq<(N.NodeId, string)>)
    requires i < |children|
    ensures r + SmartUsages(tree.nodes, root, children[i + 1..], sender, optional, fuel)
      == result + SmartUsages(tree.nodes, root, children[i..], sender, optional, fuel)
  {
    ghost var g := tree.nodes;
    var usage := SmartUsage(tree.nodes, root, children[i], sender, optional, false, fuel);
    ghost var first := if usage.Some? then [(children[i], usage.value)] else [];
    ghost var rest := SmartUsages(g, root, children[i + 1..], sender, optional, fuel);
    SmartUsagesStep(g, root, children, i, sender, optional, fuel);
    r := result;
    if usage.Some? {
      r := r + [(children[i], usage.value)];
    }
    EntriesAppended(result, first, rest, r);
  }

  /** Appending one child's entries, then the rest, is appending both at once. */
  lemma EntriesAppended(result: seq<(N.NodeId, string)>, first: seq<(N.NodeId, string)>, rest: seq<(N.NodeId, string)>,
                        r: seq<(N.NodeId, string)>)
    requires r == result + first
    ensures r + rest == result + (first + rest)
  {
  }

  /** The entries from the `i`th child on are that child's, if any, and then the rest. */
  lemma SmartUsagesStep(g: N.Graph, root: N.NodeId, ids: seq<N.NodeId>, i: nat, sender: N.Sender, optional: bool, fuel: nat)
    requires i < |ids|
    ensures var usage := SmartUsage(g, root, ids[i], sender, optional, false, fuel);
      SmartUsages(g, root, ids[i..], sender, optional, fuel)
        == (if usage.Some? then [(ids[i], usage.value)] else []) + SmartUsages(g, root, ids[i + 1..], sender, optional, fuel)
  {
    assert ids[i..][0] == ids[i] && ids[i..][1..] == ids[i + 1..];
  }
}
