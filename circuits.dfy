/** The graphs the circuit generator returns, stripped of positions, colours and
    labels: numbered nodes of a few kinds and the wires between them, with what such a
    graph computes when its inputs carry an assignment. */
module Circuits {

  datatype Op = And | Or | Not | Nand | Nor

  /** What a node is: an input terminal (variable v), the output terminal ('Q', or
      'Q (1)' for the constant 1), a shared inverter of variable v, the first-stage gate
      of term number `term`, the final combining gate, or a fixer inverter. */
  datatype Kind =
    | Input(v: nat)
    | Output(constantOne: bool)
    | Inverter(v: nat, op: Op)
    | TermGate(term: nat, op: Op)
    | FinalGate(op: Op)
    | Fixer(op: Op)

  datatype Node = Node(id: nat, kind: Kind)

  /** A wire from the node with id `source` to the node with id `target`. */
  datatype Edge = Edge(source: nat, target: nat)

  /** The `{ nodes, edges }` pair of the generator. */
  datatype Circuit = Circuit(nodes: seq<Node>, edges: seq<Edge>)

  /** Node k of the list has id k + 1: the ids `getId` hands out, in creation order. */
  predicate Sequential(nodes: seq<Node>)
  {
    forall k :: 0 <= k < |nodes| ==> nodes[k].id == k + 1
  }

  predicate IsOutput(nodes: seq<Node>, id: nat)
  {
    1 <= id <= |nodes| && nodes[id - 1].kind.Output?
  }

  /** A wire between two existing nodes that does not leave the output and runs
      forward, except into the output, which is created before the last gates. */
  predicate Wired(nodes: seq<Node>, e: Edge)
  {
    1 <= e.source <= |nodes| && 1 <= e.target <= |nodes| &&
    !IsOutput(nodes, e.source) && (IsOutput(nodes, e.target) || e.source < e.target)
  }

  predicate Forward(c: Circuit)
  {
    forall e :: e in c.edges ==> Wired(c.nodes, e)
  }

  /** Gates are evaluated in creation order, the output terminal last. */
  function Rank(c: Circuit, id: nat): nat
  {
    if IsOutput(c.nodes, id) then |c.nodes| + 1 else id
  }

  /** The nodes the first k wires lead into `id`, in the order the wires were added. */
  function SourcesUpTo(edges: seq<Edge>, k: nat, id: nat): seq<nat>
    requires k <= |edges|
  {
    if k == 0 then []
    else SourcesUpTo(edges, k - 1, id) + (if edges[k - 1].target == id then [edges[k - 1].source] else [])
  }

  /** The nodes wired into `id`, in the order the wires were added. */
  function Sources(edges: seq<Edge>, id: nat): seq<nat>
  {
    SourcesUpTo(edges, |edges|, id)
  }

  /** One wire from each of `srcs` into node g, in order. */
  function Wires(srcs: seq<nat>, g: nat): (w: seq<Edge>)
    ensures |w| == |srcs| && forall k :: 0 <= k < |srcs| ==> w[k] == Edge(srcs[k], g)
  {
    seq(|srcs|, k requires 0 <= k < |srcs| => Edge(srcs[k], g))
  }

  /** Wiring one more source adds one wire at the end. */
  lemma WiresSnoc(srcs: seq<nat>, x: nat, g: nat)
    ensures Wires(srcs + [x], g) == Wires(srcs, g) + [Edge(x, g)]
  {
    var w := Wires(srcs + [x], g);
    assert forall k :: 0 <= k < |srcs| ==> w[k] == Wires(srcs, g)[k];
  }

  lemma {:induction false} SourcesUpToWired(edges: seq<Edge>, k: nat, id: nat)
    requires k <= |edges|
    ensures forall x :: x in SourcesUpTo(edges, k, id) ==> Edge(x, id) in edges
  {
    if k > 0 {
      SourcesUpToWired(edges, k - 1, id);
    }
  }

  lemma SourcesAreWired(edges: seq<Edge>, id: nat)
    ensures forall x :: x in Sources(edges, id) ==> Edge(x, id) in edges
  {
    SourcesUpToWired(edges, |edges|, id);
  }

  lemma SourcesRank(c: Circuit, id: nat)
    requires Forward(c)
    ensures forall x :: x in Sources(c.edges, id) ==> Rank(c, x) < Rank(c, id)
  {
    SourcesAreWired(c.edges, id);
    forall x | x in Sources(c.edges, id)
      ensures Rank(c, x) < Rank(c, id)
    {
      assert Wired(c.nodes, Edge(x, id));
    }
  }

  /** The first k wires of a longer list lead into a node from the same sources. */
  lemma {:induction false} SourcesPrefix(e1: seq<Edge>, e2: seq<Edge>, k: nat, id: nat)
    requires k <= |e1|
    ensures SourcesUpTo(e1 + e2, k, id) == SourcesUpTo(e1, k, id)
  {
    if k > 0 {
      SourcesPrefix(e1, e2, k - 1, id);
      assert (e1 + e2)[k - 1] == e1[k - 1];
    }
  }

  lemma {:induction false} SourcesAppendUpTo(e1: seq<Edge>, e2: seq<Edge>, k: nat, id: nat)
    requires k <= |e2|
    ensures SourcesUpTo(e1 + e2, |e1| + k, id) == Sources(e1, id) + SourcesUpTo(e2, k, id)
  {
    if k == 0 {
      SourcesPrefix(e1, e2, |e1|, id);
    } else {
      SourcesAppendUpTo(e1, e2, k - 1, id);
      assert (e1 + e2)[|e1| + k - 1] == e2[k - 1];
    }
  }

  /** The sources of a node in two runs of wires are those of the first then the second. */
  lemma SourcesAppend(e1: seq<Edge>, e2: seq<Edge>, id: nat)
    ensures Sources(e1 + e2, id) == Sources(e1, id) + Sources(e2, id)
  {
    SourcesAppendUpTo(e1, e2, |e2|, id);
  }

  lemma {:induction false} SourcesOfWiresUpTo(srcs: seq<nat>, g: nat, k: nat, id: nat)
    requires k <= |srcs|
    ensures SourcesUpTo(Wires(srcs, g), k, id) == if id == g then srcs[..k] else []
  {
    if k > 0 {
      SourcesOfWiresUpTo(srcs, g, k - 1, id);
      if id == g {
        assert srcs[..k] == srcs[..k - 1] + [srcs[k - 1]];
      }
    }
  }

  lemma SourcesOfWires(srcs: seq<nat>, g: nat, id: nat)
    ensures Sources(Wires(srcs, g), id) == if id == g then srcs else []
  {
    SourcesOfWiresUpTo(srcs, g, |srcs|, id);
    assert srcs[..|srcs|] == srcs;
  }

  lemma {:induction false} SourcesUpToNone(edges: seq<Edge>, k: nat, id: nat)
    requires k <= |edges| && forall e :: e in edges ==> e.target != id
    ensures SourcesUpTo(edges, k, id) == []
  {
    if k > 0 {
      SourcesUpToNone(edges, k - 1, id);
      assert edges[k - 1] in edges;
    }
  }

  lemma SourcesNone(edges: seq<Edge>, id: nat)
    requires forall e :: e in edges ==> e.target != id
    ensures Sources(edges, id) == []
  {
    SourcesUpToNone(edges, |edges|, id);
  }

  /** Wires added later into other nodes leave the sources of a node as they were. */
  lemma SourcesKept(edges: seq<Edge>, more: seq<Edge>, id: nat)
    requires forall e :: e in more ==> e.target != id
    ensures Sources(edges + more, id) == Sources(edges, id)
  {
    SourcesAppend(edges, more, id);
    SourcesNone(more, id);
  }

  /** The sources of a node that no earlier wire reaches come from the later wires. */
  lemma SourcesTail(edges: seq<Edge>, tail: seq<Edge>, id: nat)
    requires forall e :: e in edges ==> e.target < id
    ensures Sources(edges + tail, id) == Sources(tail, id)
  {
    SourcesAppend(edges, tail, id);
    SourcesNone(edges, id);
  }

  lemma SourcesOfOne(e: Edge, id: nat)
    ensures Sources([e], id) == if e.target == id then [e.source] else []
  {
    assert SourcesUpTo([e], 0, id) == [];
  }

  lemma SourcesOfTwo(e1: Edge, e2: Edge, id: nat)
    ensures Sources([e1, e2], id) == Sources([e1], id) + Sources([e2], id)
  {
    SourcesAppend([e1], [e2], id);
    assert [e1] + [e2] == [e1, e2];
  }

  /** Appending nodes keeps every existing wire well formed. */
  lemma ForwardGrow(c: Circuit, nodes: seq<Node>, edges: seq<Edge>)
    requires Forward(c) && forall e :: e in edges ==> Wired(c.nodes + nodes, e)
    ensures Forward(Circuit(c.nodes + nodes, c.edges + edges))
  {
    forall e | e in c.edges + edges
      ensures Wired(c.nodes + nodes, e)
    {
      if e in c.edges {
        assert Wired(c.nodes, e);
        assert (c.nodes + nodes)[e.source - 1] == c.nodes[e.source - 1];
        assert (c.nodes + nodes)[e.target - 1] == c.nodes[e.target - 1];
      }
    }
  }

  /** A gate on the conjunction and the disjunction of its inputs; NOT, and a NAND or NOR
      with one input, negate that input. */
  function Apply(op: Op, all: bool, any: bool): bool
  {
    match op
    case And => all
    case Or => any
    case Not => !all
    case Nand => !all
    case Nor => !any
  }

  /** The value of a node when the inputs carry the assignment a. An output terminal
      shows its wire (none: constant 0), or 1 for the constant-1 output. */
  predicate NodeValue(c: Circuit, a: seq<bool>, id: nat)
    requires Forward(c)
    decreases Rank(c, id)
  {
    if id == 0 || id > |c.nodes| then false
    else
      var srcs := Sources(c.edges, id);
      SourcesRank(c, id);
      var kind := c.nodes[id - 1].kind;
      var all := forall k :: 0 <= k < |srcs| ==> NodeValue(c, a, srcs[k]);
      var any := exists k :: 0 <= k < |srcs| && NodeValue(c, a, srcs[k]);
      if kind.Input? then kind.v < |a| && a[kind.v]
      else if kind.Output? then kind.constantOne || any
      else Apply(kind.op, all, any)
  }

  predicate AllHigh(c: Circuit, a: seq<bool>, srcs: seq<nat>)
    requires Forward(c)
  {
    forall k :: 0 <= k < |srcs| ==> NodeValue(c, a, srcs[k])
  }

  predicate AnyHigh(c: Circuit, a: seq<bool>, srcs: seq<nat>)
    requires Forward(c)
  {
    exists k :: 0 <= k < |srcs| && NodeValue(c, a, srcs[k])
  }

  /** Simulating the circuit: the value at its output terminal. */
  predicate Evaluate(c: Circuit, a: seq<bool>)
    requires Forward(c)
  {
    exists id :: 1 <= id <= |c.nodes| && IsOutput(c.nodes, id) && NodeValue(c, a, id)
  }

  lemma Unfold(c: Circuit, a: seq<bool>, id: nat)
    requires Forward(c) && 1 <= id <= |c.nodes|
    ensures var kind := c.nodes[id - 1].kind;
      var s := Sources(c.edges, id);
      NodeValue(c, a, id) ==
        if kind.Input? then kind.v < |a| && a[kind.v]
        else if kind.Output? then kind.constantOne || AnyHigh(c, a, s)
        else Apply(kind.op, AllHigh(c, a, s), AnyHigh(c, a, s))
  {
  }

  /** A node with one wire in. */
  lemma UnfoldSingle(c: Circuit, a: seq<bool>, id: nat, s: nat)
    requires Forward(c) && 1 <= id <= |c.nodes| && Sources(c.edges, id) == [s]
    ensures AllHigh(c, a, [s]) == NodeValue(c, a, s) && AnyHigh(c, a, [s]) == NodeValue(c, a, s)
    ensures !c.nodes[id - 1].kind.Input? && !c.nodes[id - 1].kind.Output? ==>
      NodeValue(c, a, id) == Apply(c.nodes[id - 1].kind.op, NodeValue(c, a, s), NodeValue(c, a, s))
    ensures c.nodes[id - 1].kind == Output(false) ==> NodeValue(c, a, id) == NodeValue(c, a, s)
  {
    Unfold(c, a, id);
    if NodeValue(c, a, s) {
      assert NodeValue(c, a, [s][0]);
    }
  }

  /** With a single output terminal, simulating the circuit reads that terminal. */
  lemma EvaluateOutput(c: Circuit, a: seq<bool>, o: nat)
    requires Forward(c) && 1 <= o <= |c.nodes|
    requires forall k :: 0 <= k < |c.nodes| ==> (c.nodes[k].kind.Output? <==> k == o - 1)
    ensures Evaluate(c, a) == NodeValue(c, a, o)
  {
    if NodeValue(c, a, o) {
      assert IsOutput(c.nodes, o);
    }
  }

  // ---------------------------------------------------------------------------
  // Counting nodes

  /** The stage a node belongs to. */
  datatype Class = InputClass | OutputClass | InverterClass(v: nat) | TermClass(term: nat) | FinalClass | FixerClass

  function ClassOf(k: Kind): Class
  {
    match k
    case Input(_) => InputClass
    case Output(_) => OutputClass
    case Inverter(v, _) => InverterClass(v)
    case TermGate(j, _) => TermClass(j)
    case FinalGate(_) => FinalClass
    case Fixer(_) => FixerClass
  }

  /** The ids of the nodes of one class. */
  function IdsOf(nodes: seq<Node>, cl: Class): set<nat>
  {
    set k: nat | k < |nodes| && ClassOf(nodes[k].kind) == cl :: k + 1
  }

  lemma IdsOfOne(nodes: seq<Node>, cl: Class, k0: nat)
    requires k0 < |nodes| && forall k :: 0 <= k < |nodes| ==> (ClassOf(nodes[k].kind) == cl <==> k == k0)
    ensures IdsOf(nodes, cl) == {k0 + 1}
  {
    assert ClassOf(nodes[k0].kind) == cl;
    assert k0 + 1 in IdsOf(nodes, cl);
  }

  lemma IdsOfNone(nodes: seq<Node>, cl: Class)
    requires forall k :: 0 <= k < |nodes| ==> ClassOf(nodes[k].kind) != cl
    ensures IdsOf(nodes, cl) == {}
  {
  }

  /** Nodes added after a list of the same classes, none of class cl, add no id of cl. */
  lemma IdsOfExtended(nodes: seq<Node>, more: seq<Node>, cl: Class)
    requires |nodes| <= |more|
    requires forall k :: 0 <= k < |nodes| ==> ClassOf(more[k].kind) == ClassOf(nodes[k].kind)
    requires forall k :: |nodes| <= k < |more| ==> ClassOf(more[k].kind) != cl
    ensures IdsOf(more, cl) == IdsOf(nodes, cl)
  {
    forall x | x in IdsOf(more, cl)
      ensures x in IdsOf(nodes, cl)
    {
      IdsOfMember(nodes, cl, x - 1);
    }
  }

  lemma IdsOfBounds(nodes: seq<Node>, cl: Class)
    ensures forall x :: x in IdsOf(nodes, cl) ==> 1 <= x <= |nodes| && ClassOf(nodes[x - 1].kind) == cl
  {
  }

  lemma IdsOfMember(nodes: seq<Node>, cl: Class, k: nat)
    requires k < |nodes| && ClassOf(nodes[k].kind) == cl
    ensures k + 1 in IdsOf(nodes, cl)
  {
  }

  /** Appending one node adds its id to its own class only. */
  lemma IdsOfSnoc(nodes: seq<Node>, node: Node, cl: Class)
    ensures IdsOf(nodes + [node], cl) == IdsOf(nodes, cl) + if ClassOf(node.kind) == cl then {|nodes| + 1} else {}
  {
    var all := nodes + [node];
    forall x | x in IdsOf(all, cl)
      ensures x in IdsOf(nodes, cl) || (x == |nodes| + 1 && ClassOf(node.kind) == cl)
    {
      if x - 1 < |nodes| {
        assert all[x - 1] == nodes[x - 1];
      }
    }
    forall x | x in IdsOf(nodes, cl)
      ensures x in IdsOf(all, cl)
    {
      assert all[x - 1] == nodes[x - 1];
    }
    if ClassOf(node.kind) == cl {
      IdsOfMember(all, cl, |nodes|);
    }
  }
}
