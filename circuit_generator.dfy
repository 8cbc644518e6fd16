/** The gate-network synthesizer of `generateCircuit`: from the prime implicants of a
    truth table it builds a graph of input, inverter, gate, fixer and output nodes in the
    STANDARD (AND/OR/NOT), NAND-only or NOR-only basis. The construction is specified
    stage by stage as functions (`InverterStage`, `TermStage`, `Combine`, `Build`), and
    the lemmas here prove the graph well formed and its output the sum of the terms. */
module CircuitGenerator {
  import opened Bits
  import opened Cubes
  import opened BooleanSimplifier
  import opened Circuits

  /** The gate basis: 'STANDARD', 'NAND' or 'NOR'. */
  datatype Mode = Standard | NandOnly | NorOnly

  // ---------------------------------------------------------------------------
  // The basis rules

  /** `isNorMulti`: NOR basis with more than one input, where the first stage is dualized. */
  predicate NorMulti(mode: Mode, n: nat)
  {
    mode == NorOnly && n > 1
  }

  /** The bit of a term that is read through the variable's inverter. */
  function TargetBit(mode: Mode, n: nat): Sym
  {
    if NorMulti(mode, n) then One else Zero
  }

  /** `forceGate`: a single-literal term still gets a first-stage gate. */
  predicate ForceGate(mode: Mode, n: nat, termCount: nat)
  {
    (mode == NandOnly && termCount > 1) || NorMulti(mode, n)
  }

  function InverterOp(mode: Mode): Op
  {
    match mode
    case Standard => Not
    case NandOnly => Nand
    case NorOnly => Nor
  }

  function TermOp(mode: Mode): Op
  {
    match mode
    case Standard => And
    case NandOnly => Nand
    case NorOnly => Nor
  }

  function FinalOp(mode: Mode): Op
  {
    match mode
    case Standard => Or
    case NandOnly => Nand
    case NorOnly => Nor
  }

  /** `needsInverter`: some term has the target bit at position i (`terms.some(...)`). */
  predicate NeedsInverter(terms: seq<Cube>, i: nat, mode: Mode, n: nat)
  {
    terms != [] &&
    ((i < |terms[0]| && terms[0][i] == TargetBit(mode, n)) || NeedsInverter(terms[1..], i, mode, n))
  }

  lemma {:induction false} NeedsInverterIff(terms: seq<Cube>, i: nat, mode: Mode, n: nat)
    ensures NeedsInverter(terms, i, mode, n) <==>
      exists j :: 0 <= j < |terms| && i < |terms[j]| && terms[j][i] == TargetBit(mode, n)
  {
    if terms != [] {
      NeedsInverterIff(terms[1..], i, mode, n);
      if exists j :: 0 <= j < |terms| && i < |terms[j]| && terms[j][i] == TargetBit(mode, n) {
        var j :| 0 <= j < |terms| && i < |terms[j]| && terms[j][i] == TargetBit(mode, n);
        if j > 0 {
          assert terms[1..][j - 1] == terms[j];
        }
      }
      if NeedsInverter(terms[1..], i, mode, n) {
        var j :| 0 <= j < |terms[1..]| && i < |terms[1..][j]| && terms[1..][j][i] == TargetBit(mode, n);
        assert terms[j + 1] == terms[1..][j];
      }
    }
  }

  /** A term that becomes a plain wire from its input or inverter, without a gate. */
  predicate IsDirect(mode: Mode, n: nat, terms: seq<Cube>, term: Cube)
  {
    LiteralCount(term) == 1 && !ForceGate(mode, n, |terms|)
  }

  /** Neither constant case: the general construction runs. */
  predicate Synthesized(terms: seq<Cube>)
  {
    terms != [] && !(|terms| == 1 && IsAllDash(terms[0]))
  }

  /** A fixer inverter sits before the output: a single NAND term with two or more
      literals, or several terms in the NOR basis. */
  predicate NeedsFixer(mode: Mode, terms: seq<Cube>)
  {
    (|terms| == 1 && mode == NandOnly && LiteralCount(terms[0]) > 1) ||
    (|terms| > 1 && mode == NorOnly)
  }

  // ---------------------------------------------------------------------------
  // Literals of a term and where their signals come from

  /** Every position that needs an inverter has one. */
  predicate Sourced(n: nat, mode: Mode, inv: map<nat, nat>, term: Cube)
  {
    forall x :: 0 <= x < |term| && term[x] == TargetBit(mode, n) ==> x in inv
  }

  /** The node a literal at position k is wired from: the inverter when the bit is the
      target bit, the input otherwise (input k has id k + 1). */
  function LitSource(n: nat, mode: Mode, inv: map<nat, nat>, term: Cube, k: nat): nat
    requires k < |term| && Sourced(n, mode, inv, term)
  {
    if term[k] == TargetBit(mode, n) then inv[k] else k + 1
  }

  /** The sources of the literals among the first k positions, in position order. */
  function LitSources(n: nat, mode: Mode, inv: map<nat, nat>, term: Cube, k: nat): seq<nat>
    requires k <= |term| && Sourced(n, mode, inv, term)
  {
    if k == 0 then []
    else LitSources(n, mode, inv, term, k - 1) + (if term[k - 1] != Dash then [LitSource(n, mode, inv, term, k - 1)] else [])
  }

  lemma {:induction false} LitSourcesLength(n: nat, mode: Mode, inv: map<nat, nat>, term: Cube, k: nat)
    requires k <= |term| && Sourced(n, mode, inv, term)
    ensures |LitSources(n, mode, inv, term, k)| + DashCount(term[..k]) == k
  {
    if k > 0 {
      LitSourcesLength(n, mode, inv, term, k - 1);
      assert term[..k][..k - 1] == term[..k - 1];
    }
  }

  /** The first non-dash position (`findIndex(c => c !== '-')`). */
  function FirstLiteral(c: Cube, k: nat): (r: nat)
    requires k <= |c| && exists x :: k <= x < |c| && c[x] != Dash
    ensures k <= r < |c| && c[r] != Dash && forall x :: k <= x < r ==> c[x] == Dash
    decreases |c| - k
  {
    if c[k] != Dash then k else FirstLiteral(c, k + 1)
  }

  lemma HasLiteral(c: Cube)
    requires LiteralCount(c) > 0
    ensures exists x :: 0 <= x < |c| && c[x] != Dash
  {
    if forall x :: 0 <= x < |c| ==> c[x] == Dash {
      assert c == AllDash(|c|);
      FullDashCount(c);
    }
  }

  /** A term with one literal has dashes everywhere else. */
  lemma OnlyLiteral(c: Cube, k: nat)
    requires LiteralCount(c) == 1 && k < |c| && c[k] != Dash
    ensures forall x :: 0 <= x < |c| && x != k ==> c[x] == Dash
  {
    DashCountUpdate(c, k, Dash);
    FullDashCount(c[k := Dash]);
    assert forall x :: 0 <= x < |c| && x != k ==> c[k := Dash][x] == c[x];
  }

  /** A term without literals is all dashes. */
  lemma NoLiteral(c: Cube)
    requires LiteralCount(c) == 0
    ensures IsAllDash(c)
  {
    FullDashCount(c);
  }

  function DirectLiteral(term: Cube): (k: nat)
    requires LiteralCount(term) == 1
    ensures k < |term| && term[k] != Dash
  {
    HasLiteral(term);
    FirstLiteral(term, 0)
  }

  /** All terms have width n and every literal read through an inverter has one. */
  predicate AllSourced(n: nat, mode: Mode, inv: map<nat, nat>, terms: seq<Cube>)
  {
    forall j :: 0 <= j < |terms| ==> |terms[j]| == n && Sourced(n, mode, inv, terms[j])
  }

  predicate NoOutput(nodes: seq<Node>)
  {
    forall k :: 0 <= k < |nodes| ==> !nodes[k].kind.Output?
  }

  // ---------------------------------------------------------------------------
  // The construction, stage by stage

  /** The input terminals: input k is variable k, with id k + 1. */
  function InputNodes(n: nat): (s: seq<Node>)
    ensures |s| == n && forall k :: 0 <= k < n ==> s[k] == Node(k + 1, Input(k))
  {
    seq(n, k requires 0 <= k < n => Node(k + 1, Input(k)))
  }

  /** The graph so far and the map from a variable to its inverter's id. */
  datatype Stage = Stage(c: Circuit, inv: map<nat, nat>)

  /** One turn of the inverter loop: variable i gets an inverter, wired from its input,
      when some term reads it through one. */
  function AddInverter(n: nat, mode: Mode, terms: seq<Cube>, s: Stage, i: nat): Stage
  {
    if NeedsInverter(terms, i, mode, n) then
      var id := |s.c.nodes| + 1;
      Stage(Circuit(s.c.nodes + [Node(id, Inverter(i, InverterOp(mode)))], s.c.edges + [Edge(i + 1, id)]),
            s.inv[i := id])
    else s
  }

  /** The graph once the inverter loop has looked at variables 0..i-1. */
  function InverterStage(n: nat, mode: Mode, terms: seq<Cube>, i: nat): Stage
    requires i <= n
  {
    if i == 0 then Stage(Circuit(InputNodes(n), []), map[])
    else AddInverter(n, mode, terms, InverterStage(n, mode, terms, i - 1), i - 1)
  }

  /** The graph so far and the signal id of each term handled. */
  datatype Gated = Gated(c: Circuit, gateIds: seq<nat>)

  /** One turn of the term loop for term j: a direct term adds only its signal (the
      source of its one literal), any other term a first-stage gate with one wire per
      literal. */
  function AddTerm(n: nat, mode: Mode, terms: seq<Cube>, inv: map<nat, nat>, s: Gated, j: nat): (r: Gated)
    requires j < |terms| && AllSourced(n, mode, inv, terms)
    ensures |r.gateIds| == |s.gateIds| + 1
  {
    var term := terms[j];
    if IsDirect(mode, n, terms, term) then
      Gated(s.c, s.gateIds + [LitSource(n, mode, inv, term, DirectLiteral(term))])
    else
      var g := |s.c.nodes| + 1;
      Gated(Circuit(s.c.nodes + [Node(g, TermGate(j, TermOp(mode)))],
                    s.c.edges + Wires(LitSources(n, mode, inv, term, n), g)),
            s.gateIds + [g])
  }

  /** The graph once the term loop has handled terms 0..j-1. */
  function TermStage(n: nat, mode: Mode, terms: seq<Cube>, inv: map<nat, nat>, c0: Circuit, j: nat): (r: Gated)
    requires j <= |terms| && AllSourced(n, mode, inv, terms)
    ensures |r.gateIds| == j
  {
    if j == 0 then Gated(c0, [])
    else AddTerm(n, mode, terms, inv, TermStage(n, mode, terms, inv, c0, j - 1), j - 1)
  }

  /** The output terminal and the combining stage: one term goes to the output directly
      or through a fixer; several meet in a final gate, followed by a fixer in the NOR
      basis. */
  function Combine(mode: Mode, terms: seq<Cube>, c: Circuit, gateIds: seq<nat>): Circuit
    requires |terms| >= 1 && |gateIds| == |terms|
  {
    var o := |c.nodes| + 1;
    var nodes := c.nodes + [Node(o, Output(false))];
    if |terms| == 1 then
      if NeedsFixer(mode, terms) then
        Circuit(nodes + [Node(o + 1, Fixer(FinalOp(mode)))], c.edges + [Edge(gateIds[0], o + 1), Edge(o + 1, o)])
      else
        Circuit(nodes, c.edges + [Edge(gateIds[0], o)])
    else
      var f := o + 1;
      var nodes' := nodes + [Node(f, FinalGate(FinalOp(mode)))];
      var edges' := c.edges + Wires(gateIds, f);
      if NeedsFixer(mode, terms) then
        Circuit(nodes' + [Node(f + 1, Fixer(FinalOp(mode)))], edges' + [Edge(f, f + 1), Edge(f + 1, o)])
      else
        Circuit(nodes', edges' + [Edge(f, o)])
  }

  /** The whole graph for a list of terms of width n. */
  function Build(n: nat, mode: Mode, terms: seq<Cube>): Circuit
    requires forall j :: 0 <= j < |terms| ==> |terms[j]| == n
  {
    if terms == [] then Circuit(InputNodes(n) + [Node(n + 1, Output(false))], [])
    else if |terms| == 1 && IsAllDash(terms[0]) then Circuit(InputNodes(n) + [Node(n + 1, Output(true))], [])
    else
      var s := InverterStage(n, mode, terms, n);
      InverterStageSourced(n, mode, terms);
      var g := TermStage(n, mode, terms, s.inv, s.c, |terms|);
      Combine(mode, terms, g.c, g.gateIds)
  }

  /** Every wire runs into one of the first m nodes. */
  predicate TargetsWithin(edges: seq<Edge>, m: nat)
  {
    forall e :: e in edges ==> e.target <= m
  }

  // ---------------------------------------------------------------------------
  // The inverter stage

  /** The inputs are the first n nodes, numbered in order, and none is the output. */
  predicate InputsFirst(n: nat, nodes: seq<Node>)
  {
    n <= |nodes| && nodes[..n] == InputNodes(n) && Sequential(nodes) && NoOutput(nodes)
  }

  lemma AddInverterNodes(n: nat, mode: Mode, terms: seq<Cube>, s: Stage, i: nat)
    requires InputsFirst(n, s.c.nodes)
    ensures InputsFirst(n, AddInverter(n, mode, terms, s, i).c.nodes)
  {
    var r := AddInverter(n, mode, terms, s, i);
    if NeedsInverter(terms, i, mode, n) {
      assert r.c.nodes[..n] == s.c.nodes[..n];
    }
  }

  /** The inverter map: exactly the variables some term reads inverted. */
  lemma {:induction false} InverterStageKeys(n: nat, mode: Mode, terms: seq<Cube>, i: nat)
    requires i <= n
    ensures forall x: nat :: x in InverterStage(n, mode, terms, i).inv <==> x < i && NeedsInverter(terms, x, mode, n)
  {
    if i > 0 {
      InverterStageKeys(n, mode, terms, i - 1);
    }
  }

  /** Each variable in the map points at its own inverter, after the inputs. */
  predicate InvertersMapped(n: nat, mode: Mode, s: Stage)
  {
    n <= |s.c.nodes| &&
    forall x :: x in s.inv ==>
      n < s.inv[x] <= |s.c.nodes| && s.c.nodes[s.inv[x] - 1].kind == Inverter(x, InverterOp(mode))
  }

  lemma AddInverterMap(n: nat, mode: Mode, terms: seq<Cube>, s: Stage, i: nat)
    requires InvertersMapped(n, mode, s)
    ensures InvertersMapped(n, mode, AddInverter(n, mode, terms, s, i))
  {
    var r := AddInverter(n, mode, terms, s, i);
    if NeedsInverter(terms, i, mode, n) {
      forall x | x in r.inv
        ensures n < r.inv[x] <= |r.c.nodes| && r.c.nodes[r.inv[x] - 1].kind == Inverter(x, InverterOp(mode))
      {
        if x != i {
          assert r.c.nodes[s.inv[x] - 1] == s.c.nodes[s.inv[x] - 1];
        }
      }
    }
  }

  lemma {:induction false} InverterStageMap(n: nat, mode: Mode, terms: seq<Cube>, i: nat)
    requires i <= n
    ensures InvertersMapped(n, mode, InverterStage(n, mode, terms, i))
  {
    if i > 0 {
      InverterStageMap(n, mode, terms, i - 1);
      InverterStepMap(n, mode, terms, i);
    }
  }

  lemma InverterStepMap(n: nat, mode: Mode, terms: seq<Cube>, i: nat)
    requires 0 < i <= n
    requires InvertersMapped(n, mode, InverterStage(n, mode, terms, i - 1))
    ensures InvertersMapped(n, mode, InverterStage(n, mode, terms, i))
  {
    var s := InverterStage(n, mode, terms, i - 1);
    AddInverterMap(n, mode, terms, s, i - 1);
    assert InverterStage(n, mode, terms, i) == AddInverter(n, mode, terms, s, i - 1);
  }

  /** Every node after the inputs is the inverter of the variable that maps to it, and
      only variables below i are mapped. */
  predicate InverterZone(n: nat, i: nat, s: Stage)
  {
    n <= |s.c.nodes| && (forall x :: x in s.inv ==> x < i) &&
    forall k :: n <= k < |s.c.nodes| ==>
      s.c.nodes[k].kind.Inverter? && s.c.nodes[k].kind.v in s.inv && s.inv[s.c.nodes[k].kind.v] == k + 1
  }

  lemma AddInverterZone(n: nat, mode: Mode, terms: seq<Cube>, s: Stage, i: nat)
    requires InverterZone(n, i, s)
    ensures InverterZone(n, i + 1, AddInverter(n, mode, terms, s, i))
  {
  }

  lemma {:induction false} InverterStageZone(n: nat, mode: Mode, terms: seq<Cube>, i: nat)
    requires i <= n
    ensures InverterZone(n, i, InverterStage(n, mode, terms, i))
  {
    if i > 0 {
      InverterStageZone(n, mode, terms, i - 1);
      var s := InverterStage(n, mode, terms, i - 1);
      AddInverterZone(n, mode, terms, s, i - 1);
      assert InverterStage(n, mode, terms, i) == AddInverter(n, mode, terms, s, i - 1);
    }
  }

  lemma AddInverterForward(n: nat, mode: Mode, terms: seq<Cube>, s: Stage, i: nat)
    requires Forward(s.c) && InputsFirst(n, s.c.nodes) && i < n
    ensures var r := AddInverter(n, mode, terms, s, i);
      Forward(r.c) && InputsFirst(n, r.c.nodes)
  {
    AddInverterNodes(n, mode, terms, s, i);
    if NeedsInverter(terms, i, mode, n) {
      var id := |s.c.nodes| + 1;
      var nodes := [Node(id, Inverter(i, InverterOp(mode)))];
      assert (s.c.nodes + nodes)[i] == s.c.nodes[..n][i];
      ForwardGrow(s.c, nodes, [Edge(i + 1, id)]);
    }
  }

  /** Every wire of the inverter stage runs from an input to an inverter. */
  lemma {:induction false} InverterStageForward(n: nat, mode: Mode, terms: seq<Cube>, i: nat)
    requires i <= n
    ensures var s := InverterStage(n, mode, terms, i);
      Forward(s.c) && InputsFirst(n, s.c.nodes)
  {
    if i > 0 {
      InverterStageForward(n, mode, terms, i - 1);
      var s := InverterStage(n, mode, terms, i - 1);
      AddInverterForward(n, mode, terms, s, i - 1);
      assert InverterStage(n, mode, terms, i) == AddInverter(n, mode, terms, s, i - 1);
    }
  }

  /** Every inverter in `inv` is one of the nodes and has exactly one wire in, from its
      own input; no wire runs past the last node. */
  predicate Fed(c: Circuit, inv: map<nat, nat>)
  {
    TargetsWithin(c.edges, |c.nodes|) &&
    forall x :: x in inv ==> inv[x] <= |c.nodes| && Sources(c.edges, inv[x]) == [x + 1]
  }

  /** A new last node wired from input v keeps every inverter fed, itself included. */
  lemma FedSnoc(c: Circuit, inv: map<nat, nat>, v: nat, node: Node)
    requires Fed(c, inv)
    ensures Fed(Circuit(c.nodes + [node], c.edges + [Edge(v + 1, |c.nodes| + 1)]), inv[v := |c.nodes| + 1])
  {
    var id := |c.nodes| + 1;
    var e := Edge(v + 1, id);
    var inv' := inv[v := id];
    SourcesTail(c.edges, [e], id);
    SourcesOfOne(e, id);
    forall x | x in inv'
      ensures inv'[x] <= id && Sources(c.edges + [e], inv'[x]) == [x + 1]
    {
      if x != v {
        SourcesKept(c.edges, [e], inv[x]);
      }
    }
  }

  /** Adding the inverter of variable i, wired from input i, keeps every inverter fed. */
  lemma AddInverterSources(n: nat, mode: Mode, terms: seq<Cube>, s: Stage, i: nat)
    requires Fed(s.c, s.inv)
    ensures var r := AddInverter(n, mode, terms, s, i);
      Fed(r.c, r.inv)
  {
    if NeedsInverter(terms, i, mode, n) {
      FedSnoc(s.c, s.inv, i, Node(|s.c.nodes| + 1, Inverter(i, InverterOp(mode))));
    }
  }

  lemma {:induction false} InverterStageSources(n: nat, mode: Mode, terms: seq<Cube>, i: nat)
    requires i <= n
    ensures var s := InverterStage(n, mode, terms, i);
      Fed(s.c, s.inv)
  {
    if i > 0 {
      InverterStageSources(n, mode, terms, i - 1);
      var s := InverterStage(n, mode, terms, i - 1);
      AddInverterSources(n, mode, terms, s, i - 1);
      assert InverterStage(n, mode, terms, i) == AddInverter(n, mode, terms, s, i - 1);
    }
  }

  lemma InverterStageSourced(n: nat, mode: Mode, terms: seq<Cube>)
    requires forall j :: 0 <= j < |terms| ==> |terms[j]| == n
    ensures AllSourced(n, mode, InverterStage(n, mode, terms, n).inv, terms)
  {
    InverterStageKeys(n, mode, terms, n);
    forall j, x | 0 <= j < |terms| && 0 <= x < |terms[j]| && terms[j][x] == TargetBit(mode, n)
      ensures x in InverterStage(n, mode, terms, n).inv
    {
      NeedsInverterIff(terms, x, mode, n);
    }
  }

  // ---------------------------------------------------------------------------
  // The term stage

  /** Where the inverter stage leaves the graph: the inputs and the inverters are the
      first m nodes, so every literal's source is among them. */
  predicate SourcesBelow(n: nat, inv: map<nat, nat>, m: nat)
  {
    n <= m && forall x :: x in inv ==> 1 <= inv[x] <= m
  }

  lemma {:induction false} LitSourcesBelow(n: nat, mode: Mode, inv: map<nat, nat>, term: Cube, k: nat, m: nat)
    requires k <= |term| == n && Sourced(n, mode, inv, term) && SourcesBelow(n, inv, m)
    ensures forall y :: y in LitSources(n, mode, inv, term, k) ==> 1 <= y <= m
  {
    if k > 0 {
      LitSourcesBelow(n, mode, inv, term, k - 1, m);
    }
  }

  /** The nodes of c0 stay in front, in order, and no output appears. */
  predicate Extends(c0: Circuit, nodes: seq<Node>)
  {
    |c0.nodes| <= |nodes| && nodes[..|c0.nodes|] == c0.nodes &&
    (Sequential(c0.nodes) ==> Sequential(nodes)) && (NoOutput(c0.nodes) ==> NoOutput(nodes))
  }

  lemma ExtendsSelf(c0: Circuit)
    ensures Extends(c0, c0.nodes)
  {
    assert c0.nodes[..|c0.nodes|] == c0.nodes;
  }

  lemma AddTermNodes(n: nat, mode: Mode, terms: seq<Cube>, inv: map<nat, nat>, c0: Circuit, s: Gated, j: nat)
    requires j < |terms| && AllSourced(n, mode, inv, terms) && Extends(c0, s.c.nodes)
    ensures Extends(c0, AddTerm(n, mode, terms, inv, s, j).c.nodes)
  {
    var r := AddTerm(n, mode, terms, inv, s, j);
    if !IsDirect(mode, n, terms, terms[j]) {
      assert r.c.nodes[..|c0.nodes|] == s.c.nodes[..|c0.nodes|];
    }
  }

  lemma {:induction false} TermStageNodes(n: nat, mode: Mode, terms: seq<Cube>, inv: map<nat, nat>, c0: Circuit, j: nat)
    requires j <= |terms| && AllSourced(n, mode, inv, terms)
    ensures Extends(c0, TermStage(n, mode, terms, inv, c0, j).c.nodes)
  {
    if j > 0 {
      TermStageNodes(n, mode, terms, inv, c0, j - 1);
      TermStepNodes(n, mode, terms, inv, c0, j);
    } else {
      ExtendsSelf(c0);
    }
  }

  lemma TermStepNodes(n: nat, mode: Mode, terms: seq<Cube>, inv: map<nat, nat>, c0: Circuit, j: nat)
    requires 0 < j <= |terms| && AllSourced(n, mode, inv, terms)
    requires Extends(c0, TermStage(n, mode, terms, inv, c0, j - 1).c.nodes)
    ensures Extends(c0, TermStage(n, mode, terms, inv, c0, j).c.nodes)
  {
    var s := TermStage(n, mode, terms, inv, c0, j - 1);
    AddTermNodes(n, mode, terms, inv, c0, s, j - 1);
    assert TermStage(n, mode, terms, inv, c0, j) == AddTerm(n, mode, terms, inv, s, j - 1);
  }

  /** Every node after the first m is the gate of a term that is not direct, and that
      term's signal is this gate. */
  predicate TermZone(mode: Mode, n: nat, terms: seq<Cube>, m: nat, s: Gated)
  {
    m <= |s.c.nodes| && |s.gateIds| <= |terms| &&
    forall k :: m <= k < |s.c.nodes| ==>
      s.c.nodes[k].kind.TermGate? && s.c.nodes[k].kind.term < |s.gateIds| &&
      !IsDirect(mode, n, terms, terms[s.c.nodes[k].kind.term]) && s.gateIds[s.c.nodes[k].kind.term] == k + 1
  }

  lemma AddTermZone(n: nat, mode: Mode, terms: seq<Cube>, inv: map<nat, nat>, m: nat, s: Gated, j: nat)
    requires j < |terms| && AllSourced(n, mode, inv, terms) && TermZone(mode, n, terms, m, s) && |s.gateIds| == j
    ensures TermZone(mode, n, terms, m, AddTerm(n, mode, terms, inv, s, j))
  {
    var r := AddTerm(n, mode, terms, inv, s, j);
    forall k | m <= k < |r.c.nodes|
      ensures r.c.nodes[k].kind.TermGate? && r.c.nodes[k].kind.term < |r.gateIds| &&
        !IsDirect(mode, n, terms, terms[r.c.nodes[k].kind.term]) && r.gateIds[r.c.nodes[k].kind.term] == k + 1
    {
      if k < |s.c.nodes| {
        assert r.c.nodes[k] == s.c.nodes[k];
        assert r.gateIds[s.c.nodes[k].kind.term] == s.gateIds[s.c.nodes[k].kind.term];
      }
    }
  }

  lemma {:induction false} TermStageZone(n: nat, mode: Mode, terms: seq<Cube>, inv: map<nat, nat>, c0: Circuit, j: nat)
    requires j <= |terms| && AllSourced(n, mode, inv, terms)
    ensures TermZone(mode, n, terms, |c0.nodes|, TermStage(n, mode, terms, inv, c0, j))
  {
    if j > 0 {
      TermStageZone(n, mode, terms, inv, c0, j - 1);
      TermStepZone(n, mode, terms, inv, c0, j);
    }
  }

  lemma TermStepZone(n: nat, mode: Mode, terms: seq<Cube>, inv: map<nat, nat>, c0: Circuit, j: nat)
    requires 0 < j <= |terms| && AllSourced(n, mode, inv, terms)
    requires TermZone(mode, n, terms, |c0.nodes|, TermStage(n, mode, terms, inv, c0, j - 1))
    ensures TermZone(mode, n, terms, |c0.nodes|, TermStage(n, mode, terms, inv, c0, j))
  {
    var s := TermStage(n, mode, terms, inv, c0, j - 1);
    AddTermZone(n, mode, terms, inv, |c0.nodes|, s, j - 1);
    assert TermStage(n, mode, terms, inv, c0, j) == AddTerm(n, mode, terms, inv, s, j - 1);
  }

  /** The signal of each direct term recorded so far is the source of its one literal. */
  predicate DirectSignals(n: nat, mode: Mode, terms: seq<Cube>, inv: map<nat, nat>, gateIds: seq<nat>)
    requires AllSourced(n, mode, inv, terms)
  {
    |gateIds| <= |terms| &&
    forall j' :: 0 <= j' < |gateIds| && IsDirect(mode, n, terms, terms[j']) ==>
      gateIds[j'] == LitSource(n, mode, inv, terms[j'], DirectLiteral(terms[j']))
  }

  lemma AddTermDirect(n: nat, mode: Mode, terms: seq<Cube>, inv: map<nat, nat>, s: Gated, j: nat)
    requires j < |terms| && AllSourced(n, mode, inv, terms) && |s.gateIds| == j
    requires DirectSignals(n, mode, terms, inv, s.gateIds)
    ensures DirectSignals(n, mode, terms, inv, AddTerm(n, mode, terms, inv, s, j).gateIds)
  {
    var r := AddTerm(n, mode, terms, inv, s, j);
    forall j' | 0 <= j' < j
      ensures r.gateIds[j'] == s.gateIds[j']
    {
    }
  }

  lemma {:induction false} TermStageDirect(n: nat, mode: Mode, terms: seq<Cube>, inv: map<nat, nat>, c0: Circuit, j: nat)
    requires j <= |terms| && AllSourced(n, mode, inv, terms)
    ensures DirectSignals(n, mode, terms, inv, TermStage(n, mode, terms, inv, c0, j).gateIds)
  {
    if j > 0 {
      TermStageDirect(n, mode, terms, inv, c0, j - 1);
      var s := TermStage(n, mode, terms, inv, c0, j - 1);
      AddTermDirect(n, mode, terms, inv, s, j - 1);
      assert TermStage(n, mode, terms, inv, c0, j) == AddTerm(n, mode, terms, inv, s, j - 1);
    }
  }

  /** The gates recorded so far: term j' that is not direct has its own gate among the
      nodes after the first m. */
  predicate GatesPlaced(mode: Mode, n: nat, terms: seq<Cube>, m: nat, nodes: seq<Node>, gateIds: seq<nat>)
  {
    |gateIds| <= |terms| && m <= |nodes| &&
    forall j' :: 0 <= j' < |gateIds| && !IsDirect(mode, n, terms, terms[j']) ==>
      m < gateIds[j'] <= |nodes| && nodes[gateIds[j'] - 1].kind == TermGate(j', TermOp(mode))
  }

  lemma AddTermGates(n: nat, mode: Mode, terms: seq<Cube>, inv: map<nat, nat>, m: nat, s: Gated, j: nat)
    requires j < |terms| && AllSourced(n, mode, inv, terms) && |s.gateIds| == j
    requires GatesPlaced(mode, n, terms, m, s.c.nodes, s.gateIds)
    ensures var r := AddTerm(n, mode, terms, inv, s, j);
      GatesPlaced(mode, n, terms, m, r.c.nodes, r.gateIds)
  {
    var r := AddTerm(n, mode, terms, inv, s, j);
    forall j' | 0 <= j' < |r.gateIds| && !IsDirect(mode, n, terms, terms[j'])
      ensures m < r.gateIds[j'] <= |r.c.nodes| && r.c.nodes[r.gateIds[j'] - 1].kind == TermGate(j', TermOp(mode))
    {
      if j' < j {
        assert r.gateIds[j'] == s.gateIds[j'];
        assert r.c.nodes[s.gateIds[j'] - 1] == s.c.nodes[s.gateIds[j'] - 1];
      }
    }
  }

  /** The signal of any other term is its own gate of the basis, added by this stage. */
  lemma {:induction false} TermStageGates(n: nat, mode: Mode, terms: seq<Cube>, inv: map<nat, nat>, c0: Circuit, j: nat)
    requires j <= |terms| && AllSourced(n, mode, inv, terms)
    ensures var s := TermStage(n, mode, terms, inv, c0, j);
      GatesPlaced(mode, n, terms, |c0.nodes|, s.c.nodes, s.gateIds)
  {
    if j > 0 {
      TermStageGates(n, mode, terms, inv, c0, j - 1);
      var s := TermStage(n, mode, terms, inv, c0, j - 1);
      AddTermGates(n, mode, terms, inv, |c0.nodes|, s, j - 1);
      assert TermStage(n, mode, terms, inv, c0, j) == AddTerm(n, mode, terms, inv, s, j - 1);
    }
  }

  /** Wires from earlier nodes that are not the output into a new last node. */
  lemma WiresWired(nodes: seq<Node>, node: Node, lits: seq<nat>)
    requires !node.kind.Output? && NoOutput(nodes)
    requires forall y :: y in lits ==> 1 <= y <= |nodes|
    ensures forall e :: e in Wires(lits, |nodes| + 1) ==> Wired(nodes + [node], e)
  {
    var wires := Wires(lits, |nodes| + 1);
    forall e | e in wires
      ensures Wired(nodes + [node], e)
    {
      var k :| 0 <= k < |wires| && wires[k] == e;
      assert lits[k] in lits;
      assert (nodes + [node])[e.source - 1] == nodes[e.source - 1];
    }
  }

  /** A forward graph without an output whose first m nodes hold every literal source. */
  predicate ForwardFrom(n: nat, inv: map<nat, nat>, m: nat, c: Circuit)
  {
    Forward(c) && NoOutput(c.nodes) && SourcesBelow(n, inv, m) && m <= |c.nodes|
  }

  lemma AddTermForward(n: nat, mode: Mode, terms: seq<Cube>, inv: map<nat, nat>, m: nat, s: Gated, j: nat)
    requires j < |terms| && AllSourced(n, mode, inv, terms) && ForwardFrom(n, inv, m, s.c)
    ensures ForwardFrom(n, inv, m, AddTerm(n, mode, terms, inv, s, j).c)
  {
    var term := terms[j];
    if !IsDirect(mode, n, terms, term) {
      var g := |s.c.nodes| + 1;
      var node := Node(g, TermGate(j, TermOp(mode)));
      var lits := LitSources(n, mode, inv, term, n);
      LitSourcesBelow(n, mode, inv, term, n, m);
      WiresWired(s.c.nodes, node, lits);
      ForwardGrow(s.c, [node], Wires(lits, g));
    }
  }

  /** The term stage only adds wires from earlier nodes into its new gates. */
  lemma {:induction false} TermStageForward(n: nat, mode: Mode, terms: seq<Cube>, inv: map<nat, nat>, c0: Circuit, j: nat)
    requires j <= |terms| && AllSourced(n, mode, inv, terms) && ForwardFrom(n, inv, |c0.nodes|, c0)
    ensures ForwardFrom(n, inv, |c0.nodes|, TermStage(n, mode, terms, inv, c0, j).c)
  {
    if j > 0 {
      TermStageForward(n, mode, terms, inv, c0, j - 1);
      TermStepForward(n, mode, terms, inv, c0, j);
    }
  }

  lemma TermStepForward(n: nat, mode: Mode, terms: seq<Cube>, inv: map<nat, nat>, c0: Circuit, j: nat)
    requires 0 < j <= |terms| && AllSourced(n, mode, inv, terms) && ForwardFrom(n, inv, |c0.nodes|, c0)
    requires ForwardFrom(n, inv, |c0.nodes|, TermStage(n, mode, terms, inv, c0, j - 1).c)
    ensures ForwardFrom(n, inv, |c0.nodes|, TermStage(n, mode, terms, inv, c0, j).c)
  {
    var s := TermStage(n, mode, terms, inv, c0, j - 1);
    AddTermForward(n, mode, terms, inv, |c0.nodes|, s, j - 1);
    assert TermStage(n, mode, terms, inv, c0, j) == AddTerm(n, mode, terms, inv, s, j - 1);
  }

  /** f grows c: the nodes of c stay in front and the wires into them are unchanged. */
  predicate Grows(c: Circuit, f: Circuit)
  {
    |c.nodes| <= |f.nodes| && f.nodes[..|c.nodes|] == c.nodes &&
    forall id: nat :: id <= |c.nodes| ==> Sources(f.edges, id) == Sources(c.edges, id)
  }

  /** A turn of the term loop grows the graph. */
  lemma AddTermGrows(n: nat, mode: Mode, terms: seq<Cube>, inv: map<nat, nat>, c0: Circuit, s: Gated, j: nat)
    requires j < |terms| && AllSourced(n, mode, inv, terms) && Grows(c0, s.c)
    ensures Grows(c0, AddTerm(n, mode, terms, inv, s, j).c)
  {
    var r := AddTerm(n, mode, terms, inv, s, j);
    if !IsDirect(mode, n, terms, terms[j]) {
      var wires := Wires(LitSources(n, mode, inv, terms[j], n), |s.c.nodes| + 1);
      assert r.c.nodes[..|c0.nodes|] == s.c.nodes[..|c0.nodes|];
      forall id: nat | id <= |c0.nodes|
        ensures Sources(r.c.edges, id) == Sources(c0.edges, id)
      {
        SourcesKept(s.c.edges, wires, id);
      }
    }
  }

  /** The term stage grows the graph it starts from. */
  lemma {:induction false} TermStageGrows(n: nat, mode: Mode, terms: seq<Cube>, inv: map<nat, nat>, c0: Circuit, j: nat)
    requires j <= |terms| && AllSourced(n, mode, inv, terms)
    ensures Grows(c0, TermStage(n, mode, terms, inv, c0, j).c)
  {
    if j > 0 {
      TermStageGrows(n, mode, terms, inv, c0, j - 1);
      TermStepGrows(n, mode, terms, inv, c0, j);
    } else {
      assert c0.nodes[..|c0.nodes|] == c0.nodes;
    }
  }

  lemma TermStepGrows(n: nat, mode: Mode, terms: seq<Cube>, inv: map<nat, nat>, c0: Circuit, j: nat)
    requires 0 < j <= |terms| && AllSourced(n, mode, inv, terms)
    requires Grows(c0, TermStage(n, mode, terms, inv, c0, j - 1).c)
    ensures Grows(c0, TermStage(n, mode, terms, inv, c0, j).c)
  {
    var s := TermStage(n, mode, terms, inv, c0, j - 1);
    AddTermGrows(n, mode, terms, inv, c0, s, j - 1);
    assert TermStage(n, mode, terms, inv, c0, j) == AddTerm(n, mode, terms, inv, s, j - 1);
  }

  /** The gate of each term recorded so far that is not direct is one of the nodes and
      has one wire in per literal of its term, from the literal's input or inverter, in
      position order; no wire runs past the last node. */
  predicate GatesWired(n: nat, mode: Mode, terms: seq<Cube>, inv: map<nat, nat>, c: Circuit, gateIds: seq<nat>)
  {
    AllSourced(n, mode, inv, terms) && |gateIds| <= |terms| && TargetsWithin(c.edges, |c.nodes|) &&
    forall j' :: 0 <= j' < |gateIds| && !IsDirect(mode, n, terms, terms[j']) ==>
      gateIds[j'] <= |c.nodes| && Sources(c.edges, gateIds[j']) == LitSources(n, mode, inv, terms[j'], n)
  }

  lemma AddTermWired(n: nat, mode: Mode, terms: seq<Cube>, inv: map<nat, nat>, s: Gated, j: nat)
    requires j < |terms| && AllSourced(n, mode, inv, terms) && |s.gateIds| == j
    requires GatesWired(n, mode, terms, inv, s.c, s.gateIds)
    ensures var r := AddTerm(n, mode, terms, inv, s, j);
      GatesWired(n, mode, terms, inv, r.c, r.gateIds)
  {
    var r := AddTerm(n, mode, terms, inv, s, j);
    var g := |s.c.nodes| + 1;
    var lits := LitSources(n, mode, inv, terms[j], n);
    var wires := Wires(lits, g);
    forall j' | 0 <= j' < |r.gateIds| && !IsDirect(mode, n, terms, terms[j'])
      ensures r.gateIds[j'] <= |r.c.nodes| && Sources(r.c.edges, r.gateIds[j']) == LitSources(n, mode, inv, terms[j'], n)
    {
      if j' < j {
        assert r.gateIds[j'] == s.gateIds[j'];
        SourcesKept(s.c.edges, wires, s.gateIds[j']);
      } else {
        SourcesTail(s.c.edges, wires, g);
        SourcesOfWires(lits, g, g);
      }
    }
  }

  lemma {:induction false} TermStageSources(n: nat, mode: Mode, terms: seq<Cube>, inv: map<nat, nat>, c0: Circuit, j: nat)
    requires j <= |terms| && AllSourced(n, mode, inv, terms) && TargetsWithin(c0.edges, |c0.nodes|)
    ensures var s := TermStage(n, mode, terms, inv, c0, j);
      GatesWired(n, mode, terms, inv, s.c, s.gateIds)
  {
    if j > 0 {
      TermStageSources(n, mode, terms, inv, c0, j - 1);
      TermStepWired(n, mode, terms, inv, c0, j);
    }
  }

  lemma TermStepWired(n: nat, mode: Mode, terms: seq<Cube>, inv: map<nat, nat>, c0: Circuit, j: nat)
    requires 0 < j <= |terms| && AllSourced(n, mode, inv, terms) && TargetsWithin(c0.edges, |c0.nodes|)
    requires var s := TermStage(n, mode, terms, inv, c0, j - 1);
      GatesWired(n, mode, terms, inv, s.c, s.gateIds)
    ensures var s := TermStage(n, mode, terms, inv, c0, j);
      GatesWired(n, mode, terms, inv, s.c, s.gateIds)
  {
    var s := TermStage(n, mode, terms, inv, c0, j - 1);
    AddTermWired(n, mode, terms, inv, s, j - 1);
    assert TermStage(n, mode, terms, inv, c0, j) == AddTerm(n, mode, terms, inv, s, j - 1);
  }

  // ---------------------------------------------------------------------------
  // What the signals compute

  /** The inputs come first, and each inverter in `inv` is a gate of the basis fed by its
      own input alone. */
  ghost predicate Ready(c: Circuit, n: nat, mode: Mode, inv: map<nat, nat>)
  {
    Forward(c) && n <= |c.nodes| && (forall k :: 0 <= k < n ==> c.nodes[k].kind == Input(k)) &&
    forall x :: x in inv ==>
      x < n && 1 <= inv[x] <= |c.nodes| && c.nodes[inv[x] - 1].kind == Inverter(x, InverterOp(mode)) &&
      Sources(c.edges, inv[x]) == [x + 1]
  }

  /** What the wire of a literal carries: the input bit agrees with the literal, except
      in the dualized NOR first stage, where it disagrees. */
  predicate LitHigh(mode: Mode, n: nat, s: Sym, b: bool)
  {
    Agrees(s, b) != NorMulti(mode, n)
  }

  lemma LitSourceValue(c: Circuit, a: seq<bool>, n: nat, mode: Mode, inv: map<nat, nat>, term: Cube, k: nat)
    requires Ready(c, n, mode, inv) && |a| == n && |term| == n && Sourced(n, mode, inv, term)
    requires k < n && term[k] != Dash
    ensures NodeValue(c, a, LitSource(n, mode, inv, term, k)) == LitHigh(mode, n, term[k], a[k])
  {
    Unfold(c, a, k + 1);
    if term[k] == TargetBit(mode, n) {
      UnfoldSingle(c, a, inv[k], k + 1);
    }
  }

  lemma AllHighSnoc(c: Circuit, a: seq<bool>, srcs: seq<nat>, s: nat)
    requires Forward(c)
    ensures AllHigh(c, a, srcs + [s]) == (AllHigh(c, a, srcs) && NodeValue(c, a, s))
    ensures AnyHigh(c, a, srcs + [s]) == (AnyHigh(c, a, srcs) || NodeValue(c, a, s))
  {
    var t := srcs + [s];
    assert t[|srcs|] == s;
    assert forall k :: 0 <= k < |srcs| ==> t[k] == srcs[k];
  }

  /** The wires of a gate's literals are all high when every literal is high. */
  lemma {:induction false} LitSourcesAll(c: Circuit, a: seq<bool>, n: nat, mode: Mode, inv: map<nat, nat>, term: Cube, k: nat)
    requires Forward(c) && |a| == n && |term| == n && Sourced(n, mode, inv, term) && k <= n
    requires forall x :: 0 <= x < n && term[x] != Dash ==>
      NodeValue(c, a, LitSource(n, mode, inv, term, x)) == LitHigh(mode, n, term[x], a[x])
    ensures AllHigh(c, a, LitSources(n, mode, inv, term, k)) <==>
      forall x :: 0 <= x < k && term[x] != Dash ==> LitHigh(mode, n, term[x], a[x])
  {
    if k > 0 {
      LitSourcesAll(c, a, n, mode, inv, term, k - 1);
      if term[k - 1] != Dash {
        AllHighSnoc(c, a, LitSources(n, mode, inv, term, k - 1), LitSource(n, mode, inv, term, k - 1));
      } else {
        assert LitSources(n, mode, inv, term, k) == LitSources(n, mode, inv, term, k - 1) + [];
        assert LitSources(n, mode, inv, term, k - 1) + [] == LitSources(n, mode, inv, term, k - 1);
      }
    }
  }

  /** The wires of a gate's literals include a high one when some literal is high. */
  lemma {:induction false} LitSourcesAny(c: Circuit, a: seq<bool>, n: nat, mode: Mode, inv: map<nat, nat>, term: Cube, k: nat)
    requires Forward(c) && |a| == n && |term| == n && Sourced(n, mode, inv, term) && k <= n
    requires forall x :: 0 <= x < n && term[x] != Dash ==>
      NodeValue(c, a, LitSource(n, mode, inv, term, x)) == LitHigh(mode, n, term[x], a[x])
    ensures AnyHigh(c, a, LitSources(n, mode, inv, term, k)) <==>
      exists x :: 0 <= x < k && term[x] != Dash && LitHigh(mode, n, term[x], a[x])
  {
    if k > 0 {
      LitSourcesAny(c, a, n, mode, inv, term, k - 1);
      if term[k - 1] != Dash {
        AllHighSnoc(c, a, LitSources(n, mode, inv, term, k - 1), LitSource(n, mode, inv, term, k - 1));
      } else {
        assert LitSources(n, mode, inv, term, k) == LitSources(n, mode, inv, term, k - 1) + [];
        assert LitSources(n, mode, inv, term, k - 1) + [] == LitSources(n, mode, inv, term, k - 1);
        if exists x :: 0 <= x < k && term[x] != Dash && LitHigh(mode, n, term[x], a[x]) {
          var x :| 0 <= x < k && term[x] != Dash && LitHigh(mode, n, term[x], a[x]);
          assert x < k - 1;
        }
      }
    }
  }

  /** A first-stage gate: AND and the dualized NOR compute whether the term matches,
      NAND its negation; a NOR that is not dualized only gets here without literals. */
  lemma GateValue(c: Circuit, a: seq<bool>, n: nat, mode: Mode, inv: map<nat, nat>, terms: seq<Cube>, j: nat, g: nat)
    requires Ready(c, n, mode, inv) && |a| == n && AllSourced(n, mode, inv, terms) && j < |terms|
    requires !IsDirect(mode, n, terms, terms[j])
    requires 1 <= g <= |c.nodes| && c.nodes[g - 1].kind == TermGate(j, TermOp(mode))
    requires Sources(c.edges, g) == LitSources(n, mode, inv, terms[j], n)
    ensures NodeValue(c, a, g) == (if mode == NandOnly then !Matches(terms[j], a) else Matches(terms[j], a))
  {
    var term := terms[j];
    Unfold(c, a, g);
    forall x | 0 <= x < n && term[x] != Dash
      ensures NodeValue(c, a, LitSource(n, mode, inv, term, x)) == LitHigh(mode, n, term[x], a[x])
    {
      LitSourceValue(c, a, n, mode, inv, term, x);
    }
    LitSourcesAll(c, a, n, mode, inv, term, n);
    LitSourcesAny(c, a, n, mode, inv, term, n);
    if mode == NorOnly && !NorMulti(mode, n) {
      assert LiteralCount(term) != 1;
      assert LiteralCount(term) == 0;
      NoLiteral(term);
    }
  }

  /** A direct term's signal is its literal's input or inverter, which matches the term. */
  lemma DirectValue(c: Circuit, a: seq<bool>, n: nat, mode: Mode, inv: map<nat, nat>, terms: seq<Cube>, j: nat)
    requires Ready(c, n, mode, inv) && |a| == n && AllSourced(n, mode, inv, terms) && j < |terms|
    requires IsDirect(mode, n, terms, terms[j])
    ensures NodeValue(c, a, LitSource(n, mode, inv, terms[j], DirectLiteral(terms[j]))) == Matches(terms[j], a)
  {
    var k := DirectLiteral(terms[j]);
    LitSourceValue(c, a, n, mode, inv, terms[j], k);
    OnlyLiteral(terms[j], k);
  }

  /** How the term signals are wired: a direct term's signal is the source of its one
      literal; any other term's signal is its own gate of the basis, fed by the sources of
      its literals. */
  ghost predicate SignalsWired(f: Circuit, n: nat, mode: Mode, inv: map<nat, nat>, terms: seq<Cube>, gateIds: seq<nat>)
  {
    AllSourced(n, mode, inv, terms) && |gateIds| == |terms| &&
    forall j :: 0 <= j < |terms| ==>
      if IsDirect(mode, n, terms, terms[j]) then
        gateIds[j] == LitSource(n, mode, inv, terms[j], DirectLiteral(terms[j]))
      else
        1 <= gateIds[j] <= |f.nodes| && f.nodes[gateIds[j] - 1].kind == TermGate(j, TermOp(mode)) &&
        Sources(f.edges, gateIds[j]) == LitSources(n, mode, inv, terms[j], n)
  }

  /** Signals wired that way carry whether their terms match (negated at a NAND gate). */
  lemma WiredCarry(f: Circuit, a: seq<bool>, n: nat, mode: Mode, inv: map<nat, nat>, terms: seq<Cube>, gateIds: seq<nat>)
    requires Ready(f, n, mode, inv) && |a| == n && SignalsWired(f, n, mode, inv, terms, gateIds)
    ensures SignalsCarry(f, a, n, mode, terms, gateIds)
  {
    forall j | 0 <= j < |terms|
      ensures NodeValue(f, a, gateIds[j]) ==
        if mode == NandOnly && !IsDirect(mode, n, terms, terms[j]) then !Matches(terms[j], a) else Matches(terms[j], a)
    {
      if IsDirect(mode, n, terms, terms[j]) {
        DirectValue(f, a, n, mode, inv, terms, j);
      } else {
        GateValue(f, a, n, mode, inv, terms, j, gateIds[j]);
      }
    }
  }

  // ---------------------------------------------------------------------------
  // The combining stage

  /** Appending nodes, and wires into the new nodes only, grows a graph. */
  lemma GrowsByAppend(c: Circuit, nodes: seq<Node>, edges: seq<Edge>)
    requires forall e :: e in edges ==> e.target > |c.nodes|
    ensures Grows(c, Circuit(c.nodes + nodes, c.edges + edges))
  {
    assert (c.nodes + nodes)[..|c.nodes|] == c.nodes;
    forall id: nat | id <= |c.nodes|
      ensures Sources(c.edges + edges, id) == Sources(c.edges, id)
    {
      SourcesKept(c.edges, edges, id);
    }
  }

  /** The combining stage appends its nodes and wires after those of the term stage;
      each new wire runs into a new node from an earlier node that is not the output,
      or into the output. */
  lemma CombineTail(mode: Mode, terms: seq<Cube>, c: Circuit, gateIds: seq<nat>)
    requires |terms| >= 1 && |gateIds| == |terms| && NoOutput(c.nodes)
    requires forall j :: 0 <= j < |gateIds| ==> 1 <= gateIds[j] <= |c.nodes|
    ensures var f := Combine(mode, terms, c, gateIds);
      |c.nodes| < |f.nodes| && |c.edges| <= |f.edges| &&
      f.nodes == c.nodes + f.nodes[|c.nodes|..] && f.edges == c.edges + f.edges[|c.edges|..] &&
      forall e :: e in f.edges[|c.edges|..] ==> Wired(f.nodes, e) && e.target > |c.nodes|
  {
    var f := Combine(mode, terms, c, gateIds);
    var tailEdges := f.edges[|c.edges|..];
    assert f.edges == c.edges + tailEdges;
    forall e | e in tailEdges
      ensures Wired(f.nodes, e) && e.target > |c.nodes|
    {
      if e.source <= |c.nodes| {
        assert f.nodes[e.source - 1] == c.nodes[e.source - 1];
      }
    }
  }

  /** The combining stage keeps the graph forward and grows it. */
  lemma CombineForward(mode: Mode, terms: seq<Cube>, c: Circuit, gateIds: seq<nat>)
    requires |terms| >= 1 && |gateIds| == |terms| && Forward(c) && NoOutput(c.nodes)
    requires forall j :: 0 <= j < |gateIds| ==> 1 <= gateIds[j] <= |c.nodes|
    ensures var f := Combine(mode, terms, c, gateIds);
      |c.nodes| < |f.nodes| && Grows(c, f) && Forward(f)
  {
    var f := Combine(mode, terms, c, gateIds);
    CombineTail(mode, terms, c, gateIds);
    var tailNodes := f.nodes[|c.nodes|..];
    var tailEdges := f.edges[|c.edges|..];
    ForwardGrow(c, tailNodes, tailEdges);
    GrowsByAppend(c, tailNodes, tailEdges);
  }

  /** The wires into the output and the fixer of a single term. */
  lemma CombineSourcesOne(mode: Mode, terms: seq<Cube>, c: Circuit, gateIds: seq<nat>)
    requires |terms| == 1 && |gateIds| == 1 && Forward(c)
    ensures var f := Combine(mode, terms, c, gateIds);
      var o := |c.nodes| + 1;
      if NeedsFixer(mode, terms) then Sources(f.edges, o + 1) == [gateIds[0]] && Sources(f.edges, o) == [o + 1]
      else Sources(f.edges, o) == [gateIds[0]]
  {
    var o := |c.nodes| + 1;
    var g0 := gateIds[0];
    forall e | e in c.edges
      ensures e.target < o
    {
      assert Wired(c.nodes, e);
    }
    if NeedsFixer(mode, terms) {
      var e1, e2 := Edge(g0, o + 1), Edge(o + 1, o);
      SourcesTail(c.edges, [e1, e2], o);
      SourcesTail(c.edges, [e1, e2], o + 1);
      SourcesOfTwo(e1, e2, o);
      SourcesOfTwo(e1, e2, o + 1);
      SourcesOfOne(e1, o);
      SourcesOfOne(e2, o);
      SourcesOfOne(e1, o + 1);
      SourcesOfOne(e2, o + 1);
    } else {
      SourcesTail(c.edges, [Edge(g0, o)], o);
      SourcesOfOne(Edge(g0, o), o);
    }
  }

  /** The sources of a node past the end of `edges`, once the wires from `srcs` into fin
      and then `rest` are appended. */
  lemma TailSources(edges: seq<Edge>, srcs: seq<nat>, fin: nat, rest: seq<Edge>, id: nat)
    requires forall e :: e in edges ==> e.target < id
    ensures Sources(edges + (Wires(srcs, fin) + rest), id) == (if id == fin then srcs else []) + Sources(rest, id)
  {
    SourcesTail(edges, Wires(srcs, fin) + rest, id);
    SourcesAppend(Wires(srcs, fin), rest, id);
    SourcesOfWires(srcs, fin, id);
  }

  /** The wires into the output, the final gate and the fixer of several terms. */
  lemma CombineSourcesMany(mode: Mode, terms: seq<Cube>, c: Circuit, gateIds: seq<nat>)
    requires |terms| > 1 && |gateIds| == |terms| && Forward(c)
    ensures var f := Combine(mode, terms, c, gateIds);
      var o := |c.nodes| + 1;
      Sources(f.edges, o + 1) == gateIds &&
      if NeedsFixer(mode, terms) then Sources(f.edges, o + 2) == [o + 1] && Sources(f.edges, o) == [o + 2]
      else Sources(f.edges, o) == [o + 1]
  {
    var o := |c.nodes| + 1;
    var fin := o + 1;
    forall e | e in c.edges
      ensures e.target < o
    {
      assert Wired(c.nodes, e);
    }
    var wires := Wires(gateIds, fin);
    if NeedsFixer(mode, terms) {
      var e1, e2 := Edge(fin, fin + 1), Edge(fin + 1, o);
      assert Combine(mode, terms, c, gateIds).edges == c.edges + (wires + [e1, e2]);
      TailSources(c.edges, gateIds, fin, [e1, e2], o);
      TailSources(c.edges, gateIds, fin, [e1, e2], fin);
      TailSources(c.edges, gateIds, fin, [e1, e2], fin + 1);
      SourcesOfTwo(e1, e2, o);
      SourcesOfTwo(e1, e2, fin);
      SourcesOfTwo(e1, e2, fin + 1);
      SourcesOfOne(e1, fin);
      SourcesOfOne(e2, fin);
      SourcesOfOne(e1, fin + 1);
      SourcesOfOne(e2, fin + 1);
      SourcesOfOne(e1, o);
      SourcesOfOne(e2, o);
    } else {
      var e1 := Edge(fin, o);
      assert Combine(mode, terms, c, gateIds).edges == c.edges + (wires + [e1]);
      TailSources(c.edges, gateIds, fin, [e1], o);
      TailSources(c.edges, gateIds, fin, [e1], fin);
      SourcesOfOne(e1, fin);
      SourcesOfOne(e1, o);
    }
  }

  /** What each term signal carries once the term stage is done: whether the term
      matches, negated for the gate of a NAND term. */
  ghost predicate SignalsCarry(f: Circuit, a: seq<bool>, n: nat, mode: Mode, terms: seq<Cube>, gateIds: seq<nat>)
    requires Forward(f)
  {
    |gateIds| == |terms| &&
    forall j :: 0 <= j < |terms| ==>
      NodeValue(f, a, gateIds[j]) ==
        if mode == NandOnly && !IsDirect(mode, n, terms, terms[j]) then !Matches(terms[j], a) else Matches(terms[j], a)
  }

  /** The output terminal shows the sum of products: some term matches. */
  lemma CombineValue(n: nat, mode: Mode, terms: seq<Cube>, c: Circuit, gateIds: seq<nat>, a: seq<bool>)
    requires Synthesized(terms) && |gateIds| == |terms| && forall j :: 0 <= j < |terms| ==> |terms[j]| == n
    requires Forward(c) && Forward(Combine(mode, terms, c, gateIds))
    requires SignalsCarry(Combine(mode, terms, c, gateIds), a, n, mode, terms, gateIds)
    ensures NodeValue(Combine(mode, terms, c, gateIds), a, |c.nodes| + 1) == AnyMatch(terms, a)
  {
    if |terms| == 1 {
      CombineOne(n, mode, terms, c, gateIds, a);
      assert AnyMatch(terms, a) == Matches(terms[0], a);
    } else {
      CombineMany(n, mode, terms, c, gateIds, a);
    }
  }

  /** A single NAND term without a fixer has one literal, so it is a direct wire. */
  lemma SingleNandDirect(n: nat, terms: seq<Cube>)
    requires Synthesized(terms) && |terms| == 1 && !NeedsFixer(NandOnly, terms)
    ensures IsDirect(NandOnly, n, terms, terms[0])
  {
    if LiteralCount(terms[0]) == 0 {
      NoLiteral(terms[0]);
    }
  }

  lemma CombineOne(n: nat, mode: Mode, terms: seq<Cube>, c: Circuit, gateIds: seq<nat>, a: seq<bool>)
    requires Synthesized(terms) && |terms| == 1 && |gateIds| == 1 && |terms[0]| == n
    requires Forward(c) && Forward(Combine(mode, terms, c, gateIds))
    requires SignalsCarry(Combine(mode, terms, c, gateIds), a, n, mode, terms, gateIds)
    ensures NodeValue(Combine(mode, terms, c, gateIds), a, |c.nodes| + 1) == Matches(terms[0], a)
  {
    var f := Combine(mode, terms, c, gateIds);
    var o := |c.nodes| + 1;
    CombineSourcesOne(mode, terms, c, gateIds);
    assert f.nodes[o - 1] == Node(o, Output(false));
    if NeedsFixer(mode, terms) {
      assert f.nodes[o] == Node(o + 1, Fixer(Nand));
      UnfoldSingle(f, a, o + 1, gateIds[0]);
      UnfoldSingle(f, a, o, o + 1);
    } else {
      UnfoldSingle(f, a, o, gateIds[0]);
      if mode == NandOnly {
        SingleNandDirect(n, terms);
      }
    }
  }

  /** The final gate of several terms: OR and NAND (over negated signals) give the sum
      of products, NOR its negation. */
  lemma FinalValue(n: nat, mode: Mode, terms: seq<Cube>, f: Circuit, gateIds: seq<nat>, fin: nat, a: seq<bool>)
    requires |terms| > 1 && forall j :: 0 <= j < |terms| ==> |terms[j]| == n
    requires Forward(f) && 1 <= fin <= |f.nodes| && f.nodes[fin - 1].kind == FinalGate(FinalOp(mode))
    requires Sources(f.edges, fin) == gateIds && SignalsCarry(f, a, n, mode, terms, gateIds)
    ensures NodeValue(f, a, fin) == (AnyMatch(terms, a) != (mode == NorOnly))
  {
    Unfold(f, a, fin);
    if AnyMatch(terms, a) {
      var j :| 0 <= j < |terms| && Matches(terms[j], a);
      if mode != NandOnly {
        assert NodeValue(f, a, gateIds[j]);
      }
    }
  }

  lemma CombineMany(n: nat, mode: Mode, terms: seq<Cube>, c: Circuit, gateIds: seq<nat>, a: seq<bool>)
    requires |terms| > 1 && |gateIds| == |terms| && forall j :: 0 <= j < |terms| ==> |terms[j]| == n
    requires Forward(c) && Forward(Combine(mode, terms, c, gateIds))
    requires SignalsCarry(Combine(mode, terms, c, gateIds), a, n, mode, terms, gateIds)
    ensures NodeValue(Combine(mode, terms, c, gateIds), a, |c.nodes| + 1) == AnyMatch(terms, a)
  {
    var f := Combine(mode, terms, c, gateIds);
    var o := |c.nodes| + 1;
    var fin := o + 1;
    CombineSourcesMany(mode, terms, c, gateIds);
    assert f.nodes[o - 1] == Node(o, Output(false));
    assert f.nodes[fin - 1] == Node(fin, FinalGate(FinalOp(mode)));
    FinalValue(n, mode, terms, f, gateIds, fin, a);
    if NeedsFixer(mode, terms) {
      assert f.nodes[fin] == Node(fin + 1, Fixer(Nor));
      UnfoldSingle(f, a, fin + 1, fin);
      UnfoldSingle(f, a, o, fin + 1);
    } else {
      UnfoldSingle(f, a, o, fin);
    }
  }

  /** The tail the combining stage appends keeps the ids sequential, and the output
      terminal is its first node and the only one in the graph. */
  lemma CombineShape(mode: Mode, terms: seq<Cube>, c: Circuit, gateIds: seq<nat>)
    requires |terms| >= 1 && |gateIds| == |terms| && NoOutput(c.nodes)
    ensures var f := Combine(mode, terms, c, gateIds);
      (Sequential(c.nodes) ==> Sequential(f.nodes)) &&
      forall k :: 0 <= k < |f.nodes| ==> (f.nodes[k].kind.Output? <==> k == |c.nodes|)
  {
  }

  // ---------------------------------------------------------------------------
  // The whole graph

  lemma ReadyGrows(c: Circuit, f: Circuit, n: nat, mode: Mode, inv: map<nat, nat>)
    requires Ready(c, n, mode, inv) && Grows(c, f) && Forward(f)
    ensures Ready(f, n, mode, inv)
  {
    forall k | 0 <= k < n
      ensures f.nodes[k].kind == Input(k)
    {
      assert f.nodes[k] == f.nodes[..|c.nodes|][k];
    }
    forall x | x in inv
      ensures f.nodes[inv[x] - 1].kind == Inverter(x, InverterOp(mode)) && Sources(f.edges, inv[x]) == [x + 1]
    {
      assert f.nodes[inv[x] - 1] == f.nodes[..|c.nodes|][inv[x] - 1];
    }
  }

  lemma SignalsWiredGrows(c: Circuit, f: Circuit, n: nat, mode: Mode, inv: map<nat, nat>, terms: seq<Cube>, gateIds: seq<nat>)
    requires SignalsWired(c, n, mode, inv, terms, gateIds) && Grows(c, f)
    ensures SignalsWired(f, n, mode, inv, terms, gateIds)
  {
    forall j | 0 <= j < |terms| && !IsDirect(mode, n, terms, terms[j])
      ensures f.nodes[gateIds[j] - 1] == c.nodes[gateIds[j] - 1]
    {
      assert f.nodes[gateIds[j] - 1] == f.nodes[..|c.nodes|][gateIds[j] - 1];
    }
  }

  /** After the inverter stage the inputs come first and each inverter is fed by its
      own input. */
  lemma InverterStageReady(n: nat, mode: Mode, terms: seq<Cube>)
    ensures var s := InverterStage(n, mode, terms, n);
      Ready(s.c, n, mode, s.inv) && ForwardFrom(n, s.inv, |s.c.nodes|, s.c) && Sequential(s.c.nodes) &&
      TargetsWithin(s.c.edges, |s.c.nodes|)
  {
    var s := InverterStage(n, mode, terms, n);
    InverterStageKeys(n, mode, terms, n);
    InverterStageMap(n, mode, terms, n);
    InverterStageForward(n, mode, terms, n);
    InverterStageSources(n, mode, terms, n);
    forall k | 0 <= k < n
      ensures s.c.nodes[k].kind == Input(k)
    {
      assert s.c.nodes[k] == s.c.nodes[..n][k];
    }
  }

  /** After the term stage every signal is wired as `SignalsWired` says. */
  lemma TermStageSignals(n: nat, mode: Mode, terms: seq<Cube>, inv: map<nat, nat>, c0: Circuit)
    requires AllSourced(n, mode, inv, terms) && TargetsWithin(c0.edges, |c0.nodes|)
    ensures var g := TermStage(n, mode, terms, inv, c0, |terms|);
      SignalsWired(g.c, n, mode, inv, terms, g.gateIds)
  {
    TermStageDirect(n, mode, terms, inv, c0, |terms|);
    TermStageGates(n, mode, terms, inv, c0, |terms|);
    TermStageSources(n, mode, terms, inv, c0, |terms|);
  }

  /** The first two stages of the general construction leave a forward, output-free,
      sequentially numbered graph, ready to evaluate, whose term signals are wired as
      `SignalsWired` says. */
  lemma GatedGraph(n: nat, mode: Mode, terms: seq<Cube>)
    requires forall j :: 0 <= j < |terms| ==> |terms[j]| == n
    ensures var s := InverterStage(n, mode, terms, n);
      AllSourced(n, mode, s.inv, terms) &&
      var g := TermStage(n, mode, terms, s.inv, s.c, |terms|);
      Forward(g.c) && NoOutput(g.c.nodes) && Sequential(g.c.nodes) && Ready(g.c, n, mode, s.inv) &&
      SignalsWired(g.c, n, mode, s.inv, terms, g.gateIds) &&
      forall j :: 0 <= j < |terms| ==> 1 <= g.gateIds[j] <= |g.c.nodes|
  {
    var s := InverterStage(n, mode, terms, n);
    InverterStageSourced(n, mode, terms);
    InverterStageReady(n, mode, terms);
    TermStageForward(n, mode, terms, s.inv, s.c, |terms|);
    TermStageNodes(n, mode, terms, s.inv, s.c, |terms|);
    TermStageGrows(n, mode, terms, s.inv, s.c, |terms|);
    TermStageSignals(n, mode, terms, s.inv, s.c);
    var g := TermStage(n, mode, terms, s.inv, s.c, |terms|);
    ReadyGrows(s.c, g.c, n, mode, s.inv);
    forall j | 0 <= j < |terms|
      ensures 1 <= g.gateIds[j] <= |g.c.nodes|
    {
      if IsDirect(mode, n, terms, terms[j]) {
        var k := DirectLiteral(terms[j]);
        assert g.gateIds[j] == LitSource(n, mode, s.inv, terms[j], k);
      }
    }
  }

  /** The general construction, once the first two stages are done. */
  lemma BuildCombines(n: nat, mode: Mode, terms: seq<Cube>)
    requires forall j :: 0 <= j < |terms| ==> |terms[j]| == n
    requires Synthesized(terms)
    ensures var s := InverterStage(n, mode, terms, n);
      AllSourced(n, mode, s.inv, terms) &&
      var g := TermStage(n, mode, terms, s.inv, s.c, |terms|);
      Build(n, mode, terms) == Combine(mode, terms, g.c, g.gateIds)
  {
    InverterStageSourced(n, mode, terms);
  }

  /** The graph is well formed: ids in creation order, every wire forward. */
  lemma BuildForward(n: nat, mode: Mode, terms: seq<Cube>)
    requires forall j :: 0 <= j < |terms| ==> |terms[j]| == n
    ensures Forward(Build(n, mode, terms)) && Sequential(Build(n, mode, terms).nodes)
  {
    if Synthesized(terms) {
      var s := InverterStage(n, mode, terms, n);
      GatedGraph(n, mode, terms);
      BuildCombines(n, mode, terms);
      var g := TermStage(n, mode, terms, s.inv, s.c, |terms|);
      CombineForward(mode, terms, g.c, g.gateIds);
      CombineShape(mode, terms, g.c, g.gateIds);
    }
  }

  /** The combining stage keeps the graph ready and its signals wired. */
  lemma CombineKeeps(n: nat, mode: Mode, terms: seq<Cube>, c: Circuit, gateIds: seq<nat>, inv: map<nat, nat>)
    requires |terms| >= 1 && |gateIds| == |terms| && NoOutput(c.nodes)
    requires forall j :: 0 <= j < |gateIds| ==> 1 <= gateIds[j] <= |c.nodes|
    requires Ready(c, n, mode, inv) && SignalsWired(c, n, mode, inv, terms, gateIds)
    ensures var f := Combine(mode, terms, c, gateIds);
      Forward(f) && Ready(f, n, mode, inv) && SignalsWired(f, n, mode, inv, terms, gateIds)
  {
    var f := Combine(mode, terms, c, gateIds);
    CombineForward(mode, terms, c, gateIds);
    ReadyGrows(c, f, n, mode, inv);
    SignalsWiredGrows(c, f, n, mode, inv, terms, gateIds);
  }

  /** The output of the combined graph is the sum of the terms. */
  lemma CombineEvaluates(n: nat, mode: Mode, terms: seq<Cube>, c: Circuit, gateIds: seq<nat>, inv: map<nat, nat>, a: seq<bool>)
    requires Synthesized(terms) && |gateIds| == |terms| && forall j :: 0 <= j < |terms| ==> |terms[j]| == n
    requires Forward(c) && NoOutput(c.nodes) && |a| == n
    requires Ready(Combine(mode, terms, c, gateIds), n, mode, inv)
    requires SignalsWired(Combine(mode, terms, c, gateIds), n, mode, inv, terms, gateIds)
    ensures Evaluate(Combine(mode, terms, c, gateIds), a) == AnyMatch(terms, a)
  {
    var f := Combine(mode, terms, c, gateIds);
    WiredCarry(f, a, n, mode, inv, terms, gateIds);
    CombineValue(n, mode, terms, c, gateIds, a);
    CombineShape(mode, terms, c, gateIds);
    EvaluateOutput(f, a, |c.nodes| + 1);
  }

  lemma SynthesizedComputes(n: nat, mode: Mode, terms: seq<Cube>, a: seq<bool>)
    requires forall j :: 0 <= j < |terms| ==> |terms[j]| == n
    requires Synthesized(terms) && |a| == n
    ensures Forward(Build(n, mode, terms)) && Evaluate(Build(n, mode, terms), a) == AnyMatch(terms, a)
  {
    var s := InverterStage(n, mode, terms, n);
    GatedGraph(n, mode, terms);
    BuildCombines(n, mode, terms);
    var g := TermStage(n, mode, terms, s.inv, s.c, |terms|);
    CombineKeeps(n, mode, terms, g.c, g.gateIds, s.inv);
    CombineEvaluates(n, mode, terms, g.c, g.gateIds, s.inv, a);
  }

  /** The circuit computes the sum of the terms: for every assignment of the inputs, its
      output is 1 exactly when some term matches. */
  lemma BuildComputes(n: nat, mode: Mode, terms: seq<Cube>, a: seq<bool>)
    requires forall j :: 0 <= j < |terms| ==> |terms[j]| == n
    requires |a| == n
    ensures Forward(Build(n, mode, terms)) && Evaluate(Build(n, mode, terms), a) == AnyMatch(terms, a)
  {
    if Synthesized(terms) {
      SynthesizedComputes(n, mode, terms, a);
    } else {
      var f := Build(n, mode, terms);
      EvaluateOutput(f, a, n + 1);
      Unfold(f, a, n + 1);
      if terms != [] {
        assert Matches(terms[0], a);
      }
    }
  }
}
