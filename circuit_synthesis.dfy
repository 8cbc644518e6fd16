/** `generateCircuit` as the generator runs it: node and edge lists that grow by
    appending, a running id counter, the inverter record filled variable by variable and
    the list of term signals filled term by term. Each phase is proved to produce
    exactly the graph the stage functions of `CircuitGenerator` describe, so everything
    proved about `Build` holds for what these methods return. */
module CircuitSynthesis {
  import opened Bits
  import opened Cubes
  import opened BooleanSimplifier
  import opened Circuits
  import opened CircuitGenerator

  /** `terms.some(term => term[i] === bit)`; a position past the end of a term reads as
      no bit. */
  method SomeHasBit(terms: seq<Cube>, i: nat, bit: Sym) returns (found: bool)
    ensures found <==> exists j :: 0 <= j < |terms| && i < |terms[j]| && terms[j][i] == bit
  {
    found := false;
    var j := 0;
    while j < |terms| && !found
      invariant 0 <= j <= |terms|
      invariant found <==> exists j' :: 0 <= j' < j && i < |terms[j']| && terms[j'][i] == bit
    {
      found := i < |terms[j]| && terms[j][i] == bit;
      j := j + 1;
    }
  }

  /** `term.split('').filter(c => c !== '-').length`. */
  method CountLiterals(term: Cube) returns (count: nat)
    ensures count == LiteralCount(term)
  {
    count := 0;
    for k := 0 to |term|
      invariant count + DashCount(term[..k]) == k
    {
      assert term[..k + 1][..k] == term[..k];
      if term[k] != Dash {
        count := count + 1;
      }
    }
    assert term[..|term|] == term;
  }

  /** `term.split('').every(c => c === '-')`. */
  method EveryDash(term: Cube) returns (all: bool)
    ensures all == IsAllDash(term)
  {
    all := true;
    var k := 0;
    while k < |term| && all
      invariant 0 <= k <= |term|
      invariant all <==> forall x :: 0 <= x < k ==> term[x] == Dash
    {
      all := term[k] == Dash;
      k := k + 1;
    }
  }

  /** `term.split('').findIndex(c => c !== '-')`: the first literal, or -1. */
  method FindLiteral(term: Cube) returns (idx: int)
    ensures -1 <= idx < |term|
    ensures idx == -1 ==> IsAllDash(term)
    ensures 0 <= idx ==> term[idx] != Dash && forall x :: 0 <= x < idx ==> term[x] == Dash
  {
    idx := 0;
    while idx < |term| && term[idx] == Dash
      invariant 0 <= idx <= |term|
      invariant forall x :: 0 <= x < idx ==> term[x] == Dash
    {
      idx := idx + 1;
    }
    if idx == |term| {
      idx := -1;
    }
  }

  /** Phase 2: one input terminal per variable, ids 1..n from the counter. */
  method PlaceInputs(numInputs: nat) returns (nodes: seq<Node>, inputIds: seq<nat>, nodeId: nat)
    ensures nodes == InputNodes(numInputs) && nodeId == |nodes| + 1
    ensures |inputIds| == numInputs && forall k :: 0 <= k < numInputs ==> inputIds[k] == k + 1
  {
    nodes, inputIds, nodeId := [], [], 1;
    for i := 0 to numInputs
      invariant |nodes| == i && nodeId == i + 1
      invariant forall k :: 0 <= k < i ==> nodes[k] == Node(k + 1, Input(k))
      invariant |inputIds| == i && forall k :: 0 <= k < i ==> inputIds[k] == k + 1
    {
      var id := nodeId;
      nodeId := nodeId + 1;
      inputIds := inputIds + [id];
      nodes := nodes + [Node(id, Input(i))];
    }
  }

  /** Phase 3: a shared inverter for every variable some term reads through one. */
  method PlaceInverters(n: nat, mode: Mode, terms: seq<Cube>, inputIds: seq<nat>, nodes0: seq<Node>, nodeId0: nat)
    returns (nodes: seq<Node>, edges: seq<Edge>, nodeId: nat, inverterIds: map<nat, nat>)
    requires |inputIds| == n && forall k :: 0 <= k < n ==> inputIds[k] == k + 1
    requires nodes0 == InputNodes(n) && nodeId0 == |nodes0| + 1
    ensures Stage(Circuit(nodes, edges), inverterIds) == InverterStage(n, mode, terms, n)
    ensures nodeId == |nodes| + 1
  {
    nodes, edges, nodeId, inverterIds := nodes0, [], nodeId0, map[];
    for i := 0 to n
      invariant Stage(Circuit(nodes, edges), inverterIds) == InverterStage(n, mode, terms, i)
      invariant nodeId == |nodes| + 1
    {
      var isNorMulti := mode == NorOnly && n > 1;
      var targetBit := if isNorMulti then One else Zero;
      var needsInverter := SomeHasBit(terms, i, targetBit);
      NeedsInverterIff(terms, i, mode, n);
      ghost var s := Stage(Circuit(nodes, edges), inverterIds);
      if needsInverter {
        var invId := nodeId;
        nodeId := nodeId + 1;
        inverterIds := inverterIds[i := invId];
        var op := Not;
        if mode == NandOnly { op := Nand; }
        if mode == NorOnly { op := Nor; }
        nodes := nodes + [Node(invId, Inverter(i, op))];
        edges := edges + [Edge(inputIds[i], invId)];
      }
      assert InverterStage(n, mode, terms, i + 1) == AddInverter(n, mode, terms, s, i);
    }
  }

  /** The signal of a direct term: its one literal, read through the inverter when the
      bit is '0'. */
  method DirectSignal(n: nat, mode: Mode, terms: seq<Cube>, inputIds: seq<nat>, inverterIds: map<nat, nat>, idx: nat)
    returns (signal: nat)
    requires idx < |terms| && AllSourced(n, mode, inverterIds, terms) && IsDirect(mode, n, terms, terms[idx])
    requires |inputIds| == n && forall k :: 0 <= k < n ==> inputIds[k] == k + 1
    ensures signal == LitSource(n, mode, inverterIds, terms[idx], DirectLiteral(terms[idx]))
  {
    var term := terms[idx];
    var inputIndex := FindLiteral(term);
    HasLiteral(term);
    assert inputIndex == DirectLiteral(term) by {
      OnlyLiteral(term, DirectLiteral(term));
    }
    var bit := term[inputIndex];
    var useInverter := bit == Zero;
    signal := if useInverter then inverterIds[inputIndex] else inputIds[inputIndex];
  }

  /** The wires into a new term gate: one per literal, in position order, from the input
      or, for the target bit, from the variable's inverter. */
  method WireGate(n: nat, mode: Mode, inputIds: seq<nat>, inverterIds: map<nat, nat>, term: Cube, gateId: nat, edges0: seq<Edge>)
    returns (edges: seq<Edge>)
    requires |term| == n && Sourced(n, mode, inverterIds, term)
    requires |inputIds| == n && forall k :: 0 <= k < n ==> inputIds[k] == k + 1
    ensures edges == edges0 + Wires(LitSources(n, mode, inverterIds, term, n), gateId)
  {
    var isNorMulti := mode == NorOnly && n > 1;
    edges := edges0;
    for inputIdx := 0 to |term|
      invariant edges == edges0 + Wires(LitSources(n, mode, inverterIds, term, inputIdx), gateId)
    {
      var bit := term[inputIdx];
      if bit != Dash {
        var targetBit := if isNorMulti then One else Zero;
        var useInverter := bit == targetBit;
        var sourceId := if useInverter then inverterIds[inputIdx] else inputIds[inputIdx];
        WiresSnoc(LitSources(n, mode, inverterIds, term, inputIdx), sourceId, gateId);
        edges := edges + [Edge(sourceId, gateId)];
      } else {
        assert LitSources(n, mode, inverterIds, term, inputIdx + 1) == LitSources(n, mode, inverterIds, term, inputIdx) + [];
      }
    }
  }

  /** Phase 4, one term: a direct wire records the source of its one literal; otherwise
      a new gate of the basis records its own id and gets its wires. */
  method GateTerm(n: nat, mode: Mode, terms: seq<Cube>, inputIds: seq<nat>, inverterIds: map<nat, nat>, idx: nat,
                  nodes0: seq<Node>, edges0: seq<Edge>, nodeId0: nat, gateIds0: seq<nat>)
    returns (nodes: seq<Node>, edges: seq<Edge>, nodeId: nat, gateIds: seq<nat>)
    requires idx < |terms| && AllSourced(n, mode, inverterIds, terms)
    requires |inputIds| == n && forall k :: 0 <= k < n ==> inputIds[k] == k + 1
    requires nodeId0 == |nodes0| + 1
    ensures Gated(Circuit(nodes, edges), gateIds) ==
      AddTerm(n, mode, terms, inverterIds, Gated(Circuit(nodes0, edges0), gateIds0), idx)
    ensures nodeId == |nodes| + 1
  {
    var term := terms[idx];
    var inputCount := CountLiterals(term);
    var isNorMulti := mode == NorOnly && n > 1;
    var forceGate := (mode == NandOnly && |terms| > 1) || isNorMulti;
    if inputCount == 1 && !forceGate {
      var signal := DirectSignal(n, mode, terms, inputIds, inverterIds, idx);
      gateIds := gateIds0 + [signal];
      nodes, edges, nodeId := nodes0, edges0, nodeId0;
    } else {
      var gateId := nodeId0;
      nodeId := nodeId0 + 1;
      gateIds := gateIds0 + [gateId];
      var op := And;
      if mode == NandOnly { op := Nand; }
      if mode == NorOnly { op := Nor; }
      nodes := nodes0 + [Node(gateId, TermGate(idx, op))];
      edges := WireGate(n, mode, inputIds, inverterIds, term, gateId, edges0);
    }
  }

  /** Phase 4: every term in order. */
  method PlaceTermGates(n: nat, mode: Mode, terms: seq<Cube>, inputIds: seq<nat>, inverterIds: map<nat, nat>,
                        nodes0: seq<Node>, edges0: seq<Edge>, nodeId0: nat)
    returns (nodes: seq<Node>, edges: seq<Edge>, nodeId: nat, gateIds: seq<nat>)
    requires AllSourced(n, mode, inverterIds, terms)
    requires |inputIds| == n && forall k :: 0 <= k < n ==> inputIds[k] == k + 1
    requires nodeId0 == |nodes0| + 1
    ensures Gated(Circuit(nodes, edges), gateIds) == TermStage(n, mode, terms, inverterIds, Circuit(nodes0, edges0), |terms|)
    ensures nodeId == |nodes| + 1
  {
    nodes, edges, nodeId, gateIds := nodes0, edges0, nodeId0, [];
    for idx := 0 to |terms|
      invariant Gated(Circuit(nodes, edges), gateIds) == TermStage(n, mode, terms, inverterIds, Circuit(nodes0, edges0), idx)
      invariant nodeId == |nodes| + 1
    {
      ghost var s := Gated(Circuit(nodes, edges), gateIds);
      nodes, edges, nodeId, gateIds := GateTerm(n, mode, terms, inputIds, inverterIds, idx, nodes, edges, nodeId, gateIds);
      assert TermStage(n, mode, terms, inverterIds, Circuit(nodes0, edges0), idx + 1) ==
        AddTerm(n, mode, terms, inverterIds, s, idx);
    }
  }

  /** Phase 5: the output terminal, then one term wired to it directly or through a NAND
      fixer, or several terms into a final gate wired to it directly or through a NOR
      fixer. */
  method CombineTerms(mode: Mode, terms: seq<Cube>, nodes0: seq<Node>, edges0: seq<Edge>, nodeId0: nat, gateIds: seq<nat>)
    returns (c: Circuit)
    requires |terms| >= 1 && |gateIds| == |terms| && nodeId0 == |nodes0| + 1
    ensures c == Combine(mode, terms, Circuit(nodes0, edges0), gateIds)
  {
    var nodes, edges, nodeId := nodes0, edges0, nodeId0;
    var outputNodeId := nodeId;
    nodeId := nodeId + 1;
    nodes := nodes + [Node(outputNodeId, Output(false))];
    if |terms| == 1 {
      var termId := gateIds[0];
      var inputCount := CountLiterals(terms[0]);
      var needsFixer := mode == NandOnly && inputCount > 1;
      if needsFixer {
        var fixerId := nodeId;
        nodeId := nodeId + 1;
        nodes := nodes + [Node(fixerId, Fixer(Nand))];
        edges := edges + [Edge(termId, fixerId)];
        edges := edges + [Edge(fixerId, outputNodeId)];
      } else {
        edges := edges + [Edge(termId, outputNodeId)];
      }
    } else {
      var finalId := nodeId;
      nodeId := nodeId + 1;
      var op := Or;
      if mode == NandOnly { op := Nand; }
      if mode == NorOnly { op := Nor; }
      nodes := nodes + [Node(finalId, FinalGate(op))];
      for k := 0 to |gateIds|
        invariant edges == edges0 + Wires(gateIds[..k], finalId)
      {
        assert gateIds[..k + 1] == gateIds[..k] + [gateIds[k]];
        WiresSnoc(gateIds[..k], gateIds[k], finalId);
        edges := edges + [Edge(gateIds[k], finalId)];
      }
      assert gateIds[..|gateIds|] == gateIds;
      if mode == NorOnly {
        var fixerId := nodeId;
        nodeId := nodeId + 1;
        nodes := nodes + [Node(fixerId, Fixer(Nor))];
        edges := edges + [Edge(finalId, fixerId)];
        edges := edges + [Edge(fixerId, outputNodeId)];
      } else {
        edges := edges + [Edge(finalId, outputNodeId)];
      }
    }
    c := Circuit(nodes, edges);
  }

  /** Everything after line 19 of the generator: the graph for a list of terms of width
      n, built phase by phase; it is the graph `Build` describes. */
  method Synthesize(numInputs: nat, terms: seq<Cube>, mode: Mode) returns (c: Circuit)
    requires forall j :: 0 <= j < |terms| ==> |terms[j]| == numInputs
    ensures c == Build(numInputs, mode, terms)
  {
    var nodes, inputIds, nodeId := PlaceInputs(numInputs);
    if |terms| == 0 {
      var outId := nodeId;
      nodeId := nodeId + 1;
      nodes := nodes + [Node(outId, Output(false))];
      return Circuit(nodes, []);
    }
    var isAlwaysTrue := false;
    if |terms| == 1 {
      isAlwaysTrue := EveryDash(terms[0]);
    }
    if isAlwaysTrue {
      var outId := nodeId;
      nodeId := nodeId + 1;
      nodes := nodes + [Node(outId, Output(true))];
      return Circuit(nodes, []);
    }
    var edges, inverterIds;
    nodes, edges, nodeId, inverterIds := PlaceInverters(numInputs, mode, terms, inputIds, nodes, nodeId);
    InverterStageSourced(numInputs, mode, terms);
    var c0 := Circuit(nodes, edges);
    var gateIds;
    nodes, edges, nodeId, gateIds := PlaceTermGates(numInputs, mode, terms, inputIds, inverterIds, nodes, edges, nodeId);
    c := CombineTerms(mode, terms, nodes, edges, nodeId, gateIds);
  }

  /** `generateCircuit`: the prime implicants of the table, synthesized in the chosen
      basis. Simulating the graph on any row in range gives the table's value on that
      row, and the graph is well formed: ids in creation order, wires between existing
      nodes, forward except into the output. */
  method GenerateCircuit(numInputs: nat, outputs: TruthTable, mode: Mode) returns (c: Circuit)
    ensures Forward(c) && Sequential(c.nodes)
    ensures forall r: nat :: r < Pow2(numInputs) ==> (Evaluate(c, RowBits(r, numInputs)) <==> IsTrueRow(numInputs, outputs, r))
    ensures exists ps: seq<Cube> ::
              (forall t :: t in ps <==> IsPrime(numInputs, outputs, t)) && NoDuplicates(ps) &&
              (forall j :: 0 <= j < |ps| ==> |ps[j]| == numInputs) && c == Build(numInputs, mode, ps)
  {
    var terms := PrimeImplicants(numInputs, outputs);
    assert forall j :: 0 <= j < |terms| ==> |terms[j]| == numInputs by {
      forall j | 0 <= j < |terms|
        ensures |terms[j]| == numInputs
      {
        assert terms[j] in terms;
      }
    }
    c := Synthesize(numInputs, terms, mode);
    BuildForward(numInputs, mode, terms);
    forall r: nat | r < Pow2(numInputs)
      ensures Evaluate(c, RowBits(r, numInputs)) <==> IsTrueRow(numInputs, outputs, r)
    {
      BuildComputes(numInputs, mode, terms, RowBits(r, numInputs));
      PrimesCoverExactlyTrueRows(numInputs, outputs, terms, r);
    }
  }
}
