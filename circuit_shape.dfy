/** The structure of the graph `Build` returns: which nodes it has of each kind, how
    many, and what is wired into them. */
module CircuitShape {
  import opened Cubes
  import opened Circuits
  import opened CircuitGenerator

  /** Nodes of the first two stages only: inputs, inverters and term gates. */
  predicate FirstStages(nodes: seq<Node>)
  {
    forall k :: 0 <= k < |nodes| ==> nodes[k].kind.Input? || nodes[k].kind.Inverter? || nodes[k].kind.TermGate?
  }

  // ---------------------------------------------------------------------------
  // The combining stage

  /** The class of the node at position i after the first-stage nodes: the output, then
      the final gate when there are several terms, then the fixer. */
  function CombineClass(terms: seq<Cube>, i: nat): Class
  {
    if i == 0 then OutputClass else if i == 1 && |terms| > 1 then FinalClass else FixerClass
  }

  lemma CombineNodes(mode: Mode, terms: seq<Cube>, c: Circuit, gateIds: seq<nat>)
    requires |terms| >= 1 && |gateIds| == |terms|
    ensures var f := Combine(mode, terms, c, gateIds);
      |f.nodes| == |c.nodes| + 1 + (if |terms| > 1 then 1 else 0) + (if NeedsFixer(mode, terms) then 1 else 0) &&
      (forall k :: 0 <= k < |c.nodes| ==> f.nodes[k] == c.nodes[k]) &&
      forall k :: |c.nodes| <= k < |f.nodes| ==> ClassOf(f.nodes[k].kind) == CombineClass(terms, k - |c.nodes|)
  {
  }

  /** The combining stage appends exactly one output, one final gate when there are
      several terms, one fixer when the basis needs one, and nothing of the earlier
      stages' kinds. */
  lemma CombineCounts(mode: Mode, terms: seq<Cube>, c: Circuit, gateIds: seq<nat>)
    requires |terms| >= 1 && |gateIds| == |terms| && FirstStages(c.nodes)
    ensures var f := Combine(mode, terms, c, gateIds);
      var o := |c.nodes| + 1;
      IdsOf(f.nodes, OutputClass) == {o} &&
      IdsOf(f.nodes, FinalClass) == (if |terms| > 1 then {o + 1} else {}) &&
      IdsOf(f.nodes, FixerClass) == (if NeedsFixer(mode, terms) then {|f.nodes|} else {}) &&
      forall cl: Class :: cl.InputClass? || cl.InverterClass? || cl.TermClass? ==> IdsOf(f.nodes, cl) == IdsOf(c.nodes, cl)
  {
    var f := Combine(mode, terms, c, gateIds);
    var m := |c.nodes|;
    CombineNodes(mode, terms, c, gateIds);
    IdsOfOne(f.nodes, OutputClass, m);
    if |terms| > 1 {
      IdsOfOne(f.nodes, FinalClass, m + 1);
    } else {
      IdsOfNone(f.nodes, FinalClass);
    }
    if NeedsFixer(mode, terms) {
      IdsOfOne(f.nodes, FixerClass, |f.nodes| - 1);
    } else {
      IdsOfNone(f.nodes, FixerClass);
    }
    forall cl: Class | cl.InputClass? || cl.InverterClass? || cl.TermClass?
      ensures IdsOf(f.nodes, cl) == IdsOf(c.nodes, cl)
    {
      IdsOfExtended(c.nodes, f.nodes, cl);
    }
  }

  // ---------------------------------------------------------------------------
  // The inverter stage

  /** After the inverter loop has looked at variables 0..i-1: the inputs have ids 1..n,
      the inverter of a variable is the node its entry in the map names, and there is
      nothing else. */
  ghost predicate InverterIds(n: nat, i: nat, s: Stage)
  {
    (forall x :: x in s.inv ==> x < i) &&
    (forall x :: x in IdsOf(s.c.nodes, InputClass) <==> 1 <= x <= n) &&
    (forall v: nat :: IdsOf(s.c.nodes, InverterClass(v)) == if v in s.inv then {s.inv[v]} else {}) &&
    forall cl: Class :: !cl.InputClass? && !cl.InverterClass? ==> IdsOf(s.c.nodes, cl) == {}
  }

  lemma InputIds(n: nat, mode: Mode, terms: seq<Cube>)
    ensures InverterIds(n, 0, InverterStage(n, mode, terms, 0))
  {
    var nodes := InputNodes(n);
    IdsOfBounds(nodes, InputClass);
    forall x | 1 <= x <= n
      ensures x in IdsOf(nodes, InputClass)
    {
      IdsOfMember(nodes, InputClass, x - 1);
    }
    forall v: nat
      ensures IdsOf(nodes, InverterClass(v)) == {}
    {
      IdsOfNone(nodes, InverterClass(v));
    }
    forall cl: Class | !cl.InputClass? && !cl.InverterClass?
      ensures IdsOf(nodes, cl) == {}
    {
      IdsOfNone(nodes, cl);
    }
  }

  lemma AddInverterIds(n: nat, mode: Mode, terms: seq<Cube>, s: Stage, i: nat)
    requires InverterIds(n, i, s)
    ensures InverterIds(n, i + 1, AddInverter(n, mode, terms, s, i))
  {
    if NeedsInverter(terms, i, mode, n) {
      var r := AddInverter(n, mode, terms, s, i);
      var node := Node(|s.c.nodes| + 1, Inverter(i, InverterOp(mode)));
      assert r.c.nodes == s.c.nodes + [node];
      forall cl: Class
        ensures IdsOf(r.c.nodes, cl) == IdsOf(s.c.nodes, cl) + if cl == InverterClass(i) then {|s.c.nodes| + 1} else {}
      {
        IdsOfSnoc(s.c.nodes, node, cl);
      }
    }
  }

  lemma {:induction false} InverterStageIds(n: nat, mode: Mode, terms: seq<Cube>, i: nat)
    requires i <= n
    ensures InverterIds(n, i, InverterStage(n, mode, terms, i))
  {
    if i > 0 {
      InverterStageIds(n, mode, terms, i - 1);
      InverterStepIds(n, mode, terms, i);
    } else {
      InputIds(n, mode, terms);
    }
  }

  lemma InverterStepIds(n: nat, mode: Mode, terms: seq<Cube>, i: nat)
    requires 0 < i <= n
    requires InverterIds(n, i - 1, InverterStage(n, mode, terms, i - 1))
    ensures InverterIds(n, i, InverterStage(n, mode, terms, i))
  {
    var s := InverterStage(n, mode, terms, i - 1);
    AddInverterIds(n, mode, terms, s, i - 1);
    assert InverterStage(n, mode, terms, i) == AddInverter(n, mode, terms, s, i - 1);
  }

  // ---------------------------------------------------------------------------
  // The term stage

  /** After the term loop has handled terms 0..|s.gateIds|-1: the classes of c0 are
      kept, and each of those terms that is not direct has its own gate, its signal. */
  ghost predicate TermIds(mode: Mode, n: nat, terms: seq<Cube>, c0: Circuit, s: Gated)
  {
    |s.gateIds| <= |terms| &&
    (forall cl: Class :: !cl.TermClass? ==> IdsOf(s.c.nodes, cl) == IdsOf(c0.nodes, cl)) &&
    forall j: nat :: IdsOf(s.c.nodes, TermClass(j)) ==
      IdsOf(c0.nodes, TermClass(j)) + if j < |s.gateIds| && !IsDirect(mode, n, terms, terms[j]) then {s.gateIds[j]} else {}
  }

  lemma AddTermIds(n: nat, mode: Mode, terms: seq<Cube>, inv: map<nat, nat>, c0: Circuit, s: Gated, j: nat)
    requires j < |terms| && AllSourced(n, mode, inv, terms) && |s.gateIds| == j
    requires TermIds(mode, n, terms, c0, s)
    requires IdsOf(c0.nodes, TermClass(j)) == {}
    ensures TermIds(mode, n, terms, c0, AddTerm(n, mode, terms, inv, s, j))
  {
    var r := AddTerm(n, mode, terms, inv, s, j);
    assert forall j' :: 0 <= j' < j ==> r.gateIds[j'] == s.gateIds[j'];
    if !IsDirect(mode, n, terms, terms[j]) {
      var node := Node(|s.c.nodes| + 1, TermGate(j, TermOp(mode)));
      assert r.c.nodes == s.c.nodes + [node];
      forall cl: Class
        ensures IdsOf(r.c.nodes, cl) == IdsOf(s.c.nodes, cl) + if cl == TermClass(j) then {|s.c.nodes| + 1} else {}
      {
        IdsOfSnoc(s.c.nodes, node, cl);
      }
    }
  }

  lemma {:induction false} TermStageIds(n: nat, mode: Mode, terms: seq<Cube>, inv: map<nat, nat>, c0: Circuit, j: nat)
    requires j <= |terms| && AllSourced(n, mode, inv, terms)
    requires forall j': nat :: IdsOf(c0.nodes, TermClass(j')) == {}
    ensures TermIds(mode, n, terms, c0, TermStage(n, mode, terms, inv, c0, j))
  {
    if j > 0 {
      TermStageIds(n, mode, terms, inv, c0, j - 1);
      TermStepIds(n, mode, terms, inv, c0, j);
    }
  }

  lemma TermStepIds(n: nat, mode: Mode, terms: seq<Cube>, inv: map<nat, nat>, c0: Circuit, j: nat)
    requires 0 < j <= |terms| && AllSourced(n, mode, inv, terms)
    requires forall j': nat :: IdsOf(c0.nodes, TermClass(j')) == {}
    requires TermIds(mode, n, terms, c0, TermStage(n, mode, terms, inv, c0, j - 1))
    ensures TermIds(mode, n, terms, c0, TermStage(n, mode, terms, inv, c0, j))
  {
    var s := TermStage(n, mode, terms, inv, c0, j - 1);
    AddTermIds(n, mode, terms, inv, c0, s, j - 1);
    assert TermStage(n, mode, terms, inv, c0, j) == AddTerm(n, mode, terms, inv, s, j - 1);
  }

  /** The nodes of the first two stages, by class: the inputs 1..n, one inverter per
      mapped variable, one gate per term that is not direct, and nothing else. */
  lemma GatedIds(n: nat, mode: Mode, terms: seq<Cube>)
    requires forall j :: 0 <= j < |terms| ==> |terms[j]| == n
    ensures var s := InverterStage(n, mode, terms, n);
      AllSourced(n, mode, s.inv, terms) &&
      var g := TermStage(n, mode, terms, s.inv, s.c, |terms|);
      FirstStages(g.c.nodes) &&
      (forall x :: x in IdsOf(g.c.nodes, InputClass) <==> 1 <= x <= n) &&
      (forall v: nat :: IdsOf(g.c.nodes, InverterClass(v)) == if v in s.inv then {s.inv[v]} else {}) &&
      forall j: nat :: IdsOf(g.c.nodes, TermClass(j)) ==
        if j < |terms| && !IsDirect(mode, n, terms, terms[j]) then {g.gateIds[j]} else {}
  {
    var s := InverterStage(n, mode, terms, n);
    InverterStageSourced(n, mode, terms);
    InverterStageIds(n, mode, terms, n);
    TermStageIds(n, mode, terms, s.inv, s.c, |terms|);
    var g := TermStage(n, mode, terms, s.inv, s.c, |terms|);
    forall k | 0 <= k < |g.c.nodes|
      ensures g.c.nodes[k].kind.Input? || g.c.nodes[k].kind.Inverter? || g.c.nodes[k].kind.TermGate?
    {
      var cl := ClassOf(g.c.nodes[k].kind);
      IdsOfMember(g.c.nodes, cl, k);
    }
  }

  // ---------------------------------------------------------------------------
  // The whole graph, read off any graph with the same ids

  /** The inverter of variable v, in any ready graph whose inverter-class ids are those
      the map records. */
  lemma InverterFacts(f: Circuit, n: nat, mode: Mode, inv: map<nat, nat>, v: nat, ids: set<nat>)
    requires Ready(f, n, mode, inv)
    requires ids == if v in inv then {inv[v]} else {}
    ensures |ids| == (if v in inv then 1 else 0)
    ensures forall id :: id in ids ==>
      1 <= id <= |f.nodes| && f.nodes[id - 1].kind == Inverter(v, InverterOp(mode)) && Sources(f.edges, id) == [v + 1]
  {
  }

  /** A node of the input or the inverter of a literal of the term: the inverter of
      variable v when the bit is the target bit, the input of v otherwise. */
  predicate LiteralSource(f: Circuit, mode: Mode, n: nat, term: Cube, x: nat)
  {
    1 <= x <= |f.nodes| &&
    exists v :: 0 <= v < |term| && term[v] != Dash &&
      f.nodes[x - 1].kind == if term[v] == TargetBit(mode, n) then Inverter(v, InverterOp(mode)) else Input(v)
  }

  lemma {:induction false} LitSourcesKinds(f: Circuit, n: nat, mode: Mode, inv: map<nat, nat>, term: Cube, k: nat)
    requires Ready(f, n, mode, inv) && |term| == n && Sourced(n, mode, inv, term) && k <= n
    ensures forall x :: x in LitSources(n, mode, inv, term, k) ==> LiteralSource(f, mode, n, term, x)
  {
    if k > 0 {
      LitSourcesKinds(f, n, mode, inv, term, k - 1);
      if term[k - 1] != Dash {
        var y := LitSource(n, mode, inv, term, k - 1);
        assert LiteralSource(f, mode, n, term, y) by {
          assert f.nodes[y - 1].kind == if term[k - 1] == TargetBit(mode, n) then Inverter(k - 1, InverterOp(mode)) else Input(k - 1);
        }
      }
    }
  }

  /** The gate of term j, in any ready graph whose signals are wired and whose term-class
      ids are the gates of the terms that are not direct wires. */
  lemma TermFacts(f: Circuit, n: nat, mode: Mode, inv: map<nat, nat>, terms: seq<Cube>, gateIds: seq<nat>, j: nat, ids: set<nat>)
    requires Ready(f, n, mode, inv) && SignalsWired(f, n, mode, inv, terms, gateIds)
    requires ids == if j < |terms| && !IsDirect(mode, n, terms, terms[j]) then {gateIds[j]} else {}
    ensures |ids| == (if j < |terms| && !IsDirect(mode, n, terms, terms[j]) then 1 else 0)
    ensures forall id :: id in ids ==>
      1 <= id <= |f.nodes| && j < |terms| && f.nodes[id - 1].kind == TermGate(j, TermOp(mode)) &&
      |Sources(f.edges, id)| == LiteralCount(terms[j]) &&
      forall x :: x in Sources(f.edges, id) ==> LiteralSource(f, mode, n, terms[j], x)
  {
    if j < |terms| && !IsDirect(mode, n, terms, terms[j]) {
      var term := terms[j];
      LitSourcesLength(n, mode, inv, term, n);
      assert term[..n] == term;
      LitSourcesKinds(f, n, mode, inv, term, n);
    }
  }

  /** The output, final gate and fixer the combining stage adds, with their wires in. */
  lemma CombineFacts(mode: Mode, terms: seq<Cube>, c: Circuit, gateIds: seq<nat>)
    requires |terms| >= 1 && |gateIds| == |terms| && FirstStages(c.nodes) && Forward(c)
    ensures var f := Combine(mode, terms, c, gateIds);
      |IdsOf(f.nodes, OutputClass)| == 1 &&
      |IdsOf(f.nodes, FinalClass)| == (if |terms| > 1 then 1 else 0) &&
      |IdsOf(f.nodes, FixerClass)| == (if NeedsFixer(mode, terms) then 1 else 0) &&
      (forall o :: o in IdsOf(f.nodes, OutputClass) ==>
        1 <= o <= |f.nodes| && f.nodes[o - 1].kind == Output(false) && |Sources(f.edges, o)| == 1) &&
      (forall x :: x in IdsOf(f.nodes, FinalClass) ==>
        1 <= x <= |f.nodes| && f.nodes[x - 1].kind == FinalGate(FinalOp(mode)) && |Sources(f.edges, x)| == |terms|) &&
      forall x :: x in IdsOf(f.nodes, FixerClass) ==>
        1 <= x <= |f.nodes| && f.nodes[x - 1].kind == Fixer(FinalOp(mode)) && |Sources(f.edges, x)| == 1
  {
    CombineCounts(mode, terms, c, gateIds);
    if |terms| == 1 {
      CombineSourcesOne(mode, terms, c, gateIds);
    } else {
      CombineSourcesMany(mode, terms, c, gateIds);
    }
  }

  // ---------------------------------------------------------------------------
  // The whole graph

  /** The ids of each class in the general construction, in terms of the inverter map
      and the term signals of its first two stages. */
  lemma BuildIds(n: nat, mode: Mode, terms: seq<Cube>)
    requires forall j :: 0 <= j < |terms| ==> |terms[j]| == n
    requires Synthesized(terms)
    ensures var s := InverterStage(n, mode, terms, n);
      AllSourced(n, mode, s.inv, terms) &&
      var g := TermStage(n, mode, terms, s.inv, s.c, |terms|);
      var f := Build(n, mode, terms);
      (forall x :: x in IdsOf(f.nodes, InputClass) <==> 1 <= x <= n) &&
      (forall v: nat :: IdsOf(f.nodes, InverterClass(v)) == if v in s.inv then {s.inv[v]} else {}) &&
      forall j: nat :: IdsOf(f.nodes, TermClass(j)) ==
        if j < |terms| && !IsDirect(mode, n, terms, terms[j]) then {g.gateIds[j]} else {}
  {
    var s := InverterStage(n, mode, terms, n);
    GatedIds(n, mode, terms);
    BuildCombines(n, mode, terms);
    var g := TermStage(n, mode, terms, s.inv, s.c, |terms|);
    CombineCounts(mode, terms, g.c, g.gateIds);
  }

  /** The general construction is ready to evaluate and its term signals are wired. */
  lemma BuildReady(n: nat, mode: Mode, terms: seq<Cube>)
    requires forall j :: 0 <= j < |terms| ==> |terms[j]| == n
    requires Synthesized(terms)
    ensures var s := InverterStage(n, mode, terms, n);
      AllSourced(n, mode, s.inv, terms) &&
      var g := TermStage(n, mode, terms, s.inv, s.c, |terms|);
      var f := Build(n, mode, terms);
      Ready(f, n, mode, s.inv) && SignalsWired(f, n, mode, s.inv, terms, g.gateIds)
  {
    var s := InverterStage(n, mode, terms, n);
    GatedGraph(n, mode, terms);
    BuildCombines(n, mode, terms);
    var g := TermStage(n, mode, terms, s.inv, s.c, |terms|);
    CombineKeeps(n, mode, terms, g.c, g.gateIds, s.inv);
  }

  /** The inputs are the first n nodes, variable k with id k + 1, and no other node is an
      input. */
  lemma BuildInputs(n: nat, mode: Mode, terms: seq<Cube>)
    requires forall j :: 0 <= j < |terms| ==> |terms[j]| == n
    ensures var f := Build(n, mode, terms);
      n <= |f.nodes| && (forall k :: 0 <= k < n ==> f.nodes[k] == Node(k + 1, Input(k))) &&
      forall x :: x in IdsOf(f.nodes, InputClass) <==> 1 <= x <= n
  {
    var f := Build(n, mode, terms);
    BuildForward(n, mode, terms);
    if Synthesized(terms) {
      BuildIds(n, mode, terms);
      BuildReady(n, mode, terms);
    } else {
      InputIds(n, mode, terms);
      IdsOfSnoc(InputNodes(n), f.nodes[n], InputClass);
    }
  }

  /** Inverter sharing: variable v has one inverter exactly when the general
      construction runs, v is a variable and some term has the target bit at v, and
      none otherwise; it is a gate of the basis with one wire in, from input v. */
  lemma BuildInverters(n: nat, mode: Mode, terms: seq<Cube>, v: nat)
    requires forall j :: 0 <= j < |terms| ==> |terms[j]| == n
    ensures var f := Build(n, mode, terms);
      |IdsOf(f.nodes, InverterClass(v))| == (if Synthesized(terms) && v < n && NeedsInverter(terms, v, mode, n) then 1 else 0) &&
      forall id :: id in IdsOf(f.nodes, InverterClass(v)) ==>
        1 <= id <= |f.nodes| && f.nodes[id - 1].kind == Inverter(v, InverterOp(mode)) && Sources(f.edges, id) == [v + 1]
  {
    var f := Build(n, mode, terms);
    if Synthesized(terms) {
      var s := InverterStage(n, mode, terms, n);
      BuildIds(n, mode, terms);
      BuildReady(n, mode, terms);
      InverterStageKeys(n, mode, terms, n);
      InverterFacts(f, n, mode, s.inv, v, IdsOf(f.nodes, InverterClass(v)));
    } else {
      IdsOfNone(f.nodes, InverterClass(v));
    }
  }

  /** Per-term gating: term j has its own gate exactly when the general construction
      runs and the term is not a direct wire; the gate is of the basis and has one wire
      in per literal, from that literal's input or inverter. */
  lemma BuildTermGates(n: nat, mode: Mode, terms: seq<Cube>, j: nat)
    requires forall j :: 0 <= j < |terms| ==> |terms[j]| == n
    ensures var f := Build(n, mode, terms);
      |IdsOf(f.nodes, TermClass(j))| ==
        (if Synthesized(terms) && j < |terms| && !IsDirect(mode, n, terms, terms[j]) then 1 else 0) &&
      forall id :: id in IdsOf(f.nodes, TermClass(j)) ==>
        1 <= id <= |f.nodes| && j < |terms| && f.nodes[id - 1].kind == TermGate(j, TermOp(mode)) &&
        |Sources(f.edges, id)| == LiteralCount(terms[j]) &&
        forall x :: x in Sources(f.edges, id) ==> LiteralSource(f, mode, n, terms[j], x)
  {
    var f := Build(n, mode, terms);
    if Synthesized(terms) {
      var s := InverterStage(n, mode, terms, n);
      BuildIds(n, mode, terms);
      BuildReady(n, mode, terms);
      var g := TermStage(n, mode, terms, s.inv, s.c, |terms|);
      TermFacts(f, n, mode, s.inv, terms, g.gateIds, j, IdsOf(f.nodes, TermClass(j)));
    } else {
      IdsOfNone(f.nodes, TermClass(j));
    }
  }

  /** The combining stage: exactly one output, with exactly one wire in; a final gate of
      the basis exactly when there are several terms, with one wire in per term; a fixer
      exactly when a single NAND term has two or more literals or several terms meet in
      NOR, with one wire in. */
  lemma BuildCombining(n: nat, mode: Mode, terms: seq<Cube>)
    requires forall j :: 0 <= j < |terms| ==> |terms[j]| == n
    requires Synthesized(terms)
    ensures var f := Build(n, mode, terms);
      |IdsOf(f.nodes, OutputClass)| == 1 &&
      |IdsOf(f.nodes, FinalClass)| == (if |terms| > 1 then 1 else 0) &&
      |IdsOf(f.nodes, FixerClass)| == (if NeedsFixer(mode, terms) then 1 else 0) &&
      (forall o :: o in IdsOf(f.nodes, OutputClass) ==>
        1 <= o <= |f.nodes| && f.nodes[o - 1].kind == Output(false) && |Sources(f.edges, o)| == 1) &&
      (forall x :: x in IdsOf(f.nodes, FinalClass) ==>
        1 <= x <= |f.nodes| && f.nodes[x - 1].kind == FinalGate(FinalOp(mode)) && |Sources(f.edges, x)| == |terms|) &&
      forall x :: x in IdsOf(f.nodes, FixerClass) ==>
        1 <= x <= |f.nodes| && f.nodes[x - 1].kind == Fixer(FinalOp(mode)) && |Sources(f.edges, x)| == 1
  {
    var s := InverterStage(n, mode, terms, n);
    GatedGraph(n, mode, terms);
    GatedIds(n, mode, terms);
    BuildCombines(n, mode, terms);
    var g := TermStage(n, mode, terms, s.inv, s.c, |terms|);
    CombineFacts(mode, terms, g.c, g.gateIds);
  }

  /** The constant cases: no terms gives the inputs and a 'Q' output, a single all-dash
      term the inputs and a 'Q (1)' output; there are no wires, and the output reads 0,
      respectively 1, on every assignment. */
  lemma BuildConstant(n: nat, mode: Mode, terms: seq<Cube>)
    requires forall j :: 0 <= j < |terms| ==> |terms[j]| == n
    requires !Synthesized(terms)
    ensures var f := Build(n, mode, terms);
      f.edges == [] && |f.nodes| == n + 1 && f.nodes[n] == Node(n + 1, Output(terms != [])) &&
      IdsOf(f.nodes, OutputClass) == {n + 1} &&
      forall a: seq<bool> :: |a| == n ==> Evaluate(f, a) == (terms != [])
  {
    var f := Build(n, mode, terms);
    IdsOfOne(f.nodes, OutputClass, n);
    forall a: seq<bool> | |a| == n
      ensures Evaluate(f, a) == (terms != [])
    {
      BuildComputes(n, mode, terms, a);
      if terms != [] {
        assert Matches(terms[0], a);
      }
    }
  }
}
