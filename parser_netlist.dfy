/** Construction-time part of the netlist parser that the test generator
    relies on: the initial state of a new gate (`appendNewGate`) and the
    levelizer (`computeGateLevel`, `computeGateLevels`). */
module ParserNetlist {
  import opened AtpgTypes

  /** The state `appendNewGate` gives a fresh gate: no inputs or outputs, type
      OTHER, not an output, level -1. Its value is X. */
  function NewGate(): Gate
  {
    Gate(OTHER, false, [], [], false, false, -1)
  }

  /** `appendNewGate`: adds exactly one gate at index `old(|gates|)`. */
  method AppendNewGate(c: Circuit)
    requires c.Valid()
    modifies c
    ensures c.Valid()
    ensures c.gates == old(c.gates) + [NewGate()]
    ensures c.value == old(c.value) + [X]
  {
    ghost var gs := c.gates;
    c.gates := c.gates + [NewGate()];
    c.value := c.value + [X];
    AppendKeepsStructure(gs);
  }

  lemma AppendKeepsStructure(gs: seq<Gate>)
    requires Structured(gs)
    ensures Structured(gs + [NewGate()])
  {
    var gs' := gs + [NewGate()];
    assert forall g :: 0 <= g < |gs| ==> gs'[g] == gs[g];
  }

  // ---------------------------------------------------------------------------
  // Levelizer

  /** `rank` witnesses that the fan-in relation is acyclic: it strictly
      decreases from a gate to each of its inputs. The source recurses without
      end on a cyclic netlist, so acyclicity is what it demands of its callers. */
  predicate Ranked(gs: seq<Gate>, rank: seq<nat>)
    requires InRange(gs)
  {
    |rank| == |gs| &&
    forall g, k :: 0 <= g < |gs| && 0 <= k < |gs[g].ins| ==> rank[gs[g].ins[k]] < rank[g]
  }

  /** `computeGateLevel`: a stored level (>= 0) is returned as is; otherwise
      one more than the largest level of the inputs, computed recursively. */
  function ComputeGateLevel(gs: seq<Gate>, ghost rank: seq<nat>, g: nat): (r: int)
    requires InRange(gs) && Ranked(gs, rank) && g < |gs|
    ensures r >= 0
    decreases rank[g], 1, 0
  {
    if gs[g].level >= 0 then gs[g].level
    else MaxInputLevel(gs, rank, g, |gs[g].ins|) + 1
  }

  /** The loop of `computeGateLevel`: the largest level among the first `k`
      inputs, -1 when there are none. */
  function MaxInputLevel(gs: seq<Gate>, ghost rank: seq<nat>, g: nat, k: nat): (r: int)
    requires InRange(gs) && Ranked(gs, rank) && g < |gs| && k <= |gs[g].ins|
    ensures r >= -1
    decreases rank[g], 0, k
  {
    if k == 0 then -1
    else
      var temp := ComputeGateLevel(gs, rank, gs[g].ins[k - 1]);
      var level := MaxInputLevel(gs, rank, g, k - 1);
      if temp > level then temp else level
  }

  lemma {:induction false} MaxInputLevelIsMax(gs: seq<Gate>, rank: seq<nat>, g: nat, k: nat)
    requires InRange(gs) && Ranked(gs, rank) && g < |gs| && k <= |gs[g].ins|
    ensures forall k' :: 0 <= k' < k ==>
              ComputeGateLevel(gs, rank, gs[g].ins[k']) <= MaxInputLevel(gs, rank, g, k)
    ensures k == 0 <==> MaxInputLevel(gs, rank, g, k) == -1
    ensures k > 0 ==> (exists k' :: 0 <= k' < k &&
                         ComputeGateLevel(gs, rank, gs[g].ins[k']) == MaxInputLevel(gs, rank, g, k))
  {
    if k > 0 {
      MaxInputLevelIsMax(gs, rank, g, k - 1);
    }
  }

  /** An unlevelled gate gets 1 + the largest level of its inputs: it lies
      above every input, is 0 exactly when it has no input, and sits
      directly above its highest input. */
  lemma ComputeGateLevelUnstored(gs: seq<Gate>, rank: seq<nat>, g: nat)
    requires InRange(gs) && Ranked(gs, rank) && g < |gs|
    requires gs[g].level < 0
    ensures forall k :: 0 <= k < |gs[g].ins| ==>
              ComputeGateLevel(gs, rank, gs[g].ins[k]) < ComputeGateLevel(gs, rank, g)
    ensures ComputeGateLevel(gs, rank, g) == 0 <==> gs[g].ins == []
    ensures gs[g].ins != [] ==> (exists k :: 0 <= k < |gs[g].ins| &&
                                   ComputeGateLevel(gs, rank, g) == ComputeGateLevel(gs, rank, gs[g].ins[k]) + 1)
  {
    MaxInputLevelIsMax(gs, rank, g, |gs[g].ins|);
  }

  /** `cur` is `gs` with some levels replaced by their computed value. */
  predicate PartlyLevelled(gs: seq<Gate>, rank: seq<nat>, cur: seq<Gate>)
    requires InRange(gs) && Ranked(gs, rank)
  {
    |cur| == |gs| &&
    forall j :: 0 <= j < |gs| ==>
      cur[j] == gs[j] || cur[j] == gs[j].(level := ComputeGateLevel(gs, rank, j))
  }

  lemma PartlyLevelledShape(gs: seq<Gate>, rank: seq<nat>, cur: seq<Gate>)
    requires InRange(gs) && Ranked(gs, rank) && PartlyLevelled(gs, rank, cur)
    ensures forall j :: 0 <= j < |gs| ==> cur[j].ins == gs[j].ins && cur[j].outs == gs[j].outs
    ensures InRange(cur) && Ranked(cur, rank)
  {
    assert forall j :: 0 <= j < |gs| ==> cur[j].ins == gs[j].ins && cur[j].outs == gs[j].outs;
  }

  /** Levels already written by the loop do not change what is computed for
      the others. */
  lemma {:induction false} LevelStable(gs: seq<Gate>, rank: seq<nat>, cur: seq<Gate>, g: nat)
    requires InRange(gs) && Ranked(gs, rank) && PartlyLevelled(gs, rank, cur) && g < |gs|
    requires InRange(cur) && Ranked(cur, rank)
    ensures ComputeGateLevel(cur, rank, g) == ComputeGateLevel(gs, rank, g)
    decreases rank[g], 1, 0
  {
    if cur[g].level < 0 {
      assert cur[g] == gs[g];
      MaxInputStable(gs, rank, cur, g, |gs[g].ins|);
    }
  }

  lemma {:induction false} MaxInputStable(gs: seq<Gate>, rank: seq<nat>, cur: seq<Gate>, g: nat, k: nat)
    requires InRange(gs) && Ranked(gs, rank) && PartlyLevelled(gs, rank, cur) && g < |gs|
    requires InRange(cur) && Ranked(cur, rank)
    requires cur[g].ins == gs[g].ins && k <= |gs[g].ins|
    ensures MaxInputLevel(cur, rank, g, k) == MaxInputLevel(gs, rank, g, k)
    decreases rank[g], 0, k
  {
    if k > 0 {
      LevelStable(gs, rank, cur, gs[g].ins[k - 1]);
      MaxInputStable(gs, rank, cur, g, k - 1);
    }
  }

  /** `gs` with every level replaced by its computed value. */
  function LevelledGates(gs: seq<Gate>, rank: seq<nat>): (r: seq<Gate>)
    requires InRange(gs) && Ranked(gs, rank)
    ensures |r| == |gs|
  {
    seq(|gs|, j requires 0 <= j < |gs| => gs[j].(level := ComputeGateLevel(gs, rank, j)))
  }

  /** `computeGateLevels`: every gate whose level is negative gets
      `computeGateLevel`; stored levels are kept. */
  method ComputeGateLevels(c: Circuit, ghost rank: seq<nat>)
    requires c.Valid() && Ranked(c.gates, rank)
    modifies c`gates
    ensures c.Valid()
    ensures c.gates == LevelledGates(old(c.gates), rank)
    ensures forall g :: 0 <= g < |c.gates| && old(c.gates[g].level) >= 0 ==> c.gates[g] == old(c.gates[g])
    ensures PresetOnSources(old(c.gates)) ==> c.Ready()
  {
    ghost var gs := c.gates;
    var k := 0;
    while k < |c.gates|
      invariant k <= |c.gates| == |gs|
      invariant PartlyLevelled(gs, rank, c.gates)
      invariant forall j :: 0 <= j < k ==> c.gates[j] == gs[j].(level := ComputeGateLevel(gs, rank, j))
      invariant forall j :: k <= j < |gs| ==> c.gates[j] == gs[j]
    {
      if c.gates[k].level < 0 {
        PartlyLevelledShape(gs, rank, c.gates);
        var level := ComputeGateLevel(c.gates, rank, k);
        LevelStable(gs, rank, c.gates, k);
        c.gates := c.gates[k := c.gates[k].(level := level)];
      }
      k := k + 1;
    }
    assert c.gates == LevelledGates(gs, rank);
    LevelledKeepsStructure(gs, rank);
    if PresetOnSources(gs) {
      LevelledIsWellFormed(gs, rank);
    }
  }

  lemma LevelledKeepsStructure(gs: seq<Gate>, rank: seq<nat>)
    requires Structured(gs) && Ranked(gs, rank)
    ensures Structured(LevelledGates(gs, rank))
  {
    var r := LevelledGates(gs, rank);
    assert forall j :: 0 <= j < |gs| ==> r[j].ins == gs[j].ins && r[j].outs == gs[j].outs && r[j].gtype == gs[j].gtype;
  }

  /** Only gates without inputs (the primary and pseudo inputs the parser
      creates at level 0) carry a level before the levelizer runs. */
  predicate PresetOnSources(gs: seq<Gate>)
  {
    forall g :: 0 <= g < |gs| && gs[g].level >= 0 ==> gs[g].ins == []
  }

  /** After `computeGateLevels` on an acyclic circuit every gate has a level,
      and levels strictly increase along every fan-in and fan-out edge. */
  lemma LevelledIsWellFormed(gs: seq<Gate>, rank: seq<nat>)
    requires Structured(gs) && Ranked(gs, rank) && PresetOnSources(gs)
    ensures WellFormed(LevelledGates(gs, rank))
  {
    var r := LevelledGates(gs, rank);
    LevelledKeepsStructure(gs, rank);
    forall g, k | 0 <= g < |r| && 0 <= k < |r[g].ins|
      ensures r[r[g].ins[k]].level < r[g].level
    {
      ComputeGateLevelUnstored(gs, rank, g);
    }
    forall g, k | 0 <= g < |r| && 0 <= k < |r[g].outs|
      ensures r[r[g].outs[k]].level > r[g].level
    {
      var d := r[g].outs[k];
      assert g in r[d].ins;
      var k' :| 0 <= k' < |r[d].ins| && r[d].ins[k'] == g;
      ComputeGateLevelUnstored(gs, rank, d);
    }
  }
}
