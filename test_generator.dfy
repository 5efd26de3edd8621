/** The single-path sensitization search of the test generator: excitation of
    a fault site back to the primary inputs, propagation of the fault effect
    forward to a primary output, justification of the values that
    propagation assumed, and the clearing helpers that undo a failed attempt.

    Each procedure overwrites gate values in place and answers TRUE or FALSE.
    Every method here is proved equal to a pure "outcome" function over
    (gates, values) that returns the answer together with the new values; the
    properties of the search are lemmas about those functions. */
module TestGenerator {
  import opened AtpgTypes
  import opened LogicTables

  /** `vs` with every gate listed in `ids` set to `v`. */
  function Assigned(vs: seq<LogicValue>, ids: seq<nat>, v: LogicValue): (r: seq<LogicValue>)
    ensures |r| == |vs|
    ensures forall j :: 0 <= j < |vs| ==> r[j] == (if j in ids then v else vs[j])
  {
    seq(|vs|, j requires 0 <= j < |vs| => if j in ids then v else vs[j])
  }

  /** One more step of a loop that writes `v` into the gates `ids[a..]`. */
  lemma AssignedExtend(vs: seq<LogicValue>, ids: seq<nat>, a: nat, k: nat, v: LogicValue)
    requires a <= k < |ids| && ids[k] < |vs|
    ensures Assigned(vs, ids[a..k], v)[ids[k] := v] == Assigned(vs, ids[a..k + 1], v)
  {
    assert ids[a..k + 1] == ids[a..k] + [ids[k]];
  }

  // ---------------------------------------------------------------------------
  // clearPropagationValuesPath / clearPropagationValuesCircuit

  /** `clearPropagationValuesPath(g)`: every input of `g` becomes X; unless
      `g` is a primary output, the same is done from each fan-out in turn. */
  function ClearedPath(gs: seq<Gate>, vs: seq<LogicValue>, g: nat): (r: seq<LogicValue>)
    requires WellFormed(gs) && |vs| == |gs| && g < |gs|
    ensures |r| == |vs|
    decreases MaxLevel(gs) - gs[g].level, 1, 0
  {
    var cleared := Assigned(vs, gs[g].ins, X);
    if gs[g].po then cleared else ClearedOuts(gs, cleared, g, 0)
  }

  /** The fan-out loop of `clearPropagationValuesPath` from position `k` on. */
  function ClearedOuts(gs: seq<Gate>, vs: seq<LogicValue>, g: nat, k: nat): (r: seq<LogicValue>)
    requires WellFormed(gs) && |vs| == |gs| && g < |gs| && k <= |gs[g].outs|
    ensures |r| == |vs|
    decreases MaxLevel(gs) - gs[g].level, 0, |gs[g].outs| - k
  {
    if k == |gs[g].outs| then vs
    else ClearedOuts(gs, ClearedPath(gs, vs, gs[g].outs[k]), g, k + 1)
  }

  method ClearPropagationValuesPath(c: Circuit, g: nat)
    requires c.Ready() && g < |c.gates|
    modifies c`value
    ensures c.Ready()
    ensures c.value == ClearedPath(c.gates, old(c.value), g)
    decreases MaxLevel(c.gates) - c.gates[g].level
  {
    ghost var vs := c.value;
    var ins := c.gates[g].ins;
    var k := 0;
    while k < |ins|
      invariant c.Ready() && k <= |ins|
      invariant c.value == Assigned(vs, ins[..k], X)
    {
      AssignedExtend(vs, ins, 0, k, X);
      c.value := c.value[ins[k] := X];
      k := k + 1;
    }
    assert ins[..k] == ins;
    if !c.gates[g].po {
      var outs := c.gates[g].outs;
      k := 0;
      while k < |outs|
        invariant c.Ready() && k <= |outs|
        invariant ClearedOuts(c.gates, c.value, g, k) == ClearedPath(c.gates, vs, g)
      {
        ClearPropagationValuesPath(c, outs[k]);
        k := k + 1;
      }
    }
  }

  /** `clearPropagationValuesCircuit(numGates)`: the first `numGates` gates
      become X and nothing else changes. */
  method ClearPropagationValuesCircuit(c: Circuit, numGates: nat)
    requires c.Ready() && numGates <= |c.value|
    modifies c`value
    ensures c.Ready()
    ensures forall j :: 0 <= j < numGates ==> c.value[j] == X
    ensures forall j :: numGates <= j < |c.value| ==> c.value[j] == old(c.value[j])
  {
    var index := 0;
    while index < numGates
      invariant c.Ready() && index <= numGates
      invariant forall j :: 0 <= j < index ==> c.value[j] == X
      invariant forall j :: index <= j < |c.value| ==> c.value[j] == old(c.value[j])
    {
      c.value := c.value[index := X];
      index := index + 1;
    }
  }

  // ---------------------------------------------------------------------------
  // excite

  /** Value `excite` writes into every input of `g` but `in[0]`: the
      non-controlling value of a plain AND (I) or OR (O), swapped when the
      gate is inverted, X for any other type. */
  function OtherValue(gt: Gate): LogicValue
  {
    if gt.gtype == AND then (if gt.inv then O else I)
    else if gt.gtype == OR then (if gt.inv then I else O)
    else X
  }

  /** `excite(g, v)`: the answer and the values afterwards. */
  function ExciteOutcome(gs: seq<Gate>, vs: seq<LogicValue>, g: nat, v: LogicValue): (r: (bool, seq<LogicValue>))
    requires WellFormed(gs) && |vs| == |gs| && g < |gs|
    ensures |r.1| == |vs|
    decreases gs[g].level
  {
    if gs[g].gtype == PI then (true, vs[g := v])
    else if gs[g].gtype == BUF then
      var sub := ExciteOutcome(gs, vs, gs[g].ins[0], Negate(v, gs[g].inv));
      (sub.0, sub.1[g := if sub.0 then v else X])
    else if v == X then (true, vs)
    else if |gs[g].ins| == 0 then (false, vs)
    else
      var sub := ExciteOutcome(gs, vs, gs[g].ins[0], v);
      if !sub.0 then (false, sub.1)
      else (true, Assigned(sub.1[gs[g].ins[0] := v], gs[g].ins[1..], OtherValue(gs[g]))[g := v])
  }

  method Excite(c: Circuit, g: nat, v: LogicValue) returns (ok: bool)
    requires c.Ready() && g < |c.gates|
    modifies c`value
    ensures c.Ready()
    ensures (ok, c.value) == ExciteOutcome(c.gates, old(c.value), g, v)
    decreases c.gates[g].level
  {
    var gt := c.gates[g];
    if gt.gtype == PI {
      c.value := c.value[g := v];
      return true;
    }
    if gt.gtype == BUF {
      ok := Excite(c, gt.ins[0], Negate(v, gt.inv));
      c.value := c.value[g := if ok then v else X];
      return;
    }
    if v == X {
      return true;
    }
    // The loop over the inputs leaves on its first iteration either way, so
    // only in[0] is ever tried.
    if |gt.ins| == 0 {
      return false;
    }
    ok := Excite(c, gt.ins[0], v);
    if !ok {
      return;
    }
    SensitizeInputs(c, gt.ins, v, OtherValue(gt));
    c.value := c.value[g := v];
    return true;
  }

  /** The assignment loop of `excite`: `v` into the first input, `other`
      into the rest. */
  method SensitizeInputs(c: Circuit, ins: seq<nat>, v: LogicValue, other: LogicValue)
    requires c.Ready() && |ins| >= 1
    requires forall k :: 0 <= k < |ins| ==> ins[k] < |c.value|
    modifies c`value
    ensures c.Ready()
    ensures c.value == Assigned(old(c.value)[ins[0] := v], ins[1..], other)
  {
    ghost var vs := c.value;
    var k := 0;
    while k < |ins|
      invariant c.Ready() && k <= |ins|
      invariant k == 0 ==> c.value == vs
      invariant k > 0 ==> c.value == Assigned(vs[ins[0] := v], ins[1..k], other)
    {
      if k == 0 {
        assert vs[ins[0] := v] == Assigned(vs[ins[0] := v], ins[1..1], other);
        c.value := c.value[ins[k] := v];
      } else {
        AssignedExtend(vs[ins[0] := v], ins, 1, k, other);
        c.value := c.value[ins[k] := other];
      }
      k := k + 1;
    }
    assert ins[1..k] == ins[1..];
  }

  // ---------------------------------------------------------------------------
  // justify

  /** `justify(g, v)`: the answer and the values afterwards. */
  function JustifyOutcome(gs: seq<Gate>, vs: seq<LogicValue>, g: nat, v: LogicValue): (r: (bool, seq<LogicValue>))
    requires WellFormed(gs) && |vs| == |gs| && g < |gs|
    ensures |r.1| == |vs|
    decreases gs[g].level, 1, 0
  {
    if gs[g].gtype == PI then (true, vs)
    else if v == X then (true, vs)
    else if gs[g].gtype == BUF then
      var j := gs[g].ins[0];
      var jv := Negate(v, gs[g].inv);
      JustifyOutcome(gs, if vs[j] == X then vs[j := jv] else vs, j, jv)
    else
      var attempt := JustifyAttempt(gs, vs, g, v);
      if !attempt.0 then (false, attempt.1)
      else JustifyInputs(gs, attempt.1, g, 0)
  }

  /** The check before the input loop of `justify`: a gate that does not
      already compute `v` must be made to by `isOutputPossible`. */
  function JustifyAttempt(gs: seq<Gate>, vs: seq<LogicValue>, g: nat, v: LogicValue): (r: (bool, seq<LogicValue>))
    requires Structured(gs) && |vs| == |gs| && g < |gs|
    ensures |r.1| == |vs|
  {
    if ComputeGateOutput(gs, vs, g) != v then OutputPossible(gs, vs, g, v) else (true, vs)
  }

  /** The input loop of `justify` from position `k` on: each input is
      justified against the value it holds when its turn comes. */
  function JustifyInputs(gs: seq<Gate>, vs: seq<LogicValue>, g: nat, k: nat): (r: (bool, seq<LogicValue>))
    requires WellFormed(gs) && |vs| == |gs| && g < |gs| && k <= |gs[g].ins|
    ensures |r.1| == |vs|
    decreases gs[g].level, 0, |gs[g].ins| - k
  {
    if k == |gs[g].ins| then (true, vs)
    else
      var j := gs[g].ins[k];
      var sub := JustifyOutcome(gs, vs, j, vs[j]);
      if !sub.0 then (false, sub.1) else JustifyInputs(gs, sub.1, g, k + 1)
  }

  method Justify(c: Circuit, g: nat, v: LogicValue) returns (ok: bool)
    requires c.Ready() && g < |c.gates|
    modifies c`value
    ensures c.Ready()
    ensures (ok, c.value) == JustifyOutcome(c.gates, old(c.value), g, v)
    decreases c.gates[g].level, 1
  {
    var gt := c.gates[g];
    if gt.gtype == PI {
      return true;
    }
    if v == X {
      return true;
    }
    if gt.gtype == BUF {
      var j := gt.ins[0];
      var jv := Negate(v, gt.inv);
      if c.value[j] == X {
        c.value := c.value[j := jv];
      }
      ok := Justify(c, j, jv);
      return;
    }
    var result := ComputeGateOutput(c.gates, c.value, g);
    if result != v {
      var possible := IsOutputPossible(c, g, v);
      if !possible {
        return false;
      }
    }
    assert (true, c.value) == JustifyAttempt(c.gates, old(c.value), g, v);
    ok := JustifyEachInput(c, g);
  }

  /** The input loop of `justify`: each input of `g` in turn is justified
      against the value it holds, stopping at the first failure. */
  method JustifyEachInput(c: Circuit, g: nat) returns (ok: bool)
    requires c.Ready() && g < |c.gates|
    modifies c`value
    ensures c.Ready()
    ensures (ok, c.value) == JustifyInputs(c.gates, old(c.value), g, 0)
    decreases c.gates[g].level, 0
  {
    var ins := c.gates[g].ins;
    var k := 0;
    while k < |ins|
      invariant c.Ready() && k <= |ins|
      invariant JustifyInputs(c.gates, c.value, g, k) == JustifyInputs(c.gates, old(c.value), g, 0)
    {
      var j := ins[k];
      ok := Justify(c, j, c.value[j]);
      if !ok {
        return;
      }
      k := k + 1;
    }
    return true;
  }

  // ---------------------------------------------------------------------------
  // propagate

  /** Value `propagate` writes into every input of a non-buffer destination
      gate: I for AND, O for OR, X otherwise, whatever the inversion. */
  function SideValue(gt: GateType): LogicValue
  {
    if gt == AND then I else if gt == OR then O else X
  }

  /** `propagate(g, v)`: the answer and the values afterwards. */
  function PropagateOutcome(gs: seq<Gate>, vs: seq<LogicValue>, g: nat, v: LogicValue): (r: (bool, seq<LogicValue>))
    requires WellFormed(gs) && |vs| == |gs| && g < |gs|
    ensures |r.1| == |vs|
    decreases MaxLevel(gs) - gs[g].level, 1, 0
  {
    var placed := vs[g := v];
    if gs[g].po then JustifyOutcome(gs, placed, g, v)
    else if v == X then (true, placed)
    else PropagateOuts(gs, placed, g, v, 0)
  }

  /** The fan-out loop of `propagate` from position `k` on. */
  function PropagateOuts(gs: seq<Gate>, vs: seq<LogicValue>, g: nat, v: LogicValue, k: nat): (r: (bool, seq<LogicValue>))
    requires WellFormed(gs) && |vs| == |gs| && g < |gs| && k <= |gs[g].outs|
    ensures |r.1| == |vs|
    decreases MaxLevel(gs) - gs[g].level, 0, |gs[g].outs| - k
  {
    if k == |gs[g].outs| then (false, vs)
    else
      var d := gs[g].outs[k];
      if gs[d].gtype == BUF then
        var pv := Negate(v, gs[d].inv);
        var sub := PropagateOutcome(gs, vs, d, pv);
        var after := sub.1[d := if sub.0 then pv else X];
        if sub.0 then (true, after) else PropagateOuts(gs, after, g, v, k + 1)
      else
        var sides := Assigned(vs, gs[d].ins, SideValue(gs[d].gtype))[g := v];
        var sub := PropagateOutcome(gs, sides, d, Negate(v, gs[d].inv));
        if sub.0 then (true, sub.1)
        else PropagateOuts(gs, ClearedPath(gs, sub.1, g)[g := v], g, v, k + 1)
  }

  method Propagate(c: Circuit, g: nat, v: LogicValue) returns (ok: bool)
    requires c.Ready() && g < |c.gates|
    modifies c`value
    ensures c.Ready()
    ensures (ok, c.value) == PropagateOutcome(c.gates, old(c.value), g, v)
    decreases MaxLevel(c.gates) - c.gates[g].level
  {
    c.value := c.value[g := v];
    var gt := c.gates[g];
    if gt.po {
      ok := Justify(c, g, v);
      return;
    }
    if v == X {
      return true;
    }
    var k := 0;
    while k < |gt.outs|
      invariant c.Ready() && k <= |gt.outs|
      invariant PropagateOuts(c.gates, c.value, g, v, k) == PropagateOutcome(c.gates, old(c.value), g, v)
    {
      var d := gt.outs[k];
      var dt := c.gates[d];
      if dt.gtype == BUF {
        var pv := Negate(v, dt.inv);
        ok := Propagate(c, d, pv);
        c.value := c.value[d := if ok then pv else X];
        if ok {
          return;
        }
      } else {
        var other := SideValue(dt.gtype);
        ghost var before := c.value;
        var j := 0;
        while j < |dt.ins|
          invariant c.Ready() && j <= |dt.ins|
          invariant c.value == Assigned(before, dt.ins[..j], other)
        {
          AssignedExtend(before, dt.ins, 0, j, other);
          c.value := c.value[dt.ins[j] := other];
          j := j + 1;
        }
        assert dt.ins[..j] == dt.ins;
        c.value := c.value[g := v];
        ok := Propagate(c, d, Negate(v, dt.inv));
        if ok {
          return;
        }
        ClearPropagationValuesPath(c, g);
        c.value := c.value[g := v];
      }
      k := k + 1;
    }
    return false;
  }

  // ---------------------------------------------------------------------------
  // extractTestVector

  /** Character `extractTestVector` writes for a value: the good-circuit
      value, 'I' for I and D, 'O' for O and B, 'X' for X. */
  function VectorChar(v: LogicValue): (ch: char)
    ensures ch in {'X', 'I', 'O'}
    ensures ch == 'X' <==> v == X
    ensures ch == 'I' <==> v in {I, D}
    ensures ch == 'O' <==> v in {O, B}
  {
    match v
    case X => 'X'
    case I => 'I'
    case D => 'I'
    case O => 'O'
    case B => 'O'
  }

  /** `extractTestVector`: one character per primary input and output, in
      netlist order, and a fault count of one (the target fault). */
  method ExtractTestVector(c: Circuit, info: CircuitInfo) returns (tv: TestVector)
    requires c.Valid() && InfoInRange(info, |c.value|)
    ensures tv.faultsCount == 1 && tv.faultsList == []
    ensures |tv.input| == |info.inputs| && |tv.output| == |info.outputs|
    ensures forall k :: 0 <= k < |info.inputs| ==> tv.input[k] == VectorChar(c.value[info.inputs[k]])
    ensures forall k :: 0 <= k < |info.outputs| ==> tv.output[k] == VectorChar(c.value[info.outputs[k]])
  {
    var input := [];
    var k := 0;
    while k < |info.inputs|
      invariant k <= |info.inputs| && |input| == k
      invariant forall k' :: 0 <= k' < k ==> input[k'] == VectorChar(c.value[info.inputs[k']])
    {
      input := input + [VectorChar(c.value[info.inputs[k]])];
      k := k + 1;
    }
    var output := [];
    k := 0;
    while k < |info.outputs|
      invariant k <= |info.outputs| && |output| == k
      invariant forall k' :: 0 <= k' < k ==> output[k'] == VectorChar(c.value[info.outputs[k']])
    {
      output := output + [VectorChar(c.value[info.outputs[k]])];
      k := k + 1;
    }
    tv := TestVector(input, output, 1, []);
  }
}
