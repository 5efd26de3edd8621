/** What the sensitization search guarantees, and where it falls short, as
    lemmas about the outcome functions of `TestGenerator`. */
module SearchProperties {
  import opened AtpgTypes
  import opened LogicTables
  import opened TestGenerator

  // ---------------------------------------------------------------------------
  // clearPropagationValuesPath

  /** Clearing a path only ever writes X. */
  lemma {:induction false} ClearedPathOnlyClears(gs: seq<Gate>, vs: seq<LogicValue>, g: nat)
    requires WellFormed(gs) && |vs| == |gs| && g < |gs|
    ensures forall j :: 0 <= j < |vs| ==> ClearedPath(gs, vs, g)[j] == vs[j] || ClearedPath(gs, vs, g)[j] == X
    decreases MaxLevel(gs) - gs[g].level, 1, 0
  {
    if !gs[g].po {
      ClearedOutsOnlyClears(gs, Assigned(vs, gs[g].ins, X), g, 0);
    }
  }

  lemma {:induction false} ClearedOutsOnlyClears(gs: seq<Gate>, vs: seq<LogicValue>, g: nat, k: nat)
    requires WellFormed(gs) && |vs| == |gs| && g < |gs| && k <= |gs[g].outs|
    ensures forall j :: 0 <= j < |vs| ==> ClearedOuts(gs, vs, g, k)[j] == vs[j] || ClearedOuts(gs, vs, g, k)[j] == X
    decreases MaxLevel(gs) - gs[g].level, 0, |gs[g].outs| - k
  {
    if k < |gs[g].outs| {
      ClearedPathOnlyClears(gs, vs, gs[g].outs[k]);
      ClearedOutsOnlyClears(gs, ClearedPath(gs, vs, gs[g].outs[k]), g, k + 1);
    }
  }

  /** `clearPropagationValuesPath(g)` writes only X, leaves every input of
      `g` at X, and, unless `g` is a primary output, also clears `g` itself
      through the first fan-out (whose inputs include `g`) — which is why
      `propagate` restores its own value after calling it. */
  lemma ClearedPathEffect(gs: seq<Gate>, vs: seq<LogicValue>, g: nat)
    requires WellFormed(gs) && |vs| == |gs| && g < |gs|
    ensures forall j :: 0 <= j < |vs| ==> ClearedPath(gs, vs, g)[j] == vs[j] || ClearedPath(gs, vs, g)[j] == X
    ensures forall k :: 0 <= k < |gs[g].ins| ==> ClearedPath(gs, vs, g)[gs[g].ins[k]] == X
    ensures !gs[g].po && |gs[g].outs| > 0 ==> ClearedPath(gs, vs, g)[g] == X
    ensures gs[g].po ==> ClearedPath(gs, vs, g) == Assigned(vs, gs[g].ins, X)
  {
    ClearedPathOnlyClears(gs, vs, g);
    var cleared := Assigned(vs, gs[g].ins, X);
    if !gs[g].po {
      ClearedOutsOnlyClears(gs, cleared, g, 0);
      if |gs[g].outs| > 0 {
        var d := gs[g].outs[0];
        var k :| 0 <= k < |gs[d].ins| && gs[d].ins[k] == g;
        ClearedPathInputs(gs, cleared, d);
        ClearedOutsOnlyClears(gs, ClearedPath(gs, cleared, d), g, 1);
      }
    }
  }

  lemma ClearedPathInputs(gs: seq<Gate>, vs: seq<LogicValue>, g: nat)
    requires WellFormed(gs) && |vs| == |gs| && g < |gs|
    ensures forall k :: 0 <= k < |gs[g].ins| ==> ClearedPath(gs, vs, g)[gs[g].ins[k]] == X
  {
    if !gs[g].po {
      ClearedOutsOnlyClears(gs, Assigned(vs, gs[g].ins, X), g, 0);
    }
  }

  // ---------------------------------------------------------------------------
  // excite

  /** `excite(g, ·)` changes no gate above the level of `g`: it writes `g`
      and, recursively, gates of its fan-in cone. */
  lemma {:induction false} ExciteFrame(gs: seq<Gate>, vs: seq<LogicValue>, g: nat, v: LogicValue)
    requires WellFormed(gs) && |vs| == |gs| && g < |gs|
    ensures forall j :: 0 <= j < |vs| && gs[j].level > gs[g].level ==> ExciteOutcome(gs, vs, g, v).1[j] == vs[j]
    decreases gs[g].level
  {
    if gs[g].gtype == BUF {
      ExciteFrame(gs, vs, gs[g].ins[0], Negate(v, gs[g].inv));
    } else if gs[g].gtype != PI && v != X && |gs[g].ins| > 0 {
      ExciteFrame(gs, vs, gs[g].ins[0], v);
      InputsBelow(gs, g);
      assert forall j :: j in gs[g].ins[1..] ==> j in gs[g].ins;
    }
  }

  /** Exciting X always succeeds. A successful excitation with a known value
      (or of a PI or BUF) leaves the gate at that value; a BUF whose input
      cannot be excited is left at X; a PI never fails. */
  lemma {:induction false} ExciteTarget(gs: seq<Gate>, vs: seq<LogicValue>, g: nat, v: LogicValue)
    requires WellFormed(gs) && |vs| == |gs| && g < |gs|
    ensures v == X ==> ExciteOutcome(gs, vs, g, v).0
    ensures ExciteOutcome(gs, vs, g, v).0 && (v != X || gs[g].gtype in {PI, BUF}) ==>
              ExciteOutcome(gs, vs, g, v).1[g] == v
    ensures !ExciteOutcome(gs, vs, g, v).0 && gs[g].gtype == BUF ==> ExciteOutcome(gs, vs, g, v).1[g] == X
    ensures gs[g].gtype == PI ==> ExciteOutcome(gs, vs, g, v).0
    decreases gs[g].level
  {
    if gs[g].gtype == BUF {
      ExciteTarget(gs, vs, gs[g].ins[0], Negate(v, gs[g].inv));
    }
  }

  /** For a gate other than a PI or BUF and a known value: excitation
      succeeds exactly when the gate has an input and exciting its first
      input with the same value succeeds. On success the gate holds the
      value, and (inputs being distinct) in[0] holds the value and every
      other input `OtherValue`: the non-controlling value of a plain AND/OR,
      the controlling one of a NAND/NOR, and X for any other type. */
  lemma ExciteSensitizes(gs: seq<Gate>, vs: seq<LogicValue>, g: nat, v: LogicValue)
    requires WellFormed(gs) && |vs| == |gs| && g < |gs|
    requires gs[g].gtype !in {PI, BUF} && v != X
    ensures ExciteOutcome(gs, vs, g, v).0 <==> |gs[g].ins| > 0 && ExciteOutcome(gs, vs, gs[g].ins[0], v).0
    ensures ExciteOutcome(gs, vs, g, v).0 ==> ExciteOutcome(gs, vs, g, v).1[g] == v
    ensures ExciteOutcome(gs, vs, g, v).0 && (forall k1, k2 :: 0 <= k1 < k2 < |gs[g].ins| ==> gs[g].ins[k1] != gs[g].ins[k2]) ==>
              ExciteOutcome(gs, vs, g, v).1[gs[g].ins[0]] == v &&
              forall k :: 1 <= k < |gs[g].ins| ==> ExciteOutcome(gs, vs, g, v).1[gs[g].ins[k]] == OtherValue(gs[g])
  {
    var ins := gs[g].ins;
    if ExciteOutcome(gs, vs, g, v).0 && forall k1, k2 :: 0 <= k1 < k2 < |ins| ==> ins[k1] != ins[k2] {
      var r := ExciteOutcome(gs, vs, g, v).1;
      InputsBelow(gs, g);
      assert g !in ins;
      forall k | 0 <= k < |ins| - 1
        ensures ins[1..][k] != ins[0]
      {
        assert ins[1..][k] == ins[k + 1];
      }
      forall k | 1 <= k < |ins|
        ensures r[ins[k]] == OtherValue(gs[g])
      {
        assert ins[k] == ins[1..][k - 1];
      }
    }
  }

  /** What the excited gate then computes, with distinct inputs: a plain
      AND/OR computes the requested value. An inverted one with two or more
      inputs sees a controlling side input and computes I (NAND) or O (NOR)
      whatever was requested; with a single input it computes the inverse of
      the request. */
  lemma ExciteComputes(gs: seq<Gate>, vs: seq<LogicValue>, g: nat, v: LogicValue)
    requires WellFormed(gs) && |vs| == |gs| && g < |gs|
    requires gs[g].gtype in {AND, OR} && v != X
    requires forall k1, k2 :: 0 <= k1 < k2 < |gs[g].ins| ==> gs[g].ins[k1] != gs[g].ins[k2]
    requires ExciteOutcome(gs, vs, g, v).0
    ensures !gs[g].inv ==> ComputeGateOutput(gs, ExciteOutcome(gs, vs, g, v).1, g) == v
    ensures gs[g].inv && |gs[g].ins| == 1 ==> ComputeGateOutput(gs, ExciteOutcome(gs, vs, g, v).1, g) == Negate(v, true)
    ensures gs[g].inv && |gs[g].ins| >= 2 ==>
              ComputeGateOutput(gs, ExciteOutcome(gs, vs, g, v).1, g) == (if gs[g].gtype == AND then I else O)
  {
    var r := ExciteOutcome(gs, vs, g, v).1;
    ExciteSensitizes(gs, vs, g, v);
    if !gs[g].inv || |gs[g].ins| == 1 {
      ComputeGateOutputSensitized(gs, r, g, 0);
    } else {
      ComputeGateOutputControlled(gs, r, g, 1);
    }
  }

  /** `WellFormed`, assembled edge by edge for a concrete circuit. */
  lemma WellFormedFromEdges(gs: seq<Gate>)
    requires forall g, k :: 0 <= g < |gs| && 0 <= k < |gs[g].ins| ==>
               gs[g].ins[k] < |gs| && g in gs[gs[g].ins[k]].outs && gs[gs[g].ins[k]].level < gs[g].level
    requires forall g, k :: 0 <= g < |gs| && 0 <= k < |gs[g].outs| ==>
               gs[g].outs[k] < |gs| && g in gs[gs[g].outs[k]].ins && gs[gs[g].outs[k]].level > gs[g].level
    requires forall g :: 0 <= g < |gs| ==> gs[g].level >= 0
    requires forall g :: 0 <= g < |gs| && gs[g].gtype in {AND, OR, BUF} ==> |gs[g].ins| >= 1
    requires forall g :: 0 <= g < |gs| && gs[g].gtype == PI ==> gs[g].ins == []
    ensures WellFormed(gs)
  {
  }

  /** Three gates: primary inputs 0 and 1 feeding a NAND gate 2. */
  const NandGates: seq<Gate> :=
    [Gate(PI, false, [], [2], false, false, 0),
     Gate(PI, false, [], [2], false, false, 0),
     Gate(AND, true, [0, 1], [], true, false, 1)]

  /** The NAND example circuit, well formed. */
  function NandExample(): (gs: seq<Gate>)
    ensures WellFormed(gs)
  {
    var gs := NandGates;
    forall g, k | 0 <= g < |gs| && 0 <= k < |gs[g].ins|
      ensures gs[g].ins[k] < |gs| && g in gs[gs[g].ins[k]].outs && gs[gs[g].ins[k]].level < gs[g].level
    {
      assert g == 2 && gs[g].ins[k] == k;
    }
    forall g, k | 0 <= g < |gs| && 0 <= k < |gs[g].outs|
      ensures gs[g].outs[k] < |gs| && g in gs[gs[g].outs[k]].ins && gs[gs[g].outs[k]].level > gs[g].level
    {
      assert g < 2 && gs[g].outs[k] == 2 && gs[2].ins[g] == g;
    }
    WellFormedFromEdges(gs);
    gs
  }

  /** As written, exciting D at a NAND drives in[0] to D and the other input
      to O (the value `excite` picks for an inverted AND), so the gate is left
      holding D while its inputs make it compute I. */
  lemma ExciteInvertedGate()
    ensures ExciteOutcome(NandExample(), [X, X, X], 2, D) == (true, [D, O, D])
    ensures ComputeGateOutput(NandExample(), [D, O, D], 2) == I
  {
    ExciteNandSteps();
    var gs := NandExample();
    assert InputValues(gs, [D, O, D], 2) == [D, O];
    assert FoldAnd([D, O]) == O by {
      assert [D, O][..1] == [D];
    }
  }

  lemma ExciteNandSteps()
    ensures ExciteOutcome(NandExample(), [X, X, X], 2, D) == (true, [D, O, D])
  {
    var gs := NandExample();
    var vs: seq<LogicValue> := [X, X, X];
    var inputDone: seq<LogicValue> := [D, X, X];
    assert ExciteOutcome(gs, vs, 0, D) == (true, inputDone) by {
      assert vs[0 := D] == inputDone;
    }
    var sides := Assigned(inputDone, [1], O);
    assert sides[2 := D] == [D, O, D] by {
      assert sides[0] == D && sides[1] == O && sides[2] == X;
    }
    assert ExciteOutcome(gs, vs, 2, D) == (true, sides[2 := D]) by {
      assert inputDone[0 := D] == inputDone;
      assert gs[2].ins[0] == 0 && gs[2].ins[1..] == [1] && OtherValue(gs[2]) == O;
      assert gs[2].gtype == AND && |gs[2].ins| == 2;
    }
  }

  // ---------------------------------------------------------------------------
  // justify

  /** `justify(g, ·)` only resolves X values, and changes no gate at or above
      the level of `g` (in particular not `g` itself). */
  lemma {:induction false} JustifyEffect(gs: seq<Gate>, vs: seq<LogicValue>, g: nat, v: LogicValue)
    requires WellFormed(gs) && |vs| == |gs| && g < |gs|
    ensures forall j :: 0 <= j < |vs| ==> Refines(vs[j], JustifyOutcome(gs, vs, g, v).1[j])
    ensures forall j :: 0 <= j < |vs| && gs[j].level >= gs[g].level ==> JustifyOutcome(gs, vs, g, v).1[j] == vs[j]
    decreases gs[g].level, 1, 0
  {
    if gs[g].gtype == PI || v == X {
    } else if gs[g].gtype == BUF {
      var j := gs[g].ins[0];
      var jv := Negate(v, gs[g].inv);
      JustifyEffect(gs, if vs[j] == X then vs[j := jv] else vs, j, jv);
    } else {
      var attempt := JustifyAttempt(gs, vs, g, v);
      InputsBelow(gs, g);
      if ComputeGateOutput(gs, vs, g) != v {
        OutputPossibleFillsDontCares(gs, vs, g, v);
      }
      if attempt.0 {
        JustifyInputsEffect(gs, attempt.1, g, 0);
      }
    }
  }

  lemma {:induction false} JustifyInputsEffect(gs: seq<Gate>, vs: seq<LogicValue>, g: nat, k: nat)
    requires WellFormed(gs) && |vs| == |gs| && g < |gs| && k <= |gs[g].ins|
    ensures forall j :: 0 <= j < |vs| ==> Refines(vs[j], JustifyInputs(gs, vs, g, k).1[j])
    ensures forall j :: 0 <= j < |vs| && gs[j].level >= gs[g].level ==> JustifyInputs(gs, vs, g, k).1[j] == vs[j]
    decreases gs[g].level, 0, |gs[g].ins| - k
  {
    if k < |gs[g].ins| {
      var j := gs[g].ins[k];
      JustifyEffect(gs, vs, j, vs[j]);
      var sub := JustifyOutcome(gs, vs, j, vs[j]);
      if sub.0 {
        JustifyInputsEffect(gs, sub.1, g, k + 1);
      }
    }
  }

  /** A successful justification of a known value at an AND or OR gate leaves
      the gate evaluating to that value. */
  lemma JustifySound(gs: seq<Gate>, vs: seq<LogicValue>, g: nat, v: LogicValue)
    requires WellFormed(gs) && |vs| == |gs| && g < |gs|
    requires gs[g].gtype in {AND, OR} && v != X
    requires JustifyOutcome(gs, vs, g, v).0
    ensures ComputeGateOutput(gs, JustifyOutcome(gs, vs, g, v).1, g) == v
  {
    var attempt := JustifyAttempt(gs, vs, g, v);
    if ComputeGateOutput(gs, vs, g) != v {
      OutputPossibleSound(gs, vs, g, v);
    }
    JustifyInputsEffect(gs, attempt.1, g, 0);
    ComputeGateOutputMonotone(gs, attempt.1, JustifyOutcome(gs, vs, g, v).1, g);
  }

  /** A BUF is justified by filling an X input with the negated request and
      justifying that input; the buffer then evaluates to the request exactly
      when its input was X or already agreed. A conflicting input is not
      detected here: see `JustifyBufferConflict`. */
  lemma JustifyBuffer(gs: seq<Gate>, vs: seq<LogicValue>, g: nat, v: LogicValue)
    requires WellFormed(gs) && |vs| == |gs| && g < |gs|
    requires gs[g].gtype == BUF && v != X
    ensures JustifyOutcome(gs, vs, g, v).1[gs[g].ins[0]]
         == (if vs[gs[g].ins[0]] == X then Negate(v, gs[g].inv) else vs[gs[g].ins[0]])
    ensures ComputeGateOutput(gs, JustifyOutcome(gs, vs, g, v).1, g) == v
        <==> vs[gs[g].ins[0]] == X || vs[gs[g].ins[0]] == Negate(v, gs[g].inv)
  {
    var j := gs[g].ins[0];
    var jv := Negate(v, gs[g].inv);
    JustifyEffect(gs, if vs[j] == X then vs[j := jv] else vs, j, jv);
    NegateInvolution(v, gs[g].inv);
    NegateInvolution(vs[j], gs[g].inv);
  }

  /** A primary input 0 driving a buffer 1. */
  const BufferGates: seq<Gate> :=
    [Gate(PI, false, [], [1], false, false, 0),
     Gate(BUF, false, [0], [], true, false, 1)]

  /** The buffer example circuit, well formed. */
  function BufferExample(): (gs: seq<Gate>)
    ensures WellFormed(gs)
  {
    var gs := BufferGates;
    forall g, k | 0 <= g < |gs| && 0 <= k < |gs[g].ins|
      ensures gs[g].ins[k] < |gs| && g in gs[gs[g].ins[k]].outs && gs[gs[g].ins[k]].level < gs[g].level
    {
      assert g == 1 && k == 0 && gs[g].ins[k] == 0;
    }
    forall g, k | 0 <= g < |gs| && 0 <= k < |gs[g].outs|
      ensures gs[g].outs[k] < |gs| && g in gs[gs[g].outs[k]].ins && gs[gs[g].outs[k]].level > gs[g].level
    {
      assert g == 0 && k == 0 && gs[g].outs[k] == 1 && gs[1].ins[0] == 0;
    }
    WellFormedFromEdges(gs);
    gs
  }

  /** As written, justifying I at a buffer whose input already holds O
      succeeds without changing anything, although the buffer computes O. */
  lemma JustifyBufferConflict()
    ensures JustifyOutcome(BufferExample(), [O, X], 1, I) == (true, [O, X])
    ensures ComputeGateOutput(BufferExample(), [O, X], 1) == O
  {
  }

  /** Gate types the evaluator does not implement (XOR, FF, PPI, OTHER)
      evaluate to X, so they can never be justified to a known value. */
  lemma JustifyUnsupported(gs: seq<Gate>, vs: seq<LogicValue>, g: nat, v: LogicValue)
    requires WellFormed(gs) && |vs| == |gs| && g < |gs|
    requires gs[g].gtype in {XOR, FF, PPI, OTHER} && v != X
    ensures !JustifyOutcome(gs, vs, g, v).0
  {
    ComputeGateOutputUnknown(gs, vs, g);
    if !HasDontCare(gs, vs, g) {
      OutputPossibleNoDontCare(gs, vs, g, v);
    } else {
      OutputPossibleGeneral(gs, vs, g, v);
      ComputeGateOutputUnknown(gs, Filled(gs, vs, g, v), g);
    }
  }

  // ---------------------------------------------------------------------------
  // propagate

  /** At a primary output, `propagate` is `justify` after writing the value,
      and the output keeps the propagated value. */
  lemma PropagateAtOutput(gs: seq<Gate>, vs: seq<LogicValue>, g: nat, v: LogicValue)
    requires WellFormed(gs) && |vs| == |gs| && g < |gs| && gs[g].po
    ensures PropagateOutcome(gs, vs, g, v) == JustifyOutcome(gs, vs[g := v], g, v)
    ensures PropagateOutcome(gs, vs, g, v).1[g] == v
  {
    JustifyEffect(gs, vs[g := v], g, v);
  }

  /** A successful propagation of a fault effect (D or B) leaves some primary
      output holding D or B. */
  lemma {:induction false} PropagateReachesOutput(gs: seq<Gate>, vs: seq<LogicValue>, g: nat, v: LogicValue)
    requires WellFormed(gs) && |vs| == |gs| && g < |gs| && (v == D || v == B)
    requires PropagateOutcome(gs, vs, g, v).0
    ensures exists p :: 0 <= p < |gs| && gs[p].po &&
              (PropagateOutcome(gs, vs, g, v).1[p] == D || PropagateOutcome(gs, vs, g, v).1[p] == B)
    decreases MaxLevel(gs) - gs[g].level, 1, 0
  {
    var placed := vs[g := v];
    if gs[g].po {
      JustifyEffect(gs, placed, g, v);
      assert JustifyOutcome(gs, placed, g, v).1[g] == v;
    } else {
      PropagateOutsReachesOutput(gs, placed, g, v, 0);
    }
  }

  lemma {:induction false} PropagateOutsReachesOutput(gs: seq<Gate>, vs: seq<LogicValue>, g: nat, v: LogicValue, k: nat)
    requires WellFormed(gs) && |vs| == |gs| && g < |gs| && k <= |gs[g].outs| && (v == D || v == B)
    requires PropagateOuts(gs, vs, g, v, k).0
    ensures exists p :: 0 <= p < |gs| && gs[p].po &&
              (PropagateOuts(gs, vs, g, v, k).1[p] == D || PropagateOuts(gs, vs, g, v, k).1[p] == B)
    decreases MaxLevel(gs) - gs[g].level, 0, |gs[g].outs| - k
  {
    var d := gs[g].outs[k];
    if gs[d].gtype == BUF {
      var pv := Negate(v, gs[d].inv);
      var sub := PropagateOutcome(gs, vs, d, pv);
      var after := sub.1[d := if sub.0 then pv else X];
      if sub.0 {
        PropagateReachesOutput(gs, vs, d, pv);
        var p :| 0 <= p < |gs| && gs[p].po && (sub.1[p] == D || sub.1[p] == B);
        assert after[p] == D || after[p] == B;
      } else {
        PropagateOutsReachesOutput(gs, after, g, v, k + 1);
      }
    } else {
      var sides := Assigned(vs, gs[d].ins, SideValue(gs[d].gtype))[g := v];
      var sub := PropagateOutcome(gs, sides, d, Negate(v, gs[d].inv));
      if sub.0 {
        PropagateReachesOutput(gs, sides, d, Negate(v, gs[d].inv));
      } else {
        PropagateOutsReachesOutput(gs, ClearedPath(gs, sub.1, g)[g := v], g, v, k + 1);
      }
    }
  }

  /** Primary input a (gate 0) reaching AND gate 3 both directly and through
      an inverting buffer 1, beside primary input b (gate 2); gate 3 is the
      only primary output. */
  const ReconvergentGates: seq<Gate> :=
    [Gate(PI, false, [], [1, 3], false, false, 0),
     Gate(BUF, true, [0], [3], false, false, 1),
     Gate(PI, false, [], [3], false, false, 0),
     Gate(AND, false, [2, 1, 0], [], true, false, 2)]

  /** The fan-in and fan-out lists of the reconvergent circuit mirror each
      other and every edge climbs a level. */
  lemma ReconvergentEdges()
    ensures var gs := ReconvergentGates;
            forall g, k :: 0 <= g < |gs| && 0 <= k < |gs[g].ins| ==>
              gs[g].ins[k] < |gs| && g in gs[gs[g].ins[k]].outs && gs[gs[g].ins[k]].level < gs[g].level
    ensures var gs := ReconvergentGates;
            forall g, k :: 0 <= g < |gs| && 0 <= k < |gs[g].outs| ==>
              gs[g].outs[k] < |gs| && g in gs[gs[g].outs[k]].ins && gs[gs[g].outs[k]].level > gs[g].level
  {
    var gs := ReconvergentGates;
    forall g, k | 0 <= g < |gs| && 0 <= k < |gs[g].ins|
      ensures gs[g].ins[k] < |gs| && g in gs[gs[g].ins[k]].outs && gs[gs[g].ins[k]].level < gs[g].level
    {
      if g == 1 {
        assert k == 0 && gs[g].ins[k] == 0;
      } else {
        assert g == 3 && gs[g].ins[k] == 2 - k;
      }
    }
    forall g, k | 0 <= g < |gs| && 0 <= k < |gs[g].outs|
      ensures gs[g].outs[k] < |gs| && g in gs[gs[g].outs[k]].ins && gs[gs[g].outs[k]].level > gs[g].level
    {
      if g == 0 {
        assert gs[1].ins[0] == 0 && gs[3].ins[2] == 0;
        assert gs[g].outs[k] == 1 || gs[g].outs[k] == 3;
      } else if g == 1 {
        assert gs[3].ins[1] == 1 && gs[g].outs[k] == 3;
      } else {
        assert g == 2 && gs[3].ins[0] == 2 && gs[g].outs[k] == 3;
      }
    }
  }

  /** The reconvergent example circuit, well formed. */
  function ReconvergentExample(): (gs: seq<Gate>)
    ensures WellFormed(gs)
  {
    ReconvergentEdges();
    WellFormedFromEdges(ReconvergentGates);
    ReconvergentGates
  }

  /** The input loop of `justify` at gate 3 of the reconvergent circuit
      holding I, I, D, D: each input already holds a value, so every call
      returns at once. */
  lemma ReconvergentJustifyInputs()
    ensures JustifyInputs(ReconvergentExample(), [I, I, D, D], 3, 0) == (true, [I, I, D, D])
  {
    var gs := ReconvergentExample();
    var w: seq<LogicValue> := [I, I, D, D];
    assert JustifyInputs(gs, w, 3, 3) == (true, w);
    assert JustifyInputs(gs, w, 3, 2) == (true, w) by {
      assert gs[3].ins[2] == 0 && gs[0].gtype == PI;
    }
    assert JustifyInputs(gs, w, 3, 1) == (true, w) by {
      assert gs[3].ins[1] == 1 && gs[1].gtype == BUF && gs[1].ins[0] == 0;
      assert JustifyOutcome(gs, w, 0, O) == (true, w);
      assert JustifyOutcome(gs, w, 1, I) == (true, w);
    }
    assert gs[3].ins[0] == 2 && gs[2].gtype == PI;
  }

  /** Justifying D at gate 3 of the reconvergent circuit holding I, I, D, D
      succeeds and changes nothing. */
  lemma ReconvergentJustify()
    ensures JustifyOutcome(ReconvergentExample(), [I, I, D, D], 3, D) == (true, [I, I, D, D])
  {
    var gs := ReconvergentExample();
    var w: seq<LogicValue> := [I, I, D, D];
    ReconvergentJustifyInputs();
    assert ComputeGateOutput(gs, w, 3) == D by {
      var s := InputValues(gs, w, 3);
      assert gs[3].ins == [2, 1, 0] && gs[3].gtype == AND && !gs[3].inv;
      assert |s| == 3 && s[0] == D && s[1] == I && s[2] == I;
      assert s[..2][..1] == [D];
      assert FoldAnd(s[..2]) == D;
    }
    assert JustifyAttempt(gs, w, 3, D) == (true, w);
  }

  /** As written, the search for b stuck-at-0 places D on b, then
      propagates it through gate 3 by writing I on every input of the AND
      gate: I on a and I on the inverting buffer that a drives. The
      justification of the buffer's I only checks that a is no longer X,
      so the search succeeds with values no assignment of a can produce. */
  lemma PropagateReconvergent()
    ensures ExciteOutcome(ReconvergentExample(), [X, X, X, X], 2, D) == (true, [X, X, D, X])
    ensures PropagateOutcome(ReconvergentExample(), [X, X, D, X], 2, D) == (true, [I, I, D, D])
    ensures ComputeGateOutput(ReconvergentExample(), [I, I, D, D], 1) == O
  {
    var gs := ReconvergentExample();
    var w: seq<LogicValue> := [I, I, D, D];
    var vs: seq<LogicValue> := [X, X, D, X];
    var sides: seq<LogicValue> := [I, I, D, X];
    assert Assigned(vs, gs[3].ins, I)[2 := D] == sides;
    assert PropagateOutcome(gs, sides, 3, D) == (true, w) by {
      ReconvergentJustify();
      assert sides[3 := D] == w && gs[3].po;
    }
    assert PropagateOuts(gs, vs, 2, D, 0) == (true, w) by {
      assert gs[2].outs[0] == 3 && gs[3].gtype == AND && !gs[3].inv;
      assert SideValue(AND) == I && Negate(D, false) == D;
    }
    assert vs[2 := D] == vs;
    assert [X, X, X, X][2 := D] == vs;
    assert gs[1].gtype == BUF && gs[1].inv && gs[1].ins[0] == 0;
  }
}
