/** A vector the driver emits that does not detect its own fault: the
    search on the reconvergent example circuit of `SearchProperties`,
    replayed by the driver and by the fault simulator. */
module MaskedFault {
  import opened AtpgTypes
  import opened LogicTables
  import opened FaultSimulation
  import opened SearchProperties
  import opened AtpgDriver

  /** Primary inputs a (gate 0) and b (gate 2), primary output gate 3 of the
      reconvergent example circuit. */
  const ReconvergentInfo := CircuitInfo([0, 2], [3])

  /** Applying the pattern "II" sets a and b to I. */
  lemma ReconvergentStart()
    ensures PatternStart(ReconvergentExample(), ReconvergentInfo, "II") == [I, X, I, X]
  {
    var gs := ReconvergentExample();
    var blank: seq<LogicValue> := seq(|gs|, _ => X);
    var ids := ReconvergentInfo.inputs;
    assert ids[..1] == [0] && ids[..1][..0] == [];
    assert Applied(blank, ids[..1], "II", PatternValue) == [I, X, X, X];
  }

  /** Under the pattern "II" with b stuck at 0, a settles at I, the
      inverting buffer at O and b at the fault effect D. */
  lemma ReconvergentInputsSettle()
    ensures var gs := ReconvergentExample();
            var fault := Some(Fault(2, ST_0, false));
            Settled(gs, [I, X, I, X], [0, 2], fault, 0) == I &&
            Settled(gs, [I, X, I, X], [0, 2], fault, 1) == O &&
            Settled(gs, [I, X, I, X], [0, 2], fault, 2) == D
  {
    var gs := ReconvergentExample();
    var init: seq<LogicValue> := [I, X, I, X];
    var srcs: seq<nat> := [0, 2];
    var fault := Some(Fault(2, ST_0, false));
    assert Reached(gs, srcs, 0) && gs[0].gtype == PI;
    assert Reached(gs, srcs, 2) && gs[2].gtype == PI;
    assert Raw(gs, init, srcs, fault, 2) == I;
    assert gs[1].ins == [0] && gs[1].gtype == BUF && gs[1].inv;
    assert Reached(gs, srcs, 1) by {
      assert gs[1].ins[0] == 0;
    }
    SettledGate(gs, init, srcs, fault, 1);
    var si := SettledInputs(gs, init, srcs, fault, 1);
    assert ComputeGateOutput(gs, si, 1) == Negate(si[0], true);
  }

  /** With b stuck at 0 and the pattern "II", the fault is excited and the
      AND gate settles at O: the buffer's O masks the fault effect. */
  lemma ReconvergentSettles()
    ensures var gs := ReconvergentExample();
            var init := PatternStart(gs, ReconvergentInfo, "II");
            var fault := Some(Fault(2, ST_0, false));
            ExcitedAt(gs, init, [0, 2], fault) && Settled(gs, init, [0, 2], fault, 3) == O
  {
    var gs := ReconvergentExample();
    ReconvergentStart();
    ReconvergentInputsSettle();
    var init: seq<LogicValue> := [I, X, I, X];
    var srcs: seq<nat> := [0, 2];
    var fault := Some(Fault(2, ST_0, false));
    assert gs[3].ins == [2, 1, 0] && gs[3].gtype == AND && !gs[3].inv;
    assert Reached(gs, srcs, 2) && gs[2].gtype == PI;
    assert Raw(gs, init, srcs, fault, 2) == I;
    assert Reached(gs, srcs, 3) by {
      assert gs[3].ins[0] == 2;
    }
    SettledGate(gs, init, srcs, fault, 3);
    var si := SettledInputs(gs, init, srcs, fault, 3);
    assert si[gs[3].ins[1]] == O;
    ComputeGateOutputControlled(gs, si, 3, 1);
  }

  /** As written, the driver emits the vector a = I, b = I with expected
      output I for b stuck-at-0 on the reconvergent circuit, from the values
      of `PropagateReconvergent`. */
  lemma ReconvergentVectorEmitted()
    ensures Attempt(ReconvergentExample(), 2, ST_0) == Some([I, I, D, D])
    ensures Round(ReconvergentExample(), ReconvergentInfo, [Fault(2, ST_0, false)], 0).0 ==
            Some(ExpectedVector("II", "I", []))
  {
    var gs := ReconvergentExample();
    var info := ReconvergentInfo;
    PropagateReconvergent();
    assert seq(|gs|, _ => X) == [X, X, X, X];
    var vs: seq<LogicValue> := [I, I, D, D];
    assert Chars(vs, info.inputs) == "II";
    assert Chars(vs, info.outputs) == "I";
    var flags := [Fault(2, ST_0, false)];
    var after := Marked(gs, info, "II", "I", flags, 1, 1);
    assert after == flags;
    assert NewlyDetected(flags, after, 1, 1) == [];
  }

  /** Under the pattern "II" with b stuck at 0, the primary output reads
      back as O. */
  lemma ReconvergentReadBack()
    ensures ReadBack(ReconvergentExample(), PatternStart(ReconvergentExample(), ReconvergentInfo, "II"),
                     [0, 2], Some(Fault(2, ST_0, false)), [3]) == "O"
  {
    ReconvergentSettles();
  }

  /** Yet the simulator finds that this vector does not detect b stuck-at-0:
      the fault is excited, but the faulty output settles at O rather than
      at a fault effect. */
  lemma ReconvergentVectorMissesFault()
    ensures !Detects(ReconvergentExample(), ReconvergentInfo, "II", "I", Fault(2, ST_0, false))
  {
    ReconvergentReadBack();
    assert !OutputDiffers('O', 'I');
  }
}
