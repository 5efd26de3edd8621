/** The driver of the test generator: the fault list (a stuck-at-0 and a
    stuck-at-1 fault on every gate) and the loop that, fault by fault,
    searches for a test vector from a cleared circuit and fault-simulates
    every vector it finds against the faults after it. */
module AtpgDriver {
  import opened AtpgTypes
  import opened LogicTables
  import opened TestGenerator
  import opened FaultSimulation

  // ---------------------------------------------------------------------------
  // generate_fault_list

  /** `generate_fault_list`: position 2K holds the stuck-at-0 fault of gate K
      and position 2K + 1 its stuck-at-1 fault. */
  method GenerateFaultList(numGates: nat) returns (list: seq<Fault>)
    ensures |list| == 2 * numGates
    ensures forall K :: 0 <= K < numGates ==> list[2 * K] == Fault(K, ST_0, false) && list[2 * K + 1] == Fault(K, ST_1, false)
  {
    list := [];
    var K := 0;
    while K < numGates
      invariant K <= numGates && |list| == 2 * K
      invariant forall j :: 0 <= j < K ==> list[2 * j] == Fault(j, ST_0, false) && list[2 * j + 1] == Fault(j, ST_1, false)
    {
      list := list + [Fault(K, ST_0, false)];
      list := list + [Fault(K, ST_1, false)];
      K := K + 1;
    }
  }

  /** The list holds each of the 2 * numGates stuck-at faults exactly once:
      every entry names a gate of the circuit, and no two entries name the
      same gate with the same fault type. */
  lemma FaultListComplete(list: seq<Fault>, numGates: nat)
    requires |list| == 2 * numGates
    requires forall K :: 0 <= K < numGates ==> list[2 * K] == Fault(K, ST_0, false) && list[2 * K + 1] == Fault(K, ST_1, false)
    ensures forall j :: 0 <= j < |list| ==>
              list[j].index == j / 2 && list[j].index < numGates && (list[j].ftype == ST_0 <==> j % 2 == 0)
    ensures forall i, j :: 0 <= i < j < |list| ==> (list[i].index, list[i].ftype) != (list[j].index, list[j].ftype)
  {
    forall j | 0 <= j < |list|
      ensures list[j].index == j / 2 && list[j].index < numGates && (list[j].ftype == ST_0 <==> j % 2 == 0)
    {
      var K := j / 2;
      assert j == 2 * K + j % 2 && K < numGates;
      if j % 2 == 0 {
        assert list[j] == list[2 * K] == Fault(K, ST_0, false);
      } else {
        assert list[j] == list[2 * K + 1] == Fault(K, ST_1, false);
      }
    }
  }

  // ---------------------------------------------------------------------------
  // generate_test_patterns

  /** The search for one fault from a cleared circuit: excite the fault site
      with its fault effect (D for stuck-at-0, B for stuck-at-1), then
      propagate it; the values on success. */
  function Attempt(gs: seq<Gate>, index: nat, ft: FaultType): (r: Option<seq<LogicValue>>)
    requires WellFormed(gs) && index < |gs|
    ensures r.Some? ==> |r.value| == |gs|
  {
    var v := FaultEffect(ft);
    var excited := ExciteOutcome(gs, seq(|gs|, _ => X), index, v);
    if !excited.0 then None
    else
      var propagated := PropagateOutcome(gs, excited.1, index, v);
      if propagated.0 then Some(propagated.1) else None
  }

  /** The vector characters of the gates `ids` under the values `vs`. */
  function Chars(vs: seq<LogicValue>, ids: seq<nat>): (r: seq<char>)
    requires forall k :: 0 <= k < |ids| ==> ids[k] < |vs|
    ensures |r| == |ids|
    ensures forall k :: 0 <= k < |ids| ==> r[k] in {'X', 'I', 'O'}
  {
    seq(|ids|, k requires 0 <= k < |ids| => VectorChar(vs[ids[k]]))
  }

  /** The input and output characters of the vectors the driver produces
      for the faults below `hi`: one per fault whose search succeeds, in
      fault-list order. */
  function ExpectedVectors(gs: seq<Gate>, info: CircuitInfo, faults: seq<Fault>, hi: nat): seq<(seq<char>, seq<char>)>
    requires WellFormed(gs) && InfoInRange(info, |gs|) && hi <= |faults|
    requires forall K :: 0 <= K < |faults| ==> faults[K].index < |gs|
  {
    if hi == 0 then []
    else
      ExpectedVectors(gs, info, faults, hi - 1) +
      match Attempt(gs, faults[hi - 1].index, faults[hi - 1].ftype)
      case None => []
      case Some(vs) => [(Chars(vs, info.inputs), Chars(vs, info.outputs))]
  }

  /** `final` is `faults` with, at most, more detected flags set. */
  predicate KeepsFaults(faults: seq<Fault>, final: seq<Fault>)
  {
    |final| == |faults| &&
    forall j :: 0 <= j < |faults| ==>
      final[j].index == faults[j].index && final[j].ftype == faults[j].ftype &&
      (faults[j].detected ==> final[j].detected)
  }

  /** What a round leaves in its vector: the characters of the primary
      inputs and outputs, and the later faults the vector newly detects. */
  datatype ExpectedVector = ExpectedVector(input: seq<char>, output: seq<char>, faultsList: seq<Fault>)

  /** The flags after fault-simulating a vector against the faults at
      positions `start` to `hi` - 1, one after another: an undetected fault
      becomes detected when the vector detects it. */
  ghost function Marked(gs: seq<Gate>, info: CircuitInfo, input: seq<char>, output: seq<char>,
                        flags: seq<Fault>, start: nat, hi: nat): (r: seq<Fault>)
    requires WellFormed(gs) && InfoInRange(info, |gs|) && |input| >= |info.inputs| && |output| >= |info.outputs|
    requires hi <= |flags|
    ensures KeepsFaults(flags, r)
    decreases hi
  {
    if hi <= start then flags
    else
      var prev := Marked(gs, info, input, output, flags, start, hi - 1);
      if !flags[hi - 1].detected && Detects(gs, info, input, output, flags[hi - 1])
      then prev[hi - 1 := Fault(flags[hi - 1].index, flags[hi - 1].ftype, true)]
      else prev
  }

  /** Position `j` of `Marked`: detected when it was, or when it lies in
      the range and the vector detects its fault; nothing else changes. */
  lemma {:induction false} MarkedAt(gs: seq<Gate>, info: CircuitInfo, input: seq<char>, output: seq<char>,
                                    flags: seq<Fault>, start: nat, hi: nat, j: nat)
    requires WellFormed(gs) && InfoInRange(info, |gs|) && |input| >= |info.inputs| && |output| >= |info.outputs|
    requires hi <= |flags| && j < |flags|
    ensures Marked(gs, info, input, output, flags, start, hi)[j] ==
            if start <= j < hi && !flags[j].detected && Detects(gs, info, input, output, flags[j])
            then Fault(flags[j].index, flags[j].ftype, true) else flags[j]
    decreases hi
  {
    if hi > start {
      MarkedAt(gs, info, input, output, flags, start, hi - 1, j);
      var prev := Marked(gs, info, input, output, flags, start, hi - 1);
      var hit := !flags[hi - 1].detected && Detects(gs, info, input, output, flags[hi - 1]);
      assert Marked(gs, info, input, output, flags, start, hi) ==
             if hit then prev[hi - 1 := Fault(flags[hi - 1].index, flags[hi - 1].ftype, true)] else prev;
      if j != hi - 1 {
        assert Marked(gs, info, input, output, flags, start, hi)[j] == prev[j];
      }
    }
  }

  /** Round K of the driver from the flags `flags`: the vector it emits (none
      when the search for fault K fails) and the flags afterwards. */
  ghost function Round(gs: seq<Gate>, info: CircuitInfo, flags: seq<Fault>, K: nat): (r: (Option<ExpectedVector>, seq<Fault>))
    requires WellFormed(gs) && InfoInRange(info, |gs|) && K < |flags|
    requires forall j :: 0 <= j < |flags| ==> flags[j].index < |gs|
    ensures KeepsFaults(flags, r.1)
  {
    match Attempt(gs, flags[K].index, flags[K].ftype)
    case None => (None, flags)
    case Some(vs) =>
      var input := Chars(vs, info.inputs);
      var output := Chars(vs, info.outputs);
      var after := Marked(gs, info, input, output, flags, K + 1, |flags|);
      (Some(ExpectedVector(input, output, NewlyDetected(flags, after, K + 1, |flags|))), after)
  }

  /** The rounds of the faults below `hi`, each one starting from the flags
      the previous one left: the vectors emitted, in order, and the flags. */
  ghost function Rounds(gs: seq<Gate>, info: CircuitInfo, faults: seq<Fault>, hi: nat): (r: (seq<ExpectedVector>, seq<Fault>))
    requires WellFormed(gs) && InfoInRange(info, |gs|) && hi <= |faults|
    requires forall j :: 0 <= j < |faults| ==> faults[j].index < |gs|
    ensures KeepsFaults(faults, r.1)
  {
    if hi == 0 then ([], faults)
    else
      var prev := Rounds(gs, info, faults, hi - 1);
      var round := Round(gs, info, prev.1, hi - 1);
      (prev.0 + (if round.0.Some? then [round.0.value] else []), round.1)
  }

  /** A produced vector carries what the round expects, and its fault count
      is one (its originating fault) plus the faults listed with it. */
  predicate VectorMatches(tv: TestVector, e: ExpectedVector)
  {
    tv.input == e.input && tv.output == e.output && tv.faultsList == e.faultsList &&
    tv.faultsCount == 1 + |e.faultsList|
  }

  predicate VectorsMatch(vectors: seq<TestVector>, expected: seq<ExpectedVector>)
  {
    |vectors| == |expected| && forall i :: 0 <= i < |vectors| ==> VectorMatches(vectors[i], expected[i])
  }

  /** A round emits a vector exactly when the search for its fault
      succeeds, with the characters of the values the search leaves. */
  lemma RoundCharacters(gs: seq<Gate>, info: CircuitInfo, flags: seq<Fault>, K: nat)
    requires WellFormed(gs) && InfoInRange(info, |gs|) && K < |flags|
    requires forall j :: 0 <= j < |flags| ==> flags[j].index < |gs|
    ensures var round := Round(gs, info, flags, K).0;
            var attempt := Attempt(gs, flags[K].index, flags[K].ftype);
            (round.Some? <==> attempt.Some?) &&
            (round.Some? ==> round.value.input == Chars(attempt.value, info.inputs) &&
                             round.value.output == Chars(attempt.value, info.outputs))
  {
  }

  /** The vectors `vectors` carry the characters listed in `expected`. */
  predicate SameCharacters(vectors: seq<ExpectedVector>, expected: seq<(seq<char>, seq<char>)>)
  {
    |vectors| == |expected| &&
    forall i :: 0 <= i < |vectors| ==> vectors[i].input == expected[i].0 && vectors[i].output == expected[i].1
  }

  lemma SameCharactersAppend(a: seq<ExpectedVector>, b: seq<(seq<char>, seq<char>)>,
                             t: seq<ExpectedVector>, u: seq<(seq<char>, seq<char>)>)
    requires SameCharacters(a, b) && SameCharacters(t, u)
    ensures SameCharacters(a + t, b + u)
  {
    forall i | 0 <= i < |a + t|
      ensures (a + t)[i].input == (b + u)[i].0 && (a + t)[i].output == (b + u)[i].1
    {
      if i >= |a| {
        assert (a + t)[i] == t[i - |a|] && (b + u)[i] == u[i - |a|];
      }
    }
  }

  /** The characters of the vectors do not depend on the detected flags: they
      are those of `ExpectedVectors`, one per fault whose search succeeds. */
  lemma {:induction false} RoundsCharacters(gs: seq<Gate>, info: CircuitInfo, faults: seq<Fault>, hi: nat)
    requires WellFormed(gs) && InfoInRange(info, |gs|) && hi <= |faults|
    requires forall j :: 0 <= j < |faults| ==> faults[j].index < |gs|
    ensures SameCharacters(Rounds(gs, info, faults, hi).0, ExpectedVectors(gs, info, faults, hi))
  {
    if hi > 0 {
      RoundsCharacters(gs, info, faults, hi - 1);
      var prev := Rounds(gs, info, faults, hi - 1);
      var round := Round(gs, info, prev.1, hi - 1).0;
      var tail := if round.Some? then [round.value] else [];
      assert Rounds(gs, info, faults, hi).0 == prev.0 + tail;
      assert prev.1[hi - 1].index == faults[hi - 1].index && prev.1[hi - 1].ftype == faults[hi - 1].ftype;
      var attempt := Attempt(gs, faults[hi - 1].index, faults[hi - 1].ftype);
      var expectedTail := if attempt.None? then [] else [(Chars(attempt.value, info.inputs), Chars(attempt.value, info.outputs))];
      assert ExpectedVectors(gs, info, faults, hi) == ExpectedVectors(gs, info, faults, hi - 1) + expectedTail;
      RoundTailCharacters(gs, info, prev.1, hi - 1, faults[hi - 1]);
      assert SameCharacters(tail, expectedTail);
      SameCharactersAppend(prev.0, ExpectedVectors(gs, info, faults, hi - 1), tail, expectedTail);
    }
  }

  /** The vector round K adds, if any, against the one the search for its
      fault gives. */
  lemma RoundTailCharacters(gs: seq<Gate>, info: CircuitInfo, flags: seq<Fault>, K: nat, f: Fault)
    requires WellFormed(gs) && InfoInRange(info, |gs|) && K < |flags|
    requires forall j :: 0 <= j < |flags| ==> flags[j].index < |gs|
    requires flags[K].index == f.index && flags[K].ftype == f.ftype
    ensures var round := Round(gs, info, flags, K).0;
            var attempt := Attempt(gs, f.index, f.ftype);
            SameCharacters(if round.Some? then [round.value] else [],
                           if attempt.None? then [] else [(Chars(attempt.value, info.inputs), Chars(attempt.value, info.outputs))])
  {
    RoundCharacters(gs, info, flags, K);
  }

  /** Round K, seen through `Rounds`, changes the flag of fault `j` only
      past position `j` and only from undetected to detected. */
  lemma RoundsStep(gs: seq<Gate>, info: CircuitInfo, faults: seq<Fault>, K: nat, j: nat)
    requires WellFormed(gs) && InfoInRange(info, |gs|) && K < |faults| && j < |faults|
    requires forall i :: 0 <= i < |faults| ==> faults[i].index < |gs|
    ensures j <= K || Rounds(gs, info, faults, K).1[j].detected ==>
            Rounds(gs, info, faults, K + 1).1[j] == Rounds(gs, info, faults, K).1[j]
  {
    var before := Rounds(gs, info, faults, K).1;
    assert Rounds(gs, info, faults, K + 1).1 == Round(gs, info, before, K).1;
    RoundFrame(gs, info, before, K, j);
  }
  /** The flag of fault `j` no longer changes once the driver reaches fault
      `j`: the rounds from `j` on leave it as the earlier rounds set it. */
  lemma {:induction false} RoundsSettle(gs: seq<Gate>, info: CircuitInfo, faults: seq<Fault>, hi: nat, j: nat)
    requires WellFormed(gs) && InfoInRange(info, |gs|) && j <= hi <= |faults| && j < |faults|
    requires forall i :: 0 <= i < |faults| ==> faults[i].index < |gs|
    ensures Rounds(gs, info, faults, hi).1[j] == Rounds(gs, info, faults, j).1[j]
  {
    if hi > j {
      RoundsSettle(gs, info, faults, hi - 1, j);
      RoundsStep(gs, info, faults, hi - 1, j);
    }
  }


  /** A round changes only flags after its own fault, and only from
      undetected to detected. */
  lemma RoundFrame(gs: seq<Gate>, info: CircuitInfo, flags: seq<Fault>, K: nat, j: nat)
    requires WellFormed(gs) && InfoInRange(info, |gs|) && K < |flags| && j < |flags|
    requires forall i :: 0 <= i < |flags| ==> flags[i].index < |gs|
    ensures j <= K ==> Round(gs, info, flags, K).1[j] == flags[j]
    ensures flags[j].detected ==> Round(gs, info, flags, K).1[j] == flags[j]
  {
    match Attempt(gs, flags[K].index, flags[K].ftype)
    case None =>
    case Some(vs) =>
      MarkedAt(gs, info, Chars(vs, info.inputs), Chars(vs, info.outputs), flags, K + 1, |flags|, j);
  }

  /** Round K sets the flag of fault `j` exactly when it was set already, or
      `j` lies after K, the search for fault K succeeds, and the vector it
      yields detects fault `j`. */
  lemma RoundDetects(gs: seq<Gate>, info: CircuitInfo, flags: seq<Fault>, K: nat, j: nat)
    requires WellFormed(gs) && InfoInRange(info, |gs|) && K < |flags| && j < |flags|
    requires forall i :: 0 <= i < |flags| ==> flags[i].index < |gs|
    ensures var attempt := Attempt(gs, flags[K].index, flags[K].ftype);
            Round(gs, info, flags, K).1[j].detected <==>
            flags[j].detected ||
            (K < j && attempt.Some? &&
             Detects(gs, info, Chars(attempt.value, info.inputs), Chars(attempt.value, info.outputs), flags[j]))
  {
    match Attempt(gs, flags[K].index, flags[K].ftype)
    case None =>
    case Some(vs) =>
      MarkedAt(gs, info, Chars(vs, info.inputs), Chars(vs, info.outputs), flags, K + 1, |flags|, j);
  }

  /** Appending the vector of round K (if its search succeeded) extends the
      match from the rounds below K to the rounds below K + 1. */
  lemma VectorsMatchStep(gs: seq<Gate>, info: CircuitInfo, faults: seq<Fault>, K: nat,
                         vectors: seq<TestVector>, vector: Option<TestVector>)
    requires WellFormed(gs) && InfoInRange(info, |gs|) && K < |faults|
    requires forall j :: 0 <= j < |faults| ==> faults[j].index < |gs|
    requires VectorsMatch(vectors, Rounds(gs, info, faults, K).0)
    requires var round := Round(gs, info, Rounds(gs, info, faults, K).1, K);
             (vector.Some? <==> round.0.Some?) && (vector.Some? ==> VectorMatches(vector.value, round.0.value))
    ensures VectorsMatch(vectors + (if vector.Some? then [vector.value] else []), Rounds(gs, info, faults, K + 1).0)
  {
  }

  /** One round of `generate_test_patterns`: clear the circuit, excite and
      propagate fault K, and on success extract the test vector and
      fault-simulate it against the faults after K. */
  method TryFault(c: Circuit, info: CircuitInfo, faults: seq<Fault>, K: nat, policy: FillPolicy, coins: seq<bool>)
    returns (vector: Option<TestVector>, updated: seq<Fault>)
    requires c.Ready() && InfoInRange(info, |c.gates|) && InputsArePIs(c.gates, info)
    requires K < |faults| && |coins| >= |info.inputs|
    requires forall j :: 0 <= j < |faults| ==> faults[j].index < |c.gates|
    modifies c`value
    ensures c.Ready()
    ensures var round := Round(c.gates, info, faults, K);
            (vector.Some? <==> round.0.Some?) && (vector.Some? ==> VectorMatches(vector.value, round.0.value)) &&
            updated == round.1
  {
    ClearPropagationValuesCircuit(c, |c.gates|);
    assert c.value == seq(|c.gates|, _ => X);
    var v := FaultEffect(faults[K].ftype);
    var ok := Excite(c, faults[K].index, v);
    if !ok {
      return None, faults;
    }
    ok := Propagate(c, faults[K].index, v);
    if !ok {
      return None, faults;
    }
    var tv := ExtractTestVector(c, info);
    ghost var vs := c.value;
    assert tv.input == Chars(vs, info.inputs) && tv.output == Chars(vs, info.outputs);
    var out;
    updated, out := SimulateTestVector(c, info, faults, tv, K + 1, policy, coins);
    FillKeepsExtractedVector(tv.input, out.input, |info.inputs|, policy);
    ghost var after := Marked(c.gates, info, tv.input, tv.output, faults, K + 1, |faults|);
    assert updated == after by {
      forall j | 0 <= j < |faults|
        ensures updated[j] == after[j]
      {
        MarkedAt(c.gates, info, tv.input, tv.output, faults, K + 1, |faults|, j);
      }
    }
    vector := Some(out);
  }

  /** The driver's state after the rounds of the faults below `K`: the
      vectors and the flags are those `Rounds` gives. */
  ghost predicate DriverAt(gs: seq<Gate>, info: CircuitInfo, faults: seq<Fault>, K: nat,
                           vectors: seq<TestVector>, final: seq<Fault>)
  {
    WellFormed(gs) && InfoInRange(info, |gs|) && K <= |faults| &&
    (forall j :: 0 <= j < |faults| ==> faults[j].index < |gs|) &&
    final == Rounds(gs, info, faults, K).1 && VectorsMatch(vectors, Rounds(gs, info, faults, K).0)
  }

  /** One iteration of the driver's loop: the round of fault K, with the
      vector (if any) appended to those of the earlier faults. */
  method NextRound(c: Circuit, info: CircuitInfo, faults: seq<Fault>, policy: FillPolicy, coins: seq<bool>,
                   vectors: seq<TestVector>, final: seq<Fault>, K: nat)
    returns (vectors': seq<TestVector>, final': seq<Fault>)
    requires c.Ready() && InfoInRange(info, |c.gates|) && InputsArePIs(c.gates, info)
    requires K < |faults| && |coins| >= |info.inputs|
    requires forall j :: 0 <= j < |faults| ==> faults[j].index < |c.gates|
    requires DriverAt(c.gates, info, faults, K, vectors, final)
    modifies c`value
    ensures c.Ready()
    ensures DriverAt(c.gates, info, faults, K + 1, vectors', final')
  {
    var vector;
    vector, final' := TryFault(c, info, final, K, policy, coins);
    VectorsMatchStep(c.gates, info, faults, K, vectors, vector);
    vectors' := vectors + if vector.Some? then [vector.value] else [];
  }

  /** `generate_test_patterns`: every fault in the list, detected or not,
      gets its own round. The vectors produced and the final detected flags
      are exactly those of `Rounds`: one vector per fault whose search
      succeeds, in list order, each listing the later faults it newly
      detects. */
  method GenerateTestPatterns(c: Circuit, info: CircuitInfo, faults: seq<Fault>, policy: FillPolicy, coins: seq<seq<bool>>)
    returns (vectors: seq<TestVector>, final: seq<Fault>)
    requires c.Ready() && InfoInRange(info, |c.gates|) && InputsArePIs(c.gates, info)
    requires forall K :: 0 <= K < |faults| ==> faults[K].index < |c.gates|
    requires |coins| >= |faults| && forall K :: 0 <= K < |coins| ==> |coins[K]| >= |info.inputs|
    modifies c`value
    ensures c.Ready()
    ensures VectorsMatch(vectors, Rounds(c.gates, info, faults, |faults|).0)
    ensures final == Rounds(c.gates, info, faults, |faults|).1
  {
    ghost var gs := c.gates;
    vectors := [];
    final := faults;
    var K := 0;
    while K < |faults|
      invariant c.Ready() && c.gates == gs && K <= |faults|
      invariant DriverAt(gs, info, faults, K, vectors, final)
    {
      vectors, final := NextRound(c, info, faults, policy, coins[K], vectors, final, K);
      K := K + 1;
    }
  }
}
