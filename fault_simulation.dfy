/** The levelized fault simulator: a work list that always evaluates the
    pending gate of least level (`test_pattern`, `generate_output`), and
    fault dropping (`simulateTestVector`), which replays a generated vector
    against every fault still undetected and records the ones it detects.

    The work list is proved to compute, whatever order it picks among gates
    of equal level, the unique settled values of the gates reachable from
    the primary inputs (`Settled`), with the fault effect injected at the
    fault site. */
module FaultSimulation {
  import opened AtpgTypes
  import opened LogicTables
  import opened TestGenerator

  // ---------------------------------------------------------------------------
  // cmpGateLevels

  /** `cmpGateLevels`: 0 for equal levels, -1 when the left gate lies higher,
      1 when the right one does, so that the queue yields the least level. */
  function CmpGateLevels(left: Gate, right: Gate): (r: int)
    ensures r == 0 <==> left.level == right.level
    ensures r == -1 <==> left.level > right.level
    ensures r == 1 <==> left.level < right.level
  {
    if left.level == right.level then 0
    else if left.level > right.level then -1
    else 1
  }

  /** The comparison is antisymmetric and transitive, so it orders gates. */
  lemma CmpGateLevelsOrder(a: Gate, b: Gate, c: Gate)
    ensures CmpGateLevels(a, b) == -CmpGateLevels(b, a)
    ensures CmpGateLevels(a, b) >= 0 && CmpGateLevels(b, c) >= 0 ==> CmpGateLevels(a, c) >= 0
  {
  }

  // ---------------------------------------------------------------------------
  // Reference semantics

  /** Gates the work list reaches from the sources: a source, or a gate with
      a reached input. */
  ghost predicate Reached(gs: seq<Gate>, srcs: seq<nat>, g: nat)
    requires WellFormed(gs) && g < |gs|
    decreases gs[g].level
  {
    g in srcs || exists k :: 0 <= k < |gs[g].ins| && Reached(gs, srcs, gs[g].ins[k])
  }

  /** The simulator's fault check: a stuck-at-0 site is excited by I or D, a
      stuck-at-1 site by O or B. */
  predicate Excites(ft: FaultType, raw: LogicValue)
  {
    (ft == ST_0 && (raw == I || raw == D)) || (ft == ST_1 && (raw == O || raw == B))
  }

  /** Value an excited fault site carries: D for stuck-at-0, B for stuck-at-1. */
  function FaultEffect(ft: FaultType): LogicValue
  {
    if ft == ST_0 then D else B
  }

  predicate IsFaultSite(fault: Option<Fault>, g: nat)
  {
    fault.Some? && fault.value.index == g
  }

  /** Value of gate `g` once every reached gate has been evaluated in level
      order from the initial values `init`: unreached gates keep their value,
      a primary input keeps its assigned value, any other gate takes
      `computeGateOutput` of its inputs' settled values, and an excited fault
      site carries the fault effect. */
  ghost function Settled(gs: seq<Gate>, init: seq<LogicValue>, srcs: seq<nat>, fault: Option<Fault>, g: nat): LogicValue
    requires WellFormed(gs) && |init| == |gs| && g < |gs|
    decreases gs[g].level, 2
  {
    if !Reached(gs, srcs, g) then init[g]
    else
      var raw := Raw(gs, init, srcs, fault, g);
      if IsFaultSite(fault, g) && Excites(fault.value.ftype, raw) then FaultEffect(fault.value.ftype) else raw
  }

  /** The value gate `g` evaluates to before fault injection. */
  ghost function Raw(gs: seq<Gate>, init: seq<LogicValue>, srcs: seq<nat>, fault: Option<Fault>, g: nat): LogicValue
    requires WellFormed(gs) && |init| == |gs| && g < |gs|
    decreases gs[g].level, 1
  {
    if gs[g].gtype == PI then init[g]
    else ComputeGateOutput(gs, SettledInputs(gs, init, srcs, fault, g), g)
  }

  /** The settled values of the inputs of `g` (X elsewhere). */
  ghost function SettledInputs(gs: seq<Gate>, init: seq<LogicValue>, srcs: seq<nat>, fault: Option<Fault>, g: nat): (s: seq<LogicValue>)
    requires WellFormed(gs) && |init| == |gs| && g < |gs|
    ensures |s| == |gs|
    decreases gs[g].level, 0
  {
    InputsBelow(gs, g);
    seq(|gs|, j requires 0 <= j < |gs| => if j in gs[g].ins then Settled(gs, init, srcs, fault, j) else X)
  }

  /** A reached gate that is neither a primary input nor the fault site
      settles at `computeGateOutput` of its inputs' settled values. */
  lemma SettledGate(gs: seq<Gate>, init: seq<LogicValue>, srcs: seq<nat>, fault: Option<Fault>, g: nat)
    requires WellFormed(gs) && |init| == |gs| && g < |gs|
    requires Reached(gs, srcs, g) && gs[g].gtype != PI && !IsFaultSite(fault, g)
    ensures forall k :: 0 <= k < |gs[g].ins| ==>
              SettledInputs(gs, init, srcs, fault, g)[gs[g].ins[k]] == Settled(gs, init, srcs, fault, gs[g].ins[k])
    ensures Settled(gs, init, srcs, fault, g) == ComputeGateOutput(gs, SettledInputs(gs, init, srcs, fault, g), g)
  {
    var si := SettledInputs(gs, init, srcs, fault, g);
    forall k | 0 <= k < |gs[g].ins|
      ensures si[gs[g].ins[k]] == Settled(gs, init, srcs, fault, gs[g].ins[k])
    {
      assert gs[g].ins[k] in gs[g].ins;
    }
  }

  /** The simulation stops early: the fault site is reached but not excited. */
  ghost predicate Stops(gs: seq<Gate>, init: seq<LogicValue>, srcs: seq<nat>, fault: Option<Fault>)
    requires WellFormed(gs) && |init| == |gs|
  {
    fault.Some? && fault.value.index < |gs| && Reached(gs, srcs, fault.value.index) &&
    !Excites(fault.value.ftype, Raw(gs, init, srcs, fault, fault.value.index))
  }

  /** The fault site is reached and excited. */
  ghost predicate ExcitedAt(gs: seq<Gate>, init: seq<LogicValue>, srcs: seq<nat>, fault: Option<Fault>)
    requires WellFormed(gs) && |init| == |gs|
  {
    fault.Some? && fault.value.index < |gs| && Reached(gs, srcs, fault.value.index) &&
    Excites(fault.value.ftype, Raw(gs, init, srcs, fault, fault.value.index))
  }

  // ---------------------------------------------------------------------------
  // The work list

  /** Value a popped gate is given before the fault check: its own value for
      a primary input, `computeGateOutput` otherwise. */
  function Evaluated(gs: seq<Gate>, vs: seq<LogicValue>, g: nat): LogicValue
    requires Structured(gs) && |vs| == |gs| && g < |gs|
  {
    if gs[g].gtype == PI then vs[g] else ComputeGateOutput(gs, vs, g)
  }

  /** Number of pending entries at level `L`. */
  function CountAt(gs: seq<Gate>, pending: seq<nat>, L: int): nat
    requires forall i :: 0 <= i < |pending| ==> pending[i] < |gs|
  {
    if pending == [] then 0
    else (if gs[pending[0]].level == L then 1 else 0) + CountAt(gs, pending[1..], L)
  }

  lemma {:induction false} CountAtAppend(gs: seq<Gate>, a: seq<nat>, b: seq<nat>, L: int)
    requires forall i :: 0 <= i < |a| ==> a[i] < |gs|
    requires forall i :: 0 <= i < |b| ==> b[i] < |gs|
    ensures CountAt(gs, a + b, L) == CountAt(gs, a, L) + CountAt(gs, b, L)
  {
    if a != [] {
      assert (a + b)[0] == a[0];
      assert (a + b)[1..] == a[1..] + b;
      CountAtAppend(gs, a[1..], b, L);
      assert CountAt(gs, a + b, L) == (if gs[a[0]].level == L then 1 else 0) + CountAt(gs, (a + b)[1..], L);
    } else {
      assert a + b == b;
    }
  }

  /** Removing one pending entry lowers the count at its level by one. */
  lemma CountAtRemove(gs: seq<Gate>, s: seq<nat>, i: nat, L: int)
    requires forall k :: 0 <= k < |s| ==> s[k] < |gs|
    requires i < |s|
    ensures CountAt(gs, s[..i] + s[i + 1..], L) + (if gs[s[i]].level == L then 1 else 0) == CountAt(gs, s, L)
  {
    var front, back := s[..i], s[i + 1..];
    assert forall k :: 0 <= k < |front| ==> front[k] == s[k];
    assert forall k :: 0 <= k < |back| ==> back[k] == s[i + 1 + k];
    CountAtAppend(gs, front, [s[i]] + back, L);
    CountAtAppend(gs, [s[i]], back, L);
    CountAtAppend(gs, front, back, L);
    assert s == front + ([s[i]] + back);
    assert [s[i]][1..] == [];
  }

  // The parts of the work-list loop state.

  /** Every pending gate is reached and lies at level `lvl` or above. */
  ghost predicate PendingOk(gs: seq<Gate>, srcs: seq<nat>, pending: seq<nat>, lvl: int)
    requires WellFormed(gs)
  {
    forall i :: 0 <= i < |pending| ==>
      pending[i] < |gs| && Reached(gs, srcs, pending[i]) && gs[pending[i]].level >= lvl
  }

  /** Every evaluated gate is reached, lies at level `lvl` or below and holds
      its settled value. */
  ghost predicate DoneOk(gs: seq<Gate>, init: seq<LogicValue>, srcs: seq<nat>, fault: Option<Fault>,
                         vs: seq<LogicValue>, done: set<nat>, lvl: int)
    requires WellFormed(gs) && |init| == |gs| && |vs| == |gs|
  {
    forall g :: g in done ==>
      g < |gs| && Reached(gs, srcs, g) && gs[g].level <= lvl && vs[g] == Settled(gs, init, srcs, fault, g)
  }

  /** Every fan-out of an evaluated gate is evaluated or pending, except the
      fan-outs of `cur` from the `m`-th on. */
  ghost predicate ClosedOk(gs: seq<Gate>, pending: seq<nat>, done: set<nat>, cur: int, m: nat)
  {
    (forall g, k :: g in done && g < |gs| && g != cur && 0 <= k < |gs[g].outs| ==>
       gs[g].outs[k] in done || gs[g].outs[k] in pending) &&
    (0 <= cur < |gs| ==>
       m <= |gs[cur].outs| && forall k :: 0 <= k < m ==> gs[cur].outs[k] in done || gs[cur].outs[k] in pending)
  }

  /** Every source is evaluated or pending. */
  ghost predicate SourcesOk(srcs: seq<nat>, pending: seq<nat>, done: set<nat>)
  {
    forall k :: 0 <= k < |srcs| ==> srcs[k] in done || srcs[k] in pending
  }

  /** Gates neither evaluated nor pending, and primary inputs not evaluated,
      still hold their initial value. */
  ghost predicate UntouchedOk(gs: seq<Gate>, init: seq<LogicValue>, vs: seq<LogicValue>, pending: seq<nat>, done: set<nat>)
    requires |init| == |gs| && |vs| == |gs|
  {
    forall g :: 0 <= g < |gs| && g !in done && (g !in pending || gs[g].gtype == PI) ==> vs[g] == init[g]
  }

  /** The loop state of the work list, while the fan-outs of `cur` are being
      handled (the first `m` of them done), or between two pops when `cur`
      is -1. */
  ghost predicate WorkListState(gs: seq<Gate>, init: seq<LogicValue>, srcs: seq<nat>, fault: Option<Fault>,
                                vs: seq<LogicValue>, pending: seq<nat>, done: set<nat>, lvl: int, cur: int, m: nat)
    requires WellFormed(gs) && |init| == |gs|
  {
    |vs| == |gs| &&
    PendingOk(gs, srcs, pending, lvl) &&
    DoneOk(gs, init, srcs, fault, vs, done, lvl) &&
    ClosedOk(gs, pending, done, cur, m) &&
    SourcesOk(srcs, pending, done) &&
    UntouchedOk(gs, init, vs, pending, done) &&
    (cur >= 0 ==> cur < |gs| && cur in done && gs[cur].level == lvl)
  }

  /** Every reached gate below the least pending level has been evaluated. */
  lemma {:induction false} ReachedBelowDone(gs: seq<Gate>, init: seq<LogicValue>, srcs: seq<nat>, fault: Option<Fault>,
                                            vs: seq<LogicValue>, pending: seq<nat>, done: set<nat>, lvl: int,
                                            L: int, g: nat)
    requires WellFormed(gs) && |init| == |gs| && g < |gs|
    requires WorkListState(gs, init, srcs, fault, vs, pending, done, lvl, -1, 0)
    requires forall i :: 0 <= i < |pending| ==> gs[pending[i]].level >= L
    requires Reached(gs, srcs, g) && gs[g].level < L
    ensures g in done
    decreases gs[g].level
  {
    if g in srcs {
      var k :| 0 <= k < |srcs| && srcs[k] == g;
    } else {
      var k :| 0 <= k < |gs[g].ins| && Reached(gs, srcs, gs[g].ins[k]);
      var i := gs[g].ins[k];
      ReachedBelowDone(gs, init, srcs, fault, vs, pending, done, lvl, L, i);
      assert g in gs[i].outs;
      var k' :| 0 <= k' < |gs[i].outs| && gs[i].outs[k'] == g;
    }
  }

  /** Between pops, every input of the least pending gate already holds its
      settled value, so evaluating the gate yields its raw settled value. */
  lemma PopValue(gs: seq<Gate>, init: seq<LogicValue>, srcs: seq<nat>, fault: Option<Fault>,
                 vs: seq<LogicValue>, pending: seq<nat>, done: set<nat>, lvl: int, i: nat)
    requires WellFormed(gs) && |init| == |gs|
    requires WorkListState(gs, init, srcs, fault, vs, pending, done, lvl, -1, 0)
    requires i < |pending| && forall k :: 0 <= k < |pending| ==> gs[pending[i]].level <= gs[pending[k]].level
    ensures var d := pending[i];
            var t := Evaluated(gs, vs, d);
            (!IsFaultSite(fault, d) ==> t == Settled(gs, init, srcs, fault, d)) &&
            (IsFaultSite(fault, d) ==> (Excites(fault.value.ftype, t) <==> Excites(fault.value.ftype, Raw(gs, init, srcs, fault, d))))
  {
    var d := pending[i];
    assert Reached(gs, srcs, d);
    if gs[d].gtype != PI {
      forall k | 0 <= k < |gs[d].ins|
        ensures vs[gs[d].ins[k]] == SettledInputs(gs, init, srcs, fault, d)[gs[d].ins[k]]
      {
        var j := gs[d].ins[k];
        if Reached(gs, srcs, j) {
          ReachedBelowDone(gs, init, srcs, fault, vs, pending, done, lvl, gs[d].level, j);
        } else {
          assert j !in pending;
          assert j !in done;
        }
      }
      ComputeGateOutputReadsInputs(gs, vs, SettledInputs(gs, init, srcs, fault, d), d);
    } else if d !in done {
      assert vs[d] == init[d];
    } else {
      assert vs[d] == Settled(gs, init, srcs, fault, d);
    }
  }

  /** Which entries survive the removal of position `i`. */
  lemma RemovedEntries(s: seq<nat>, i: nat)
    requires i < |s|
    ensures forall e :: e in s[..i] + s[i + 1..] ==> e in s
    ensures forall e :: e in s && e != s[i] ==> e in s[..i] + s[i + 1..]
  {
    assert s == s[..i] + [s[i]] + s[i + 1..];
  }

  /** The state after popping `pending[i]` and writing `t` into it. */
  lemma PopStep(gs: seq<Gate>, init: seq<LogicValue>, srcs: seq<nat>, fault: Option<Fault>,
                vs: seq<LogicValue>, pending: seq<nat>, done: set<nat>, lvl: int, i: nat, t: LogicValue)
    requires WellFormed(gs) && |init| == |gs|
    requires WorkListState(gs, init, srcs, fault, vs, pending, done, lvl, -1, 0)
    requires i < |pending| && forall k :: 0 <= k < |pending| ==> gs[pending[i]].level <= gs[pending[k]].level
    requires t == Settled(gs, init, srcs, fault, pending[i])
    ensures var d := pending[i];
            WorkListState(gs, init, srcs, fault, vs[d := t], pending[..i] + pending[i + 1..], done + {d}, gs[d].level, d, 0)
  {
    var d := pending[i];
    var rest := pending[..i] + pending[i + 1..];
    var done' := done + {d};
    var vs' := vs[d := t];
    var L := gs[d].level;
    RemovedEntries(pending, i);
    assert PendingOk(gs, srcs, rest, L) by {
      forall k | 0 <= k < |rest|
        ensures rest[k] < |gs| && Reached(gs, srcs, rest[k]) && gs[rest[k]].level >= L
      {
        assert rest[k] in pending;
        var j :| 0 <= j < |pending| && pending[j] == rest[k];
      }
    }
    assert DoneOk(gs, init, srcs, fault, vs', done', L) by {
      assert Reached(gs, srcs, d) && L >= lvl;
    }
    assert ClosedOk(gs, rest, done', d, 0) by {
      forall g, k | g in done' && g < |gs| && g != d && 0 <= k < |gs[g].outs|
        ensures gs[g].outs[k] in done' || gs[g].outs[k] in rest
      {
        assert gs[g].outs[k] in done || gs[g].outs[k] in pending;
      }
    }
    assert SourcesOk(srcs, rest, done') by {
      forall k | 0 <= k < |srcs|
        ensures srcs[k] in done' || srcs[k] in rest
      {
        assert srcs[k] in done || srcs[k] in pending;
      }
    }
    assert UntouchedOk(gs, init, vs', rest, done') by {
      forall g | 0 <= g < |gs| && g !in done' && (g !in rest || gs[g].gtype == PI)
        ensures vs'[g] == init[g]
      {
        assert g !in done && (g !in pending || gs[g].gtype == PI);
      }
    }
  }

  /** The state after handling fan-out `m` of the current gate: a fan-out
      still at X is queued and given the current value; any other is
      already evaluated or pending. */
  lemma EnqueueStep(gs: seq<Gate>, init: seq<LogicValue>, srcs: seq<nat>, fault: Option<Fault>,
                    vs: seq<LogicValue>, pending: seq<nat>, done: set<nat>, lvl: int, cur: nat, m: nat, t: LogicValue)
    requires WellFormed(gs) && |init| == |gs|
    requires forall g :: 0 <= g < |gs| && gs[g].gtype != PI ==> init[g] == X
    requires WorkListState(gs, init, srcs, fault, vs, pending, done, lvl, cur, m)
    requires cur < |gs| && m < |gs[cur].outs|
    ensures var e := gs[cur].outs[m];
            if vs[e] == X then WorkListState(gs, init, srcs, fault, vs[e := t], pending + [e], done, lvl, cur, m + 1)
            else WorkListState(gs, init, srcs, fault, vs, pending, done, lvl, cur, m + 1)
  {
    var e := gs[cur].outs[m];
    assert cur in gs[e].ins;
    var k :| 0 <= k < |gs[e].ins| && gs[e].ins[k] == cur;
    assert Reached(gs, srcs, e);
    assert gs[e].gtype != PI;
    assert gs[e].level > lvl;
    if vs[e] == X {
      var pending' := pending + [e];
      var vs' := vs[e := t];
      assert forall x :: x in pending ==> x in pending';
      assert e !in done;
      assert PendingOk(gs, srcs, pending', lvl) by {
        forall j | 0 <= j < |pending'|
          ensures pending'[j] < |gs| && Reached(gs, srcs, pending'[j]) && gs[pending'[j]].level >= lvl
        {
          if j < |pending| { assert pending'[j] == pending[j]; }
        }
      }
      assert DoneOk(gs, init, srcs, fault, vs', done, lvl);
      assert ClosedOk(gs, pending', done, cur, m + 1);
      assert UntouchedOk(gs, init, vs', pending', done);
    } else {
      assert e in done || e in pending;
    }
  }

  /** Once every fan-out of the current gate is handled, the state is the
      one between two pops. */
  lemma FinishFanOuts(gs: seq<Gate>, init: seq<LogicValue>, srcs: seq<nat>, fault: Option<Fault>,
                      vs: seq<LogicValue>, pending: seq<nat>, done: set<nat>, lvl: int, cur: nat)
    requires WellFormed(gs) && |init| == |gs| && cur < |gs|
    requires WorkListState(gs, init, srcs, fault, vs, pending, done, lvl, cur, |gs[cur].outs|)
    ensures WorkListState(gs, init, srcs, fault, vs, pending, done, lvl, -1, 0)
  {
  }

  /** When nothing is pending, the evaluated gates are exactly the reached
      ones and every gate holds its settled value. */
  lemma Completion(gs: seq<Gate>, init: seq<LogicValue>, srcs: seq<nat>, fault: Option<Fault>,
                   vs: seq<LogicValue>, done: set<nat>, lvl: int)
    requires WellFormed(gs) && |init| == |gs|
    requires WorkListState(gs, init, srcs, fault, vs, [], done, lvl, -1, 0)
    ensures forall g :: 0 <= g < |gs| ==> (Reached(gs, srcs, g) <==> g in done)
    ensures forall g :: 0 <= g < |gs| ==> vs[g] == Settled(gs, init, srcs, fault, g)
  {
    forall g | 0 <= g < |gs|
      ensures (Reached(gs, srcs, g) <==> g in done) && vs[g] == Settled(gs, init, srcs, fault, g)
    {
      if Reached(gs, srcs, g) {
        ReachedBelowDone(gs, init, srcs, fault, vs, [], done, lvl, MaxLevel(gs) + 1, g);
      } else {
        assert g !in done;
      }
    }
  }

  /** The inner loop of the work list: every fan-out of the gate `d` just
      evaluated that still holds X is queued and given `d`'s value. */
  method EnqueueFanOuts(c: Circuit, d: nat, t: LogicValue, pending: seq<nat>,
                        ghost init: seq<LogicValue>, ghost srcs: seq<nat>, ghost fault: Option<Fault>, ghost done: set<nat>)
    returns (queued: seq<nat>)
    requires c.Ready() && d < |c.gates| && |init| == |c.gates|
    requires forall g :: 0 <= g < |c.gates| && c.gates[g].gtype != PI ==> init[g] == X
    requires WorkListState(c.gates, init, srcs, fault, c.value, pending, done, c.gates[d].level, d, 0)
    modifies c`value
    ensures c.Ready()
    ensures WorkListState(c.gates, init, srcs, fault, c.value, queued, done, c.gates[d].level, -1, 0)
    ensures CountAt(c.gates, queued, c.gates[d].level) == CountAt(c.gates, pending, c.gates[d].level)
  {
    var outs := c.gates[d].outs;
    ghost var lvl := c.gates[d].level;
    queued := pending;
    var m := 0;
    while m < |outs|
      invariant c.Ready() && m <= |outs|
      invariant WorkListState(c.gates, init, srcs, fault, c.value, queued, done, lvl, d, m)
      invariant CountAt(c.gates, queued, lvl) == CountAt(c.gates, pending, lvl)
    {
      var e := outs[m];
      EnqueueStep(c.gates, init, srcs, fault, c.value, queued, done, lvl, d, m, t);
      if c.value[e] == X {
        c.value := c.value[e := t];
        CountAtAppend(c.gates, queued, [e], lvl);
        queued := queued + [e];
      }
      m := m + 1;
    }
    FinishFanOuts(c.gates, init, srcs, fault, c.value, queued, done, lvl, d);
  }

  /** One round of the work list: pop a pending gate of least level,
      evaluate it, apply the fault check when it is the fault site (stopping
      when the site is not excited), store the value and queue its fan-outs.
      `hit` reports that the popped gate was the (excited) fault site. */
  method EvaluateNext(c: Circuit, pending: seq<nat>, fault: Option<Fault>,
                      ghost init: seq<LogicValue>, ghost srcs: seq<nat>, ghost done: set<nat>, ghost lvl: int)
    returns (next: seq<nat>, stopped: bool, hit: bool, ghost done': set<nat>, ghost lvl': int)
    requires c.Ready() && |init| == |c.gates| && pending != [] && lvl >= 0
    requires forall g :: 0 <= g < |c.gates| && c.gates[g].gtype != PI ==> init[g] == X
    requires WorkListState(c.gates, init, srcs, fault, c.value, pending, done, lvl, -1, 0)
    modifies c`value
    ensures c.Ready()
    ensures stopped ==> Stops(c.gates, init, srcs, fault)
    ensures !stopped ==> WorkListState(c.gates, init, srcs, fault, c.value, next, done', lvl', -1, 0)
    ensures !stopped ==> lvl <= lvl' <= MaxLevel(c.gates) && (lvl' > lvl || CountAt(c.gates, next, lvl') < CountAt(c.gates, pending, lvl))
    ensures !stopped && hit ==> fault.Some? && fault.value.index in done' &&
                                Excites(fault.value.ftype, Raw(c.gates, init, srcs, fault, fault.value.index))
    ensures !stopped && !hit ==> forall g :: IsFaultSite(fault, g) ==> (g in done' <==> g in done)
  {
    var i := LeastLevelIndex(c.gates, pending);
    var d := pending[i];
    assert Reached(c.gates, srcs, d) && c.gates[d].level >= lvl;
    var tValue := Evaluated(c.gates, c.value, d);
    PopValue(c.gates, init, srcs, fault, c.value, pending, done, lvl, i);
    hit := false;
    if IsFaultSite(fault, d) {
      if Excites(fault.value.ftype, tValue) {
        hit := true;
        tValue := FaultEffect(fault.value.ftype);
      } else {
        return [], true, false, done, lvl;
      }
    }
    PopStep(c.gates, init, srcs, fault, c.value, pending, done, lvl, i, tValue);
    CountAtRemove(c.gates, pending, i, c.gates[d].level);
    var remaining := pending[..i] + pending[i + 1..];
    assert CountAt(c.gates, remaining, c.gates[d].level) + 1 == CountAt(c.gates, pending, c.gates[d].level);
    c.value := c.value[d := tValue];
    done' := done + {d};
    lvl' := c.gates[d].level;
    stopped := false;
    next := EnqueueFanOuts(c, d, tValue, remaining, init, srcs, fault, done');
  }

  /** The work-list loop shared by `test_pattern` (with a fault) and
      `generate_output` (without). Starting from the sources with every other
      gate at X, it either stops at an unexcited fault site, or evaluates
      every reached gate to its settled value; `excited` reports whether the
      fault site was reached and excited. */
  method RunWorkList(c: Circuit, srcs: seq<nat>, fault: Option<Fault>) returns (excited: bool, completed: bool)
    requires c.Ready() && forall k :: 0 <= k < |srcs| ==> srcs[k] < |c.gates|
    requires forall g :: 0 <= g < |c.gates| && c.gates[g].gtype != PI ==> c.value[g] == X
    modifies c`value
    ensures c.Ready()
    ensures completed <==> !Stops(c.gates, old(c.value), srcs, fault)
    ensures excited <==> ExcitedAt(c.gates, old(c.value), srcs, fault)
    ensures completed ==> forall g :: 0 <= g < |c.gates| ==> c.value[g] == Settled(c.gates, old(c.value), srcs, fault, g)
  {
    ghost var gs := c.gates;
    ghost var init := c.value;
    var pending := srcs;
    ghost var done: set<nat> := {};
    ghost var lvl := 0;
    excited := false;
    while pending != []
      invariant c.Ready() && c.gates == gs && 0 <= lvl <= MaxLevel(gs)
      invariant WorkListState(gs, init, srcs, fault, c.value, pending, done, lvl, -1, 0)
      invariant excited <==> fault.Some? && fault.value.index in done
      invariant fault.Some? && fault.value.index in done ==> Excites(fault.value.ftype, Raw(gs, init, srcs, fault, fault.value.index))
      decreases MaxLevel(gs) + 1 - lvl, CountAt(gs, pending, lvl)
    {
      var stopped, hit;
      pending, stopped, hit, done, lvl := EvaluateNext(c, pending, fault, init, srcs, done, lvl);
      if stopped {
        StopsNotExcited(gs, init, srcs, fault);
        return false, false;
      }
      excited := excited || hit;
    }
    Completion(gs, init, srcs, fault, c.value, done, lvl);
    return excited, true;
  }

  lemma StopsNotExcited(gs: seq<Gate>, init: seq<LogicValue>, srcs: seq<nat>, fault: Option<Fault>)
    requires WellFormed(gs) && |init| == |gs|
    requires Stops(gs, init, srcs, fault)
    ensures !ExcitedAt(gs, init, srcs, fault)
  {
  }

  /** Position of a pending gate of least level (the priority queue's
      extract-min; which of several such gates is not fixed). */
  method LeastLevelIndex(gs: seq<Gate>, pending: seq<nat>) returns (i: nat)
    requires pending != [] && forall k :: 0 <= k < |pending| ==> pending[k] < |gs|
    ensures i < |pending|
    ensures forall k :: 0 <= k < |pending| ==> gs[pending[i]].level <= gs[pending[k]].level
  {
    i := 0;
    var k := 1;
    while k < |pending|
      invariant 1 <= k <= |pending| && i < k
      invariant forall k' :: 0 <= k' < k ==> gs[pending[i]].level <= gs[pending[k']].level
    {
      if gs[pending[k]].level < gs[pending[i]].level {
        i := k;
      }
      k := k + 1;
    }
  }

  // ---------------------------------------------------------------------------
  // Applying a pattern to the primary inputs

  /** The primary-input list names primary-input gates. */
  predicate InputsArePIs(gs: seq<Gate>, info: CircuitInfo)
  {
    forall k :: 0 <= k < |info.inputs| ==> info.inputs[k] < |gs| && gs[info.inputs[k]].gtype == PI
  }

  /** The characters `test_pattern` reads: 'I' or '1', 'O' or '0', 'D', 'B'
      and a lower-case 'x'; any other character leaves the input as it is. */
  function PatternValue(ch: char): Option<LogicValue>
  {
    match ch
    case 'I' => Some(I)
    case '1' => Some(I)
    case 'O' => Some(O)
    case '0' => Some(O)
    case 'D' => Some(D)
    case 'B' => Some(B)
    case 'x' => Some(X)
    case _ => None
  }

  /** The characters `generate_output` reads: '1', '0', 'd' or 'D', 'b' or
      'B', 'x' or 'X'; any other character (the letters 'I' and 'O' among
      them) leaves the input as it is. */
  function OutputPatternValue(ch: char): Option<LogicValue>
  {
    match ch
    case '1' => Some(I)
    case '0' => Some(O)
    case 'd' => Some(D)
    case 'D' => Some(D)
    case 'b' => Some(B)
    case 'B' => Some(B)
    case 'x' => Some(X)
    case 'X' => Some(X)
    case _ => None
  }

  /** How the decoders read back the names `logicName` writes and the
      characters a test vector holds: `test_pattern` reads every name but
      'X', `generate_output` none of 'I' and 'O', and a vector character
      decodes to the good-circuit value of the value it was made from. */
  lemma DecodeNames(v: LogicValue)
    ensures PatternValue(LogicName(v)) == if v == X then None else Some(v)
    ensures OutputPatternValue(LogicName(v)) == if v == O || v == I then None else Some(v)
    ensures PatternValue(VectorChar(v)) == if v == X then None else if v == I || v == D then Some(I) else Some(O)
  {
  }

  /** The values after writing the decoded pattern characters, in order,
      into the gates `ids`. */
  function Applied(vs: seq<LogicValue>, ids: seq<nat>, pattern: seq<char>, decode: char -> Option<LogicValue>): (r: seq<LogicValue>)
    requires |pattern| >= |ids| && forall k :: 0 <= k < |ids| ==> ids[k] < |vs|
    ensures |r| == |vs|
    ensures forall g :: 0 <= g < |vs| && g !in ids ==> r[g] == vs[g]
    decreases |ids|
  {
    if ids == [] then vs
    else
      var n := |ids| - 1;
      var prev := Applied(vs, ids[..n], pattern, decode);
      match decode(pattern[n])
      case Some(v) => prev[ids[n] := v]
      case None => prev
  }

  /** With distinct gates, each gets its own decoded character, or keeps its
      value when the character is not one the decoder reads. */
  lemma {:induction false} AppliedDistinct(vs: seq<LogicValue>, ids: seq<nat>, pattern: seq<char>, decode: char -> Option<LogicValue>)
    requires |pattern| >= |ids| && forall k :: 0 <= k < |ids| ==> ids[k] < |vs|
    requires forall k, k' :: 0 <= k < k' < |ids| ==> ids[k] != ids[k']
    ensures forall k :: 0 <= k < |ids| ==>
              Applied(vs, ids, pattern, decode)[ids[k]] == match decode(pattern[k]) case Some(v) => v case None => vs[ids[k]]
    decreases |ids|
  {
    if ids != [] {
      var n := |ids| - 1;
      AppliedDistinct(vs, ids[..n], pattern, decode);
      forall k | 0 <= k < |ids|
        ensures Applied(vs, ids, pattern, decode)[ids[k]] == match decode(pattern[k]) case Some(v) => v case None => vs[ids[k]]
      {
        if k < n {
          assert ids[..n][k] == ids[k];
        } else {
          assert ids[n] !in ids[..n];
        }
      }
    }
  }

  /** The first loop of `test_pattern` and `generate_output`: decode the
      pattern character of every primary input into its value. */
  method ApplyPattern(c: Circuit, ids: seq<nat>, pattern: seq<char>, decode: char -> Option<LogicValue>)
    requires c.Ready() && |pattern| >= |ids| && forall k :: 0 <= k < |ids| ==> ids[k] < |c.value|
    modifies c`value
    ensures c.Ready()
    ensures c.value == Applied(old(c.value), ids, pattern, decode)
  {
    var k := 0;
    while k < |ids|
      invariant c.Ready() && k <= |ids|
      invariant c.value == Applied(old(c.value), ids[..k], pattern, decode)
    {
      assert ids[..k + 1][..k] == ids[..k];
      match decode(pattern[k]) {
        case Some(v) => c.value := c.value[ids[k] := v];
        case None =>
      }
      k := k + 1;
    }
    assert ids[..k] == ids;
  }

  /** The characters read back from the gates `ids` once the simulation has
      settled. */
  ghost function ReadBack(gs: seq<Gate>, init: seq<LogicValue>, srcs: seq<nat>, fault: Option<Fault>, ids: seq<nat>): (r: seq<char>)
    requires WellFormed(gs) && |init| == |gs| && forall k :: 0 <= k < |ids| ==> ids[k] < |gs|
    ensures |r| == |ids|
  {
    seq(|ids|, k requires 0 <= k < |ids| => LogicName(Settled(gs, init, srcs, fault, ids[k])))
  }

  /** The result loops: the names of the current values of the gates `ids`. */
  method ReadNames(c: Circuit, ids: seq<nat>) returns (names: seq<char>)
    requires forall k :: 0 <= k < |ids| ==> ids[k] < |c.value|
    ensures |names| == |ids|
    ensures forall k :: 0 <= k < |ids| ==> names[k] == LogicName(c.value[ids[k]])
  {
    names := [];
    var k := 0;
    while k < |ids|
      invariant k <= |ids| && |names| == k
      invariant forall k' :: 0 <= k' < k ==> names[k'] == LogicName(c.value[ids[k']])
    {
      names := names + [LogicName(c.value[ids[k]])];
      k := k + 1;
    }
  }

  /** The values the simulation starts from once the circuit is cleared and
      the pattern applied by `test_pattern`. */
  ghost function PatternStart(gs: seq<Gate>, info: CircuitInfo, pattern: seq<char>): (r: seq<LogicValue>)
    requires InfoInRange(info, |gs|) && |pattern| >= |info.inputs|
    ensures |r| == |gs|
  {
    Applied(seq(|gs|, _ => X), info.inputs, pattern, PatternValue)
  }

  // ---------------------------------------------------------------------------
  // test_pattern and generate_output

  /** `test_pattern`: simulate the pattern with `fault` injected. When the
      fault site is reached but not excited, the simulation stops and
      reports not excited (the source then returns an unset result, modelled
      as empty strings); otherwise the result holds the names of the settled
      input and output values. */
  method TestPattern(c: Circuit, info: CircuitInfo, pattern: seq<char>, fault: Fault) returns (results: SimResult, excited: bool)
    requires c.Ready() && InfoInRange(info, |c.gates|) && InputsArePIs(c.gates, info) && |pattern| >= |info.inputs|
    requires forall g :: 0 <= g < |c.gates| && c.gates[g].gtype != PI ==> c.value[g] == X
    modifies c`value
    ensures c.Ready()
    ensures var init := Applied(old(c.value), info.inputs, pattern, PatternValue);
            (excited <==> ExcitedAt(c.gates, init, info.inputs, Some(fault))) &&
            (Stops(c.gates, init, info.inputs, Some(fault)) ==> results == SimResult([], [])) &&
            (!Stops(c.gates, init, info.inputs, Some(fault)) ==>
               results == SimResult(ReadBack(c.gates, init, info.inputs, Some(fault), info.inputs),
                                    ReadBack(c.gates, init, info.inputs, Some(fault), info.outputs)))
  {
    ApplyPattern(c, info.inputs, pattern, PatternValue);
    ghost var init := c.value;
    var completed;
    excited, completed := RunWorkList(c, info.inputs, Some(fault));
    if !completed {
      return SimResult([], []), excited;
    }
    var output := ReadNames(c, info.outputs);
    var input := ReadNames(c, info.inputs);
    results := SimResult(input, output);
  }

  /** `generate_output`: simulate the pattern on the fault-free circuit and
      report the names of the settled input and output values. */
  method GenerateOutput(c: Circuit, info: CircuitInfo, pattern: seq<char>) returns (results: SimResult)
    requires c.Ready() && InfoInRange(info, |c.gates|) && InputsArePIs(c.gates, info) && |pattern| >= |info.inputs|
    requires forall g :: 0 <= g < |c.gates| && c.gates[g].gtype != PI ==> c.value[g] == X
    modifies c`value
    ensures c.Ready()
    ensures var init := Applied(old(c.value), info.inputs, pattern, OutputPatternValue);
            results == SimResult(ReadBack(c.gates, init, info.inputs, None, info.inputs),
                                 ReadBack(c.gates, init, info.inputs, None, info.outputs))
  {
    ApplyPattern(c, info.inputs, pattern, OutputPatternValue);
    var excited, completed := RunWorkList(c, info.inputs, None);
    var output := ReadNames(c, info.outputs);
    var input := ReadNames(c, info.inputs);
    results := SimResult(input, output);
  }

  /** An excited fault site settles at the fault effect. */
  lemma ExcitedSiteCarriesEffect(gs: seq<Gate>, init: seq<LogicValue>, srcs: seq<nat>, fault: Fault)
    requires WellFormed(gs) && |init| == |gs| && fault.index < |gs|
    ensures ExcitedAt(gs, init, srcs, Some(fault)) ==> Settled(gs, init, srcs, Some(fault), fault.index) == FaultEffect(fault.ftype)
    ensures !Reached(gs, srcs, fault.index) ==> !ExcitedAt(gs, init, srcs, Some(fault)) && !Stops(gs, init, srcs, Some(fault))
  {
  }

  // ---------------------------------------------------------------------------
  // simulateTestVector

  /** The don't-care filling option: all ones, all zeros, or a random bit. */
  datatype FillPolicy = Ones | Zeros | Random

  /** The character a don't-care is filled with; `coin` is the random bit
      `rand() % 2` would give. */
  function FillChar(policy: FillPolicy, coin: bool): (ch: char)
    ensures ch == '0' || ch == '1'
  {
    match policy
    case Ones => '1'
    case Zeros => '0'
    case Random => if coin then '1' else '0'
  }

  /** `filled` is `input` with every lower-case 'x' among its first `n`
      characters replaced by a 0 or 1 the policy allows. */
  predicate FilledFrom(input: seq<char>, filled: seq<char>, n: nat, policy: FillPolicy)
  {
    |filled| == |input| &&
    forall k :: 0 <= k < |input| ==>
      if k < n && input[k] == 'x' then
        (filled[k] == '0' || filled[k] == '1') &&
        (policy == Ones ==> filled[k] == '1') && (policy == Zeros ==> filled[k] == '0')
      else filled[k] == input[k]
  }

  /** The first step of `simulateTestVector`: fill the don't-cares of the
      first `n` input characters. */
  method FillDontCares(input: seq<char>, n: nat, policy: FillPolicy, coins: seq<bool>) returns (filled: seq<char>)
    requires n <= |input| && |coins| >= n
    ensures FilledFrom(input, filled, n, policy)
    ensures forall k :: 0 <= k < n && input[k] == 'x' ==> filled[k] == FillChar(policy, coins[k])
  {
    filled := input;
    var k := 0;
    while k < n
      invariant k <= n && |filled| == |input|
      invariant forall j :: k <= j < |input| ==> filled[j] == input[j]
      invariant forall j :: 0 <= j < k ==>
                  filled[j] == if input[j] == 'x' then FillChar(policy, coins[j]) else input[j]
    {
      if filled[k] == 'x' {
        filled := filled[k := FillChar(policy, coins[k])];
      }
      k := k + 1;
    }
  }

  /** Filling never touches a vector without a lower-case 'x', and the
      vectors the test generator extracts hold only 'X', 'I' and 'O'. */
  lemma FillKeepsExtractedVector(input: seq<char>, filled: seq<char>, n: nat, policy: FillPolicy)
    requires forall k :: 0 <= k < |input| ==> input[k] in {'X', 'I', 'O'}
    requires FilledFrom(input, filled, n, policy)
    ensures filled == input
  {
    forall k | 0 <= k < |input|
      ensures filled[k] == input[k]
    {
      assert input[k] != 'x';
    }
  }

  /** One output position shows the fault: the faulty output differs from
      the expected one, or carries a fault effect. */
  predicate OutputDiffers(r: char, e: char)
  {
    ((r == '1' || r == 'I') && (e == '0' || e == 'B')) ||
    ((r == '0' || r == 'O') && (e == '1' || e == 'D')) ||
    r == 'D' || r == 'B'
  }

  /** The comparison loop of `simulateTestVector`, which stops at the first
      position that shows the fault. */
  method CompareOutputs(results: seq<char>, expected: seq<char>) returns (valid: bool)
    requires |expected| >= |results|
    ensures valid <==> exists L :: 0 <= L < |results| && OutputDiffers(results[L], expected[L])
  {
    valid := false;
    var L := 0;
    while L < |results| && !valid
      invariant L <= |results|
      invariant !valid ==> forall L' :: 0 <= L' < L ==> !OutputDiffers(results[L'], expected[L'])
      invariant valid ==> exists L' :: 0 <= L' < L && OutputDiffers(results[L'], expected[L'])
    {
      if OutputDiffers(results[L], expected[L]) {
        valid := true;
      }
      L := L + 1;
    }
  }

  /** Against the outputs of an extracted vector, which hold only 'X', 'I'
      and 'O', a position shows the fault exactly when the faulty output is
      D or B: an 'I' or 'O' output never counts as a difference. */
  lemma DiffersFromExtracted(results: seq<char>, expected: seq<char>)
    requires |expected| >= |results|
    requires forall L :: 0 <= L < |expected| ==> expected[L] in {'X', 'I', 'O'}
    ensures (exists L :: 0 <= L < |results| && OutputDiffers(results[L], expected[L])) <==>
            (exists L :: 0 <= L < |results| && (results[L] == 'D' || results[L] == 'B'))
  {
    if exists L :: 0 <= L < |results| && OutputDiffers(results[L], expected[L]) {
      var L :| 0 <= L < |results| && OutputDiffers(results[L], expected[L]);
      assert expected[L] in {'X', 'I', 'O'};
    }
    if exists L :: 0 <= L < |results| && (results[L] == 'D' || results[L] == 'B') {
      var L :| 0 <= L < |results| && (results[L] == 'D' || results[L] == 'B');
      assert OutputDiffers(results[L], expected[L]);
    }
  }

  /** `fault` is detected by `pattern` against the expected outputs: with
      the circuit cleared and the pattern applied, the fault is excited and
      some primary output shows it. */
  ghost predicate Detects(gs: seq<Gate>, info: CircuitInfo, pattern: seq<char>, expected: seq<char>, fault: Fault)
    requires WellFormed(gs) && InfoInRange(info, |gs|) && |pattern| >= |info.inputs| && |expected| >= |info.outputs|
  {
    var init := PatternStart(gs, info, pattern);
    ExcitedAt(gs, init, info.inputs, Some(fault)) &&
    exists L :: 0 <= L < |info.outputs| &&
      OutputDiffers(ReadBack(gs, init, info.inputs, Some(fault), info.outputs)[L], expected[L])
  }

  /** Against an extracted vector, a fault is detected exactly when it is
      excited and the faulty simulation settles some primary output at D or B. */
  lemma DetectsOnExtracted(gs: seq<Gate>, info: CircuitInfo, pattern: seq<char>, expected: seq<char>, fault: Fault)
    requires WellFormed(gs) && InfoInRange(info, |gs|) && |pattern| >= |info.inputs| && |expected| >= |info.outputs|
    requires forall L :: 0 <= L < |expected| ==> expected[L] in {'X', 'I', 'O'}
    ensures var init := PatternStart(gs, info, pattern);
            Detects(gs, info, pattern, expected, fault) <==>
            ExcitedAt(gs, init, info.inputs, Some(fault)) &&
            exists L :: 0 <= L < |info.outputs| &&
              Settled(gs, init, info.inputs, Some(fault), info.outputs[L]) in {D, B}
  {
    var init := PatternStart(gs, info, pattern);
    var names := ReadBack(gs, init, info.inputs, Some(fault), info.outputs);
    DiffersFromExtracted(names, expected);
    assert forall L :: 0 <= L < |info.outputs| ==>
      ((names[L] == 'D' || names[L] == 'B') <==> Settled(gs, init, info.inputs, Some(fault), info.outputs[L]) in {D, B});
  }

  /** The faults among positions `lo` to `hi` - 1 that `after` marks detected
      and `before` does not, copied as fresh (undetected) entries. */
  function NewlyDetected(before: seq<Fault>, after: seq<Fault>, lo: nat, hi: nat): (r: seq<Fault>)
    requires |after| == |before| && hi <= |before|
    ensures |r| <= hi
    ensures forall j :: 0 <= j < |r| ==> !r[j].detected
    decreases hi
  {
    if hi <= lo then []
    else
      NewlyDetected(before, after, lo, hi - 1) +
      (if !before[hi - 1].detected && after[hi - 1].detected
       then [Fault(before[hi - 1].index, before[hi - 1].ftype, false)] else [])
  }

  /** `NewlyDetected` reads only positions below `hi`. */
  lemma {:induction false} NewlyDetectedFrame(before: seq<Fault>, after: seq<Fault>, after': seq<Fault>, lo: nat, hi: nat)
    requires |after| == |before| && |after'| == |before| && hi <= |before|
    requires forall j :: 0 <= j < hi ==> after'[j] == after[j]
    ensures NewlyDetected(before, after', lo, hi) == NewlyDetected(before, after, lo, hi)
    decreases hi
  {
    if hi > lo {
      NewlyDetectedFrame(before, after, after', lo, hi - 1);
    }
  }

  /** Which of `faults` the pattern detects, built one fault at a time. */
  ghost function DetectionFlags(gs: seq<Gate>, info: CircuitInfo, pattern: seq<char>, expected: seq<char>, faults: seq<Fault>): (r: seq<bool>)
    requires WellFormed(gs) && InfoInRange(info, |gs|) && |pattern| >= |info.inputs| && |expected| >= |info.outputs|
    ensures |r| == |faults|
  {
    if faults == [] then []
    else
      DetectionFlags(gs, info, pattern, expected, faults[..|faults| - 1]) +
      [Detects(gs, info, pattern, expected, faults[|faults| - 1])]
  }

  lemma {:induction false} DetectionFlagsAt(gs: seq<Gate>, info: CircuitInfo, pattern: seq<char>, expected: seq<char>, faults: seq<Fault>, j: nat)
    requires WellFormed(gs) && InfoInRange(info, |gs|) && |pattern| >= |info.inputs| && |expected| >= |info.outputs|
    requires j < |faults|
    ensures DetectionFlags(gs, info, pattern, expected, faults)[j] == Detects(gs, info, pattern, expected, faults[j])
    decreases |faults|
  {
    if j < |faults| - 1 {
      DetectionFlagsAt(gs, info, pattern, expected, faults[..|faults| - 1], j);
    }
  }

  /** The body of the fault loop of `simulateTestVector` for one fault:
      clear the circuit, simulate the fault and compare the outputs. */
  method SimulateFault(c: Circuit, info: CircuitInfo, pattern: seq<char>, expected: seq<char>, fault: Fault)
    returns (detected: bool)
    requires c.Ready() && InfoInRange(info, |c.gates|) && InputsArePIs(c.gates, info)
    requires |pattern| >= |info.inputs| && |expected| >= |info.outputs|
    modifies c`value
    ensures c.Ready()
    ensures detected <==> Detects(c.gates, info, pattern, expected, fault)
  {
    ClearPropagationValuesCircuit(c, |c.gates|);
    assert c.value == seq(|c.gates|, _ => X);
    var results, excited := TestPattern(c, info, pattern, fault);
    detected := false;
    if excited {
      detected := CompareOutputs(results.output, expected);
    }
  }

  /** The state of the fault loop of `simulateTestVector` once the faults
      below `K` are handled: flags from `start` to `K` - 1 are set where
      `det` says the pattern detects the fault, and the newly detected
      faults are appended to the vector. */
  predicate DropState(faults: seq<Fault>, tv: TestVector, start: nat, det: seq<bool>, K: nat,
                      updated: seq<Fault>, out: TestVector)
  {
    |det| == |faults| && K <= |faults| && |updated| == |faults| && (K == |faults| || start <= K) &&
    out.input == tv.input && out.output == tv.output &&
    (forall j :: 0 <= j < |faults| ==> updated[j].index == faults[j].index && updated[j].ftype == faults[j].ftype) &&
    (forall j :: 0 <= j < |faults| ==> updated[j].detected == (faults[j].detected || (start <= j < K && det[j]))) &&
    out.faultsList == tv.faultsList + NewlyDetected(faults, updated, start, K) &&
    out.faultsCount == tv.faultsCount + |NewlyDetected(faults, updated, start, K)|
  }

  /** One iteration of the fault loop of `simulateTestVector`: fault K,
      unless already detected, is simulated, and if the pattern detects it,
      it is marked and appended to the vector's fault list. */
  method DropStep(c: Circuit, info: CircuitInfo, pattern: seq<char>, faults: seq<Fault>, tv: TestVector, start: nat,
                  ghost det: seq<bool>, K: nat, updated: seq<Fault>, out: TestVector)
    returns (updated': seq<Fault>, out': TestVector)
    requires c.Ready() && InfoInRange(info, |c.gates|) && InputsArePIs(c.gates, info)
    requires |pattern| >= |info.inputs| && |tv.output| >= |info.outputs|
    requires det == DetectionFlags(c.gates, info, pattern, tv.output, faults)
    requires K < |faults| && DropState(faults, tv, start, det, K, updated, out)
    modifies c`value
    ensures c.Ready()
    ensures DropState(faults, tv, start, det, K + 1, updated', out')
  {
    ghost var gs := c.gates;
    var found := false;
    if !updated[K].detected {
      assert updated[K] == faults[K];
      found := SimulateFault(c, info, pattern, tv.output, updated[K]);
      DetectionFlagsAt(gs, info, pattern, tv.output, faults, K);
    }
    updated', out' := updated, out;
    if found {
      out' := out.(faultsList := out.faultsList + [Fault(updated[K].index, updated[K].ftype, false)],
                   faultsCount := out.faultsCount + 1);
      updated' := updated[K := updated[K].(detected := true)];
    }
    ghost var extra := if found then [Fault(faults[K].index, faults[K].ftype, false)] else [];
    assert out'.faultsList == out.faultsList + extra;
    assert found == (!faults[K].detected && updated'[K].detected);
    NewlyDetectedFrame(faults, updated, updated', start, K);
    assert NewlyDetected(faults, updated', start, K + 1) == NewlyDetected(faults, updated, start, K) + extra;
    forall j | 0 <= j < |faults|
      ensures updated'[j].detected == (faults[j].detected || (start <= j < K + 1 && det[j]))
    {
      if j != K {
        assert updated'[j] == updated[j];
      }
    }
  }

  /** The fault loop of `simulateTestVector`: every fault from position
      `start` on that is not yet detected is simulated with `pattern`; each
      one detected is marked so and appended to the vector's fault list. */
  method DropDetectedFaults(c: Circuit, info: CircuitInfo, pattern: seq<char>, faults: seq<Fault>, tv: TestVector, start: nat)
    returns (updated: seq<Fault>, out: TestVector)
    requires c.Ready() && InfoInRange(info, |c.gates|) && InputsArePIs(c.gates, info)
    requires |pattern| >= |info.inputs| && |tv.output| >= |info.outputs|
    modifies c`value
    ensures c.Ready()
    ensures out.input == tv.input && out.output == tv.output
    ensures |updated| == |faults|
    ensures forall K :: 0 <= K < |faults| ==> updated[K].index == faults[K].index && updated[K].ftype == faults[K].ftype
    ensures forall K :: 0 <= K < |faults| ==>
              updated[K].detected == (faults[K].detected ||
                                      (start <= K && DetectionFlags(c.gates, info, pattern, tv.output, faults)[K]))
    ensures out.faultsList == tv.faultsList + NewlyDetected(faults, updated, start, |faults|)
    ensures out.faultsCount == tv.faultsCount + |NewlyDetected(faults, updated, start, |faults|)|
  {
    ghost var gs := c.gates;
    ghost var det := DetectionFlags(gs, info, pattern, tv.output, faults);
    out := tv;
    updated := faults;
    var K := if start <= |faults| then start else |faults|;
    while K < |faults|
      invariant c.Ready() && c.gates == gs && DropState(faults, tv, start, det, K, updated, out)
      decreases |faults| - K
    {
      updated, out := DropStep(c, info, pattern, faults, tv, start, det, K, updated, out);
      K := K + 1;
    }
  }

  /** `simulateTestVector`: fill the vector's don't-cares, then simulate
      every fault from position `start` on that is not yet detected; each
      one the vector detects is marked detected and appended to the
      vector's fault list, and the vector's fault count grows with it. */
  method SimulateTestVector(c: Circuit, info: CircuitInfo, faults: seq<Fault>, tv: TestVector, start: nat,
                            policy: FillPolicy, coins: seq<bool>)
    returns (updated: seq<Fault>, out: TestVector)
    requires c.Ready() && InfoInRange(info, |c.gates|) && InputsArePIs(c.gates, info)
    requires |tv.input| >= |info.inputs| && |tv.output| >= |info.outputs| && |coins| >= |info.inputs|
    modifies c`value
    ensures c.Ready()
    ensures FilledFrom(tv.input, out.input, |info.inputs|, policy) && out.output == tv.output
    ensures |updated| == |faults|
    ensures forall K :: 0 <= K < |faults| ==> updated[K].index == faults[K].index && updated[K].ftype == faults[K].ftype
    ensures forall K :: 0 <= K < |faults| ==>
              updated[K].detected == (faults[K].detected ||
                                      (start <= K && Detects(c.gates, info, out.input, tv.output, faults[K])))
    ensures out.faultsList == tv.faultsList + NewlyDetected(faults, updated, start, |faults|)
    ensures out.faultsCount == tv.faultsCount + |NewlyDetected(faults, updated, start, |faults|)|
  {
    var filled := FillDontCares(tv.input, |info.inputs|, policy, coins);
    updated, out := DropDetectedFaults(c, info, filled, faults, tv.(input := filled), start);
    forall j | 0 <= j < |faults|
      ensures DetectionFlags(c.gates, info, filled, tv.output, faults)[j] == Detects(c.gates, info, filled, tv.output, faults[j])
    {
      DetectionFlagsAt(c.gates, info, filled, tv.output, faults, j);
    }
  }

}
