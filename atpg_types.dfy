/** Data model of the stuck-at test generator: five-valued logic values, gates,
    the circuit graph with its per-gate values, faults and test vectors. */
module AtpgTypes {

  /** Five-valued logic. O and I are 0 and 1 in both the good and the faulty
      circuit; D is 1 in the good circuit and 0 in the faulty one, B is the
      opposite; X is an unknown (don't-care) value. */
  datatype LogicValue = O | I | D | B | X

  /** Gate types. With the inversion flag set, AND is NAND, OR is NOR, BUF is
      an inverter and XOR is XNOR; PPI is the pseudo input a flip-flop creates. */
  datatype GateType = AND | OR | PI | BUF | FF | XOR | PPI | OTHER

  /** One gate: type, inversion flag (NAND, NOR, NOT, XNOR), ordered fan-in and
      fan-out gate ids, primary-output and pseudo-output flags, and the level
      (-1 while it is not computed). The per-gate logic value lives in
      `Circuit.value`, because it is the only part the search and the
      simulator change. */
  datatype Gate = Gate(gtype: GateType, inv: bool, ins: seq<nat>, outs: seq<nat>,
                       po: bool, ppo: bool, level: int)

  datatype Option<T> = None | Some(value: T)

  datatype FaultType = ST_0 | ST_1

  /** A stuck-at fault on the output of gate `index`. */
  datatype Fault = Fault(index: nat, ftype: FaultType, detected: bool)

  /** The primary inputs and outputs of the circuit, in netlist order. */
  datatype CircuitInfo = CircuitInfo(inputs: seq<nat>, outputs: seq<nat>)

  /** Every primary input and output id names a gate of an `n`-gate circuit. */
  predicate InfoInRange(info: CircuitInfo, n: nat)
  {
    (forall k :: 0 <= k < |info.inputs| ==> info.inputs[k] < n) &&
    (forall k :: 0 <= k < |info.outputs| ==> info.outputs[k] < n)
  }

  /** Characters read back from the primary inputs and outputs after a simulation. */
  datatype SimResult = SimResult(input: seq<char>, output: seq<char>)

  /** A generated test vector. `faultsList` holds the entries the fault
      simulator appends behind the originating fault (slots 1, 2, ... of the
      source's array); `faultsCount` counts the originating fault as well. */
  datatype TestVector = TestVector(input: seq<char>, output: seq<char>,
                                   faultsCount: int, faultsList: seq<Fault>)

  /** Every fan-in and fan-out id names a gate of the circuit. */
  predicate InRange(gs: seq<Gate>)
  {
    (forall g, k :: 0 <= g < |gs| && 0 <= k < |gs[g].ins| ==> gs[g].ins[k] < |gs|) &&
    (forall g, k :: 0 <= g < |gs| && 0 <= k < |gs[g].outs| ==> gs[g].outs[k] < |gs|)
  }

  /** The shape the netlist parser builds: ids in range, fan-in and fan-out
      lists that mirror each other, at least one input on every AND, OR and
      BUF gate (the evaluator reads `in[0]` unconditionally), and no input on
      a primary input. */
  predicate Structured(gs: seq<Gate>)
  {
    InRange(gs) &&
    (forall g, k :: 0 <= g < |gs| && 0 <= k < |gs[g].ins| ==> g in gs[gs[g].ins[k]].outs) &&
    (forall g, k :: 0 <= g < |gs| && 0 <= k < |gs[g].outs| ==> g in gs[gs[g].outs[k]].ins) &&
    (forall g {:trigger gs[g].gtype} :: 0 <= g < |gs| && gs[g].gtype in {AND, OR, BUF} ==> |gs[g].ins| >= 1) &&
    (forall g {:trigger gs[g].gtype} :: 0 <= g < |gs| && gs[g].gtype == PI ==> gs[g].ins == [])
  }

  /** Levels are computed: non-negative and strictly increasing along every edge. */
  predicate Levelled(gs: seq<Gate>)
    requires InRange(gs)
  {
    (forall g :: 0 <= g < |gs| ==> gs[g].level >= 0) &&
    (forall g, k :: 0 <= g < |gs| && 0 <= k < |gs[g].ins| ==> gs[gs[g].ins[k]].level < gs[g].level) &&
    (forall g, k :: 0 <= g < |gs| && 0 <= k < |gs[g].outs| ==> gs[gs[g].outs[k]].level > gs[g].level)
  }

  /** A levelled circuit as the test generator and the simulator receive it. */
  predicate WellFormed(gs: seq<Gate>)
  {
    Structured(gs) && Levelled(gs)
  }

  /** The inputs of a gate lie strictly below it. */
  lemma InputsBelow(gs: seq<Gate>, g: nat)
    requires WellFormed(gs) && g < |gs|
    ensures forall j :: j in gs[g].ins ==> gs[j].level < gs[g].level
  {
    forall j | j in gs[g].ins
      ensures gs[j].level < gs[g].level
    {
      var k :| 0 <= k < |gs[g].ins| && gs[g].ins[k] == j;
    }
  }

  /** Largest level in the circuit (0 for an empty circuit). */
  function MaxLevel(gs: seq<Gate>): (m: int)
    ensures m >= 0
    ensures forall g :: 0 <= g < |gs| ==> gs[g].level <= m
  {
    if |gs| == 0 then 0
    else
      var m := MaxLevel(gs[..|gs| - 1]);
      assert forall g :: 0 <= g < |gs| - 1 ==> gs[..|gs| - 1][g] == gs[g];
      if gs[|gs| - 1].level > m then gs[|gs| - 1].level else m
  }

  /** The gate graph (`CIRCUIT`) together with the per-gate logic values that
      every excitation, propagation, justification and simulation pass
      overwrites in place. */
  class Circuit {
    var gates: seq<Gate>
    var value: seq<LogicValue>

    ghost predicate Valid()
      reads this
    {
      Structured(gates) && |value| == |gates|
    }

    /** Valid and levelled: the state in which test generation runs. */
    ghost predicate Ready()
      reads this
    {
      WellFormed(gates) && |value| == |gates|
    }

    constructor ()
      ensures gates == [] && value == []
      ensures Valid()
    {
      gates := [];
      value := [];
    }
  }
}
