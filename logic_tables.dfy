/** The five-valued logic algebra: the constant truth tables, `negate`,
    `logicName`, gate evaluation (`computeGateOutput`) and the don't-care
    resolution of `isOutputPossible`. */
module LogicTables {
  import opened AtpgTypes

  /** Row and column of a value in the tables (the enum's ordinal). */
  function Ord(v: LogicValue): (n: nat)
    ensures n < 5
  {
    match v
    case O => 0
    case I => 1
    case D => 2
    case B => 3
    case X => 4
  }

  //                                O  I  D  B  X
  const AndTable: seq<seq<LogicValue>> := [[O, O, O, O, O],   // O
                                           [O, I, D, B, X],   // I
                                           [O, D, D, O, X],   // D
                                           [O, B, O, B, X],   // B
                                           [O, X, X, X, X]]   // X

  const NandTable: seq<seq<LogicValue>> := [[I, I, I, I, I],
                                            [I, O, B, D, X],
                                            [I, B, B, I, X],
                                            [I, D, I, D, X],
                                            [I, X, X, X, X]]

  const OrTable: seq<seq<LogicValue>> := [[O, I, D, B, X],
                                          [I, I, I, I, I],
                                          [D, I, D, I, X],
                                          [B, I, I, B, X],
                                          [X, I, X, X, X]]

  const NorTable: seq<seq<LogicValue>> := [[I, O, B, D, X],
                                           [O, O, O, O, O],
                                           [B, O, B, O, X],
                                           [D, O, O, D, X],
                                           [X, O, X, X, X]]

  const XorTable: seq<seq<LogicValue>> := [[O, I, D, B, X],
                                           [I, O, B, D, X],
                                           [D, B, O, I, X],
                                           [B, D, I, O, X],
                                           [X, X, X, X, X]]

  const XnorTable: seq<seq<LogicValue>> := [[I, O, B, D, X],
                                            [O, I, D, B, X],
                                            [B, D, I, O, X],
                                            [D, B, O, I, X],
                                            [X, X, X, X, X]]

  const InvTable: seq<LogicValue> := [I, O, B, D, X]

  function And(a: LogicValue, b: LogicValue): LogicValue { AndTable[Ord(a)][Ord(b)] }
  function Nand(a: LogicValue, b: LogicValue): LogicValue { NandTable[Ord(a)][Ord(b)] }
  function Or(a: LogicValue, b: LogicValue): LogicValue { OrTable[Ord(a)][Ord(b)] }
  function Nor(a: LogicValue, b: LogicValue): LogicValue { NorTable[Ord(a)][Ord(b)] }
  function Xor(a: LogicValue, b: LogicValue): LogicValue { XorTable[Ord(a)][Ord(b)] }
  function Xnor(a: LogicValue, b: LogicValue): LogicValue { XnorTable[Ord(a)][Ord(b)] }
  function Inv(a: LogicValue): LogicValue { InvTable[Ord(a)] }

  /** `negate`: swaps O/I and D/B when `inv` is set, and is the identity otherwise. */
  function Negate(v: LogicValue, inv: bool): LogicValue
  {
    if inv then
      match v
      case I => O
      case O => I
      case D => B
      case B => D
      case X => X
    else v
  }

  /** `logicName`, as defined with one argument. */
  function LogicName(v: LogicValue): char
  {
    match v
    case O => 'O'
    case I => 'I'
    case D => 'D'
    case B => 'B'
    case X => 'X'
  }

  // ---------------------------------------------------------------------------
  // Properties of the tables

  lemma ControllingValues(v: LogicValue)
    ensures And(O, v) == O && And(v, O) == O
    ensures Or(I, v) == I && Or(v, I) == I
  {
    match v
    case O => case I => case D => case B => case X =>
  }

  lemma IdentityValues(v: LogicValue)
    ensures And(I, v) == v && And(v, I) == v
    ensures Or(O, v) == v && Or(v, O) == v
  {
    match v
    case O => case I => case D => case B => case X =>
  }

  /** Simultaneous good/faulty evaluation on the documented entries. */
  lemma TableEntries()
    ensures And(I, D) == D && And(O, D) == O && And(D, B) == O
    ensures And(X, I) == X && And(X, O) == O
    ensures Or(D, B) == I
  {
  }

  lemma AndOrCommutative(a: LogicValue, b: LogicValue)
    ensures And(a, b) == And(b, a)
    ensures Or(a, b) == Or(b, a)
  {
    match a
    case O => case I => case D => case B => case X =>
  }

  /** The inverted tables are the plain tables followed by the inverter. */
  lemma InvertedTables(a: LogicValue, b: LogicValue)
    ensures Nand(a, b) == Inv(And(a, b))
    ensures Nor(a, b) == Inv(Or(a, b))
    ensures Xnor(a, b) == Inv(Xor(a, b))
  {
    match a
    case O => case I => case D => case B => case X =>
  }

  /** XOR and XNOR yield X whenever either operand is unknown. */
  lemma XorUnknown(v: LogicValue)
    ensures Xor(X, v) == X && Xor(v, X) == X
    ensures Xnor(X, v) == X && Xnor(v, X) == X
  {
    match v
    case O => case I => case D => case B => case X =>
  }

  /** The inverter swaps O/I and D/B, fixes X, is an involution and agrees with `negate`. */
  lemma InverterProperties(v: LogicValue)
    ensures Inv(O) == I && Inv(I) == O && Inv(D) == B && Inv(B) == D && Inv(X) == X
    ensures Inv(Inv(v)) == v
    ensures Negate(v, true) == Inv(v)
  {
    match v
    case O => case I => case D => case B => case X =>
  }

  lemma NegateInvolution(v: LogicValue, inv: bool)
    ensures Negate(v, false) == v
    ensures Negate(Negate(v, inv), inv) == v
    ensures Negate(v, inv) == X <==> v == X
  {
  }

  lemma LogicNameDistinct(a: LogicValue, b: LogicValue)
    ensures LogicName(a) == LogicName(b) <==> a == b
    ensures LogicName(a) in {'O', 'I', 'D', 'B', 'X'}
  {
  }

  /** `a` refines to `b` when `a` is unknown or already equal to `b`. */
  predicate Refines(a: LogicValue, b: LogicValue)
  {
    a == X || a == b
  }

  /** The tables are monotone: resolving unknown operands never changes a
      result that is already known. */
  lemma TablesMonotone(a: LogicValue, a': LogicValue, b: LogicValue, b': LogicValue)
    requires Refines(a, a') && Refines(b, b')
    ensures Refines(And(a, b), And(a', b'))
    ensures Refines(Or(a, b), Or(a', b'))
  {
    if a == X {
      match a'
      case O => case I => case D => case B => case X =>
    } else if b == X {
      match b'
      case O => case I => case D => case B => case X =>
    }
  }

  // ---------------------------------------------------------------------------
  // Gate evaluation

  /** Left fold of an AND/OR table over input values, starting from the first. */
  function FoldAnd(s: seq<LogicValue>): LogicValue
    requires |s| >= 1
  {
    if |s| == 1 then s[0] else And(FoldAnd(s[..|s| - 1]), s[|s| - 1])
  }

  function FoldOr(s: seq<LogicValue>): LogicValue
    requires |s| >= 1
  {
    if |s| == 1 then s[0] else Or(FoldOr(s[..|s| - 1]), s[|s| - 1])
  }

  /** Values currently on the inputs of gate `g`, in input order. */
  function InputValues(gs: seq<Gate>, vs: seq<LogicValue>, g: nat): (s: seq<LogicValue>)
    requires InRange(gs) && |vs| == |gs| && g < |gs|
    ensures |s| == |gs[g].ins|
    ensures forall k :: 0 <= k < |s| ==> s[k] == vs[gs[g].ins[k]]
  {
    seq(|gs[g].ins|, k requires 0 <= k < |gs[g].ins| => vs[gs[g].ins[k]])
  }

  /** `computeGateOutput`: AND/OR fold their inputs, BUF forwards its input,
      each negated iff `inv`; every other gate type evaluates to X. */
  function ComputeGateOutput(gs: seq<Gate>, vs: seq<LogicValue>, g: nat): LogicValue
    requires Structured(gs) && |vs| == |gs| && g < |gs|
  {
    match gs[g].gtype
    case AND => Negate(FoldAnd(InputValues(gs, vs, g)), gs[g].inv)
    case OR => Negate(FoldOr(InputValues(gs, vs, g)), gs[g].inv)
    case BUF => Negate(vs[gs[g].ins[0]], gs[g].inv)
    case _ => X
  }

  /** A controlling value anywhere in the fold decides it. */
  lemma {:induction false} FoldControlled(s: seq<LogicValue>)
    requires |s| >= 1
    ensures O in s ==> FoldAnd(s) == O
    ensures I in s ==> FoldOr(s) == I
  {
    if |s| > 1 {
      FoldControlled(s[..|s| - 1]);
      ControllingValues(FoldAnd(s[..|s| - 1]));
      ControllingValues(FoldOr(s[..|s| - 1]));
      assert O in s ==> O in s[..|s| - 1] || s[|s| - 1] == O;
      assert I in s ==> I in s[..|s| - 1] || s[|s| - 1] == I;
    }
  }

  /** With every other operand at the non-controlling value, the fold passes
      operand `p` through. */
  lemma {:induction false} FoldSensitized(s: seq<LogicValue>, p: nat)
    requires p < |s|
    ensures (forall k :: 0 <= k < |s| && k != p ==> s[k] == I) ==> FoldAnd(s) == s[p]
    ensures (forall k :: 0 <= k < |s| && k != p ==> s[k] == O) ==> FoldOr(s) == s[p]
  {
    if |s| > 1 {
      var n := |s| - 1;
      if p < n {
        FoldSensitized(s[..n], p);
      } else {
        FoldAllNonControlling(s[..n]);
      }
      IdentityValues(FoldAnd(s[..n]));
      IdentityValues(FoldOr(s[..n]));
      IdentityValues(s[n]);
    }
  }

  lemma {:induction false} FoldAllNonControlling(s: seq<LogicValue>)
    requires |s| >= 1
    ensures (forall k :: 0 <= k < |s| ==> s[k] == I) ==> FoldAnd(s) == I
    ensures (forall k :: 0 <= k < |s| ==> s[k] == O) ==> FoldOr(s) == O
  {
    if |s| > 1 {
      FoldAllNonControlling(s[..|s| - 1]);
    }
  }

  /** Folds are monotone under refinement of their operands. */
  lemma {:induction false} FoldMonotone(s: seq<LogicValue>, t: seq<LogicValue>)
    requires |s| == |t| >= 1
    requires forall k :: 0 <= k < |s| ==> Refines(s[k], t[k])
    ensures Refines(FoldAnd(s), FoldAnd(t))
    ensures Refines(FoldOr(s), FoldOr(t))
  {
    if |s| > 1 {
      var n := |s| - 1;
      FoldMonotone(s[..n], t[..n]);
      TablesMonotone(FoldAnd(s[..n]), FoldAnd(t[..n]), s[n], t[n]);
      TablesMonotone(FoldOr(s[..n]), FoldOr(t[..n]), s[n], t[n]);
    }
  }

  /** A fold over unknown operands is unknown. */
  lemma {:induction false} FoldUnknown(s: seq<LogicValue>)
    requires |s| >= 1
    requires forall k :: 0 <= k < |s| ==> s[k] == X
    ensures FoldAnd(s) == X && FoldOr(s) == X
  {
    if |s| > 1 {
      FoldUnknown(s[..|s| - 1]);
    }
  }

  /** Resolving unknown values never changes an output that is already known. */
  lemma ComputeGateOutputMonotone(gs: seq<Gate>, vs: seq<LogicValue>, ws: seq<LogicValue>, g: nat)
    requires Structured(gs) && |vs| == |gs| == |ws| && g < |gs|
    requires forall j :: 0 <= j < |vs| ==> Refines(vs[j], ws[j])
    ensures Refines(ComputeGateOutput(gs, vs, g), ComputeGateOutput(gs, ws, g))
  {
    var gt := gs[g];
    if gt.gtype in {AND, OR} {
      FoldMonotone(InputValues(gs, vs, g), InputValues(gs, ws, g));
    }
  }

  /** The output depends on nothing but the input values. */
  lemma ComputeGateOutputReadsInputs(gs: seq<Gate>, vs: seq<LogicValue>, ws: seq<LogicValue>, g: nat)
    requires Structured(gs) && |vs| == |gs| == |ws| && g < |gs|
    requires forall k :: 0 <= k < |gs[g].ins| ==> vs[gs[g].ins[k]] == ws[gs[g].ins[k]]
    ensures ComputeGateOutput(gs, vs, g) == ComputeGateOutput(gs, ws, g)
  {
    assert InputValues(gs, vs, g) == InputValues(gs, ws, g);
  }

  /** Gates with unknown inputs, and gates of any type the evaluator does not
      implement, evaluate to X. */
  lemma ComputeGateOutputUnknown(gs: seq<Gate>, vs: seq<LogicValue>, g: nat)
    requires Structured(gs) && |vs| == |gs| && g < |gs|
    requires (forall k :: 0 <= k < |gs[g].ins| ==> vs[gs[g].ins[k]] == X) || gs[g].gtype !in {AND, OR, BUF}
    ensures ComputeGateOutput(gs, vs, g) == X
  {
    if gs[g].gtype in {AND, OR, BUF} {
      if gs[g].gtype != BUF {
        FoldUnknown(InputValues(gs, vs, g));
      }
    }
  }

  /** A controlling value on any input of an AND (O) or OR (I) decides the
      gate's output, before inversion. */
  lemma ComputeGateOutputControlled(gs: seq<Gate>, vs: seq<LogicValue>, g: nat, k: nat)
    requires Structured(gs) && |vs| == |gs| && g < |gs| && k < |gs[g].ins|
    ensures gs[g].gtype == AND && vs[gs[g].ins[k]] == O ==> ComputeGateOutput(gs, vs, g) == Negate(O, gs[g].inv)
    ensures gs[g].gtype == OR && vs[gs[g].ins[k]] == I ==> ComputeGateOutput(gs, vs, g) == Negate(I, gs[g].inv)
  {
    var s := InputValues(gs, vs, g);
    assert s[k] == vs[gs[g].ins[k]];
    FoldControlled(s);
  }

  /** With every other input at the non-controlling value (I for AND, O for
      OR), the gate forwards input position `p`, negated iff `inv`. */
  lemma ComputeGateOutputSensitized(gs: seq<Gate>, vs: seq<LogicValue>, g: nat, p: nat)
    requires Structured(gs) && |vs| == |gs| && g < |gs| && p < |gs[g].ins|
    requires gs[g].gtype in {AND, OR}
    requires forall k :: 0 <= k < |gs[g].ins| && k != p ==>
               vs[gs[g].ins[k]] == (if gs[g].gtype == AND then I else O)
    ensures ComputeGateOutput(gs, vs, g) == Negate(vs[gs[g].ins[p]], gs[g].inv)
  {
    FoldSensitized(InputValues(gs, vs, g), p);
  }

  // ---------------------------------------------------------------------------
  // isOutputPossible

  /** The first X input decides the result alone: a plain AND asked for O, or
      a plain OR asked for I. */
  predicate SpecialCase(gt: Gate, output: LogicValue)
  {
    (gt.gtype == AND && !gt.inv && output == O) || (gt.gtype == OR && !gt.inv && output == I)
  }

  /** Value written into an unknown input `j` of gate `g` outside the special
      case: I for AND, O for OR, the requested output negated by the input
      gate's own `inv` for BUF; other gate types leave the input at X. */
  function FillValue(gs: seq<Gate>, g: nat, j: nat, output: LogicValue): LogicValue
    requires g < |gs| && j < |gs|
  {
    match gs[g].gtype
    case AND => I
    case OR => O
    case BUF => Negate(output, gs[j].inv)
    case _ => X
  }

  /** The loop of `isOutputPossible` from input position `k` on, with
      `result` recording whether an X input has been seen. */
  function OutputPossibleFrom(gs: seq<Gate>, vs: seq<LogicValue>, g: nat, output: LogicValue,
                              k: nat, result: bool): (r: (bool, seq<LogicValue>))
    requires Structured(gs) && |vs| == |gs| && g < |gs| && k <= |gs[g].ins|
    ensures |r.1| == |vs|
    decreases |gs[g].ins| - k
  {
    if k == |gs[g].ins| then
      if !result then (false, vs) else (ComputeGateOutput(gs, vs, g) == output, vs)
    else
      var j := gs[g].ins[k];
      if vs[j] != X then OutputPossibleFrom(gs, vs, g, output, k + 1, result)
      else if !result && SpecialCase(gs[g], output) then
        (true, vs[j := if gs[g].gtype == AND then O else I])
      else
        var vs' := if gs[g].gtype in {AND, OR, BUF} then vs[j := FillValue(gs, g, j, output)] else vs;
        OutputPossibleFrom(gs, vs', g, output, k + 1, true)
  }

  /** `isOutputPossible(circuit, g, output)`: the verdict and the new values. */
  function OutputPossible(gs: seq<Gate>, vs: seq<LogicValue>, g: nat, output: LogicValue): (r: (bool, seq<LogicValue>))
    requires Structured(gs) && |vs| == |gs| && g < |gs|
    ensures |r.1| == |vs|
  {
    OutputPossibleFrom(gs, vs, g, output, 0, false)
  }

  method IsOutputPossible(c: Circuit, g: nat, output: LogicValue) returns (possible: bool)
    requires c.Valid() && g < |c.gates|
    modifies c`value
    ensures c.Valid()
    ensures (possible, c.value) == OutputPossible(c.gates, old(c.value), g, output)
  {
    var result := false;
    var k := 0;
    while k < |c.gates[g].ins|
      invariant c.Valid() && k <= |c.gates[g].ins|
      invariant OutputPossibleFrom(c.gates, c.value, g, output, k, result)
             == OutputPossible(c.gates, old(c.value), g, output)
    {
      var j := c.gates[g].ins[k];
      if c.value[j] == X {
        if !result {
          if c.gates[g].gtype == AND && !c.gates[g].inv && output == O {
            c.value := c.value[j := O];
            return true;
          }
          if c.gates[g].gtype == OR && !c.gates[g].inv && output == I {
            c.value := c.value[j := I];
            return true;
          }
        }
        result := true;
        if c.gates[g].gtype == AND {
          c.value := c.value[j := I];
        } else if c.gates[g].gtype == OR {
          c.value := c.value[j := O];
        } else if c.gates[g].gtype == BUF {
          c.value := c.value[j := Negate(output, c.gates[j].inv)];
        }
      }
      k := k + 1;
    }
    if !result {
      return false;
    }
    possible := ComputeGateOutput(c.gates, c.value, g) == output;
  }

  /** Some input of `g` currently holds X. */
  predicate HasDontCare(gs: seq<Gate>, vs: seq<LogicValue>, g: nat)
    requires InRange(gs) && |vs| == |gs| && g < |gs|
  {
    exists k :: 0 <= k < |gs[g].ins| && vs[gs[g].ins[k]] == X
  }

  /** Without an X input, isOutputPossible answers FALSE and changes nothing. */
  lemma OutputPossibleNoDontCare(gs: seq<Gate>, vs: seq<LogicValue>, g: nat, output: LogicValue)
    requires Structured(gs) && |vs| == |gs| && g < |gs|
    requires !HasDontCare(gs, vs, g)
    ensures OutputPossible(gs, vs, g, output) == (false, vs)
  {
    NoDontCareFrom(gs, vs, g, output, 0);
  }

  lemma {:induction false} NoDontCareFrom(gs: seq<Gate>, vs: seq<LogicValue>, g: nat, output: LogicValue, k: nat)
    requires Structured(gs) && |vs| == |gs| && g < |gs| && k <= |gs[g].ins|
    requires forall k' :: k <= k' < |gs[g].ins| ==> vs[gs[g].ins[k']] != X
    ensures OutputPossibleFrom(gs, vs, g, output, k, false) == (false, vs)
    decreases |gs[g].ins| - k
  {
    if k < |gs[g].ins| {
      NoDontCareFrom(gs, vs, g, output, k + 1);
    }
  }

  /** Special case: only the first X input is set, to O for AND or I for OR,
      the answer is TRUE and every other value is unchanged. */
  lemma OutputPossibleSpecial(gs: seq<Gate>, vs: seq<LogicValue>, g: nat, output: LogicValue, first: nat)
    requires Structured(gs) && |vs| == |gs| && g < |gs|
    requires SpecialCase(gs[g], output)
    requires first < |gs[g].ins| && vs[gs[g].ins[first]] == X
    requires forall k :: 0 <= k < first ==> vs[gs[g].ins[k]] != X
    ensures OutputPossible(gs, vs, g, output)
         == (true, vs[gs[g].ins[first] := if gs[g].gtype == AND then O else I])
  {
    SpecialFrom(gs, vs, g, output, first, 0);
  }

  lemma {:induction false} SpecialFrom(gs: seq<Gate>, vs: seq<LogicValue>, g: nat, output: LogicValue, first: nat, k: nat)
    requires Structured(gs) && |vs| == |gs| && g < |gs|
    requires SpecialCase(gs[g], output)
    requires k <= first < |gs[g].ins| && vs[gs[g].ins[first]] == X
    requires forall k' :: k <= k' < first ==> vs[gs[g].ins[k']] != X
    ensures OutputPossibleFrom(gs, vs, g, output, k, false)
         == (true, vs[gs[g].ins[first] := if gs[g].gtype == AND then O else I])
    decreases first - k
  {
    if k < first {
      SpecialFrom(gs, vs, g, output, first, k + 1);
    }
  }

  /** Values after the general case: every X input of `g` gets its fill value. */
  function Filled(gs: seq<Gate>, vs: seq<LogicValue>, g: nat, output: LogicValue): (r: seq<LogicValue>)
    requires InRange(gs) && |vs| == |gs| && g < |gs|
    ensures |r| == |vs|
  {
    seq(|vs|, j requires 0 <= j < |vs| =>
      if j in gs[g].ins && vs[j] == X then FillValue(gs, g, j, output) else vs[j])
  }

  /** General case: every X input becomes I (AND), O (OR) or the negated
      request (BUF), whatever the gate's own inversion; other values are
      unchanged; the answer is whether the gate now computes `output`. */
  lemma OutputPossibleGeneral(gs: seq<Gate>, vs: seq<LogicValue>, g: nat, output: LogicValue)
    requires Structured(gs) && |vs| == |gs| && g < |gs|
    requires !SpecialCase(gs[g], output)
    ensures OutputPossible(gs, vs, g, output).1 == Filled(gs, vs, g, output)
    ensures OutputPossible(gs, vs, g, output).0
        <==> HasDontCare(gs, vs, g) && ComputeGateOutput(gs, Filled(gs, vs, g, output), g) == output
  {
    GeneralFrom(gs, vs, vs, g, output, 0, false);
    var r := OutputPossibleFrom(gs, Filled(gs, vs, g, output), g, output, |gs[g].ins|, HasDontCare(gs, vs, g));
    assert r == (HasDontCare(gs, vs, g) && ComputeGateOutput(gs, Filled(gs, vs, g, output), g) == output,
                 Filled(gs, vs, g, output));
  }

  lemma {:induction false} GeneralFrom(gs: seq<Gate>, orig: seq<LogicValue>, vs: seq<LogicValue>, g: nat,
                                       output: LogicValue, k: nat, result: bool)
    requires Structured(gs) && |orig| == |gs| == |vs| && g < |gs| && k <= |gs[g].ins|
    requires !SpecialCase(gs[g], output)
    requires forall j :: 0 <= j < |vs| ==>
               vs[j] == if j in gs[g].ins[..k] && orig[j] == X then FillValue(gs, g, j, output) else orig[j]
    requires result <==> exists k' :: 0 <= k' < k && orig[gs[g].ins[k']] == X
    ensures OutputPossibleFrom(gs, vs, g, output, k, result)
         == OutputPossibleFrom(gs, Filled(gs, orig, g, output), g, output, |gs[g].ins|, HasDontCare(gs, orig, g))
    decreases |gs[g].ins| - k
  {
    var ins := gs[g].ins;
    if k == |ins| {
      FillDone(gs, orig, vs, g, output, result);
      assert vs == Filled(gs, orig, g, output) && result == HasDontCare(gs, orig, g);
    } else {
      var j := ins[k];
      FillStep(gs, orig, vs, g, output, k);
      if vs[j] != X {
        assert OutputPossibleFrom(gs, vs, g, output, k, result) == OutputPossibleFrom(gs, vs, g, output, k + 1, result);
        GeneralFrom(gs, orig, vs, g, output, k + 1, result);
      } else {
        var vs' := vs[j := FillValue(gs, g, j, output)];
        assert gs[g].gtype !in {AND, OR, BUF} ==> vs' == vs;
        assert OutputPossibleFrom(gs, vs, g, output, k, result) == OutputPossibleFrom(gs, vs', g, output, k + 1, true);
        GeneralFrom(gs, orig, vs', g, output, k + 1, true);
      }
    }
  }

  /** After the last input of the general case every X input is filled. */
  lemma FillDone(gs: seq<Gate>, orig: seq<LogicValue>, vs: seq<LogicValue>, g: nat, output: LogicValue, result: bool)
    requires InRange(gs) && |orig| == |gs| == |vs| && g < |gs|
    requires forall j :: 0 <= j < |vs| ==>
               vs[j] == if j in gs[g].ins[..|gs[g].ins|] && orig[j] == X then FillValue(gs, g, j, output) else orig[j]
    requires result <==> exists k' :: 0 <= k' < |gs[g].ins| && orig[gs[g].ins[k']] == X
    ensures vs == Filled(gs, orig, g, output)
    ensures result <==> HasDontCare(gs, orig, g)
  {
    assert gs[g].ins[..|gs[g].ins|] == gs[g].ins;
  }

  /** One input of the general case: the values stay "X inputs among the
      first k filled" with k one larger. */
  lemma FillStep(gs: seq<Gate>, orig: seq<LogicValue>, vs: seq<LogicValue>, g: nat, output: LogicValue, k: nat)
    requires InRange(gs) && |orig| == |gs| == |vs| && g < |gs| && k < |gs[g].ins|
    requires forall j :: 0 <= j < |vs| ==>
               vs[j] == if j in gs[g].ins[..k] && orig[j] == X then FillValue(gs, g, j, output) else orig[j]
    ensures var j := gs[g].ins[k];
            var vs' := if vs[j] != X then vs else vs[j := FillValue(gs, g, j, output)];
            (vs[j] == X ==> orig[j] == X) && (orig[j] == X ==> vs[j] == X || j in gs[g].ins[..k]) &&
            forall i :: 0 <= i < |vs'| ==>
              vs'[i] == if i in gs[g].ins[..k + 1] && orig[i] == X then FillValue(gs, g, i, output) else orig[i]
  {
    var ins := gs[g].ins;
    var j := ins[k];
    assert ins[..k + 1] == ins[..k] + [j];
    if vs[j] != X {
      assert orig[j] == X ==> j in ins[..k];
      forall i | 0 <= i < |vs|
        ensures vs[i] == if i in ins[..k + 1] && orig[i] == X then FillValue(gs, g, i, output) else orig[i]
      {
        if i == j && orig[i] == X {
          assert i in ins[..k];
        }
      }
    } else {
      assert orig[j] == X;
    }
  }

  /** isOutputPossible only resolves X inputs of the gate. */
  lemma OutputPossibleFillsDontCares(gs: seq<Gate>, vs: seq<LogicValue>, g: nat, output: LogicValue)
    requires Structured(gs) && |vs| == |gs| && g < |gs|
    ensures forall j :: 0 <= j < |vs| ==>
              OutputPossible(gs, vs, g, output).1[j] == vs[j] || (vs[j] == X && j in gs[g].ins)
  {
    var r := OutputPossible(gs, vs, g, output);
    if !HasDontCare(gs, vs, g) {
      OutputPossibleNoDontCare(gs, vs, g, output);
    } else if SpecialCase(gs[g], output) {
      var first := FirstDontCare(gs, vs, g, 0);
      OutputPossibleSpecial(gs, vs, g, output, first);
    } else {
      OutputPossibleGeneral(gs, vs, g, output);
    }
  }

  /** A TRUE answer means the gate now evaluates to `output`. */
  lemma OutputPossibleSound(gs: seq<Gate>, vs: seq<LogicValue>, g: nat, output: LogicValue)
    requires Structured(gs) && |vs| == |gs| && g < |gs|
    requires OutputPossible(gs, vs, g, output).0
    ensures ComputeGateOutput(gs, OutputPossible(gs, vs, g, output).1, g) == output
  {
    if !HasDontCare(gs, vs, g) {
      OutputPossibleNoDontCare(gs, vs, g, output);
    } else if SpecialCase(gs[g], output) {
      var first := FirstDontCare(gs, vs, g, 0);
      OutputPossibleSpecial(gs, vs, g, output, first);
      var ws := OutputPossible(gs, vs, g, output).1;
      ComputeGateOutputControlled(gs, ws, g, first);
    } else {
      OutputPossibleGeneral(gs, vs, g, output);
    }
  }

  /** Position of the first X input at or after `k`. */
  function FirstDontCare(gs: seq<Gate>, vs: seq<LogicValue>, g: nat, k: nat): (first: nat)
    requires InRange(gs) && |vs| == |gs| && g < |gs| && k <= |gs[g].ins|
    requires exists k' :: k <= k' < |gs[g].ins| && vs[gs[g].ins[k']] == X
    ensures k <= first < |gs[g].ins| && vs[gs[g].ins[first]] == X
    ensures forall k' :: k <= k' < first ==> vs[gs[g].ins[k']] != X
    decreases |gs[g].ins| - k
  {
    if vs[gs[g].ins[k]] == X then k else FirstDontCare(gs, vs, g, k + 1)
  }
}
