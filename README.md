# ATPG core in Dafny

A model of the core of an automatic test-pattern generator for
single stuck-at faults in combinational gate-level circuits, with proofs
about that model.

- **Values.** Circuit lines carry one of five logic values: `O`, `I`, `D`,
  `B` and `X`. `D` is 1 in the good circuit and 0 in the faulty one, `B` is
  the reverse, and `X` is unknown.
- **Circuit.** A circuit is a sequence of gates, each with its type, an
  inversion flag, its fan-in and fan-out gate indices, primary-output flags
  and a level. The per-gate logic values live beside the gates.
- **Search.** For every stuck-at fault, the generator excites the fault
  site with the fault effect, justifies the side inputs towards the
  primary inputs, and propagates the effect forward to a primary output.
  It then extracts a test vector from the primary inputs and outputs.
- **Fault simulation.** Each vector is fault-simulated against the later
  faults in the list, by an event-driven, level-ordered simulation. Every
  fault the vector also detects is recorded in the vector and marked
  detected.

Modules, one per source file of the core:

| module | file | models |
|---|---|---|
| `AtpgTypes` | `atpg_types.dfy` | logic values, gate types, gates, faults, test vectors, and the `Circuit` class (gates and their values) |
| `LogicTables` | `logic_tables.dfy` | the five-valued truth tables, `negate`, `logicName`, `computeGateOutput`, `isOutputPossible` |
| `ParserNetlist` | `parser_netlist.dfy` | `appendNewGate` and the levelizer `computeGateLevels` / `computeGateLevel` |
| `TestGenerator` | `test_generator.dfy` | the path and circuit clearing, `excite`, `justify`, `propagate`, `extractTestVector` |
| `SearchProperties` | `search_properties.dfy` | lemmas about the search procedures |
| `FaultSimulation` | `fault_simulation.dfy` | `test_pattern`, `generate_output`, `cmpGateLevels`, `simulateTestVector` |
| `AtpgDriver` | `main.dfy` | `generate_fault_list` and `generate_test_patterns` |
| `MaskedFault` | `masked_fault.dfy` | a vector the driver emits for a fault that the fault simulator finds it does not detect |

How the model is built:

- **State changes.** Every procedure that changes the circuit's values is a
  method on `Circuit` that modifies `c.value`. Each one is proved equal to a
  pure outcome function of the gates and the old values (`ExciteOutcome`,
  `JustifyOutcome`, `PropagateOutcome`, `OutputPossible`, ...). The search's
  properties are then proved about those functions.
- **Simulation.** The event-driven simulator is proved against an
  independent reference. That reference is a level-by-level evaluation of
  the gates reachable from the primary inputs, with the fault site checked
  for excitation (`Settled`, `ExcitedAt`, `Stops`). The simulator's result
  therefore does not depend on the order in which gates of equal level
  leave its priority queue.

Observed behaviours of the code, proved as lemmas:

- The excitation of an AND/OR gate leaves the gate computing the requested
  value only when the gate is not inverting. The side inputs of a NAND get
  O and those of a NOR get I, which control the gate. So a NAND with two
  or more inputs computes I and a NOR computes O, whatever was requested.
  A one-input NAND or NOR computes the inverse of the request
  (`SearchProperties.ExciteComputes`; a two-input NAND excited with D in
  `SearchProperties.ExciteInvertedGate`).
- `justify` on a buffer reports success even when the buffer's input
  already holds the conflicting value (`SearchProperties.JustifyBufferConflict`).
- As a consequence, the search can succeed with values that no input
  assignment produces, and the driver then emits a vector that does not
  detect its own fault. Take an AND gate fed by input b, by input a, and
  by an inverting buffer of a. Propagating b stuck-at-0 writes I on every
  input of the AND gate, including a and the buffer, and the buffer's
  justification only checks that a is no longer X
  (`SearchProperties.PropagateReconvergent`). The driver emits a = I, b = I
  with expected output I (`MaskedFault.ReconvergentVectorEmitted`). The
  simulator finds that this vector does not detect b stuck-at-0, because
  the buffer's O masks the fault effect
  (`MaskedFault.ReconvergentVectorMissesFault`).
- Extracted test vectors contain only `X`, `I` and `O`, while the
  don't-care fill looks for a lowercase `x`. Filling is therefore a no-op on
  every vector the driver produces (`FaultSimulation.FillKeepsExtractedVector`).
- The expected outputs compared in `simulateTestVector` are the extracted
  ones, so a fault counts as detected exactly when some output of the
  faulty simulation settles to `D` or `B`
  (`FaultSimulation.DetectsOnExtracted`).
- The driver searches a test for every fault in the list, whether or not
  an earlier vector already detected it (`AtpgDriver.GenerateTestPatterns`).

Where the written description and the code disagree, the model follows the
code:

- `logicName` is declared in the header with an extra parameter but is
  defined with one. The model follows the definition.
- `extractTestVector` is defined (`src/libs/test_generator.c:285`) and
  declared (`src/libs/test_generator.h:93`) as filling the caller's vector
  through a pointer. The driver (`src/main.c:304`) calls it as returning a
  vector, as the older declaration in `src/test_generator.h:77` does. The
  model returns the vector.

## Model

| member | source | states |
|---|---|---|
| `AtpgTypes.Circuit.constructor` | src/libs/atpg_types.h:137-185 | a new circuit has no gates and no values and satisfies the shape invariant (one value per gate, all fan-in and fan-out indices in range) |
| `AtpgTypes.InputsBelow` | src/libs/parser_netlist.c:400-413 | in a levelled circuit every fan-in of a gate has a strictly smaller level than the gate |
| `LogicTables.ControllingValues` | src/libs/logic_tables.h:32-53 | `O` controls AND and `I` controls OR, on either side |
| `LogicTables.IdentityValues` | src/libs/logic_tables.h:32-53 | `I` is the identity of AND and `O` the identity of OR |
| `LogicTables.TableEntries` | src/libs/logic_tables.h:32-53 | the fault-effect entries: I AND D = D, O AND D = O, D AND B = O, X AND I = X, X AND O = O, D OR B = I |
| `LogicTables.AndOrCommutative` | src/libs/logic_tables.h:32-53 | the AND and OR tables are symmetric |
| `LogicTables.InvertedTables` | src/libs/logic_tables.h:40-77 | the NAND, NOR and XNOR tables are the inverted AND, OR and XOR tables |
| `LogicTables.XorUnknown` | src/libs/logic_tables.h:64-77 | XOR and XNOR with an unknown operand are unknown |
| `LogicTables.InverterProperties` | src/libs/logic_tables.h:80 | the inverter swaps O/I and D/B, keeps X, is an involution and agrees with `negate` on inverted gates |
| `LogicTables.NegateInvolution` | src/libs/logic_tables.c:132-144 | `negate` is the identity without inversion, an involution with it, and maps exactly X to X |
| `LogicTables.LogicNameDistinct` | src/libs/logic_tables.c:152-162 | `logicName` gives each of the five values its own letter among O, I, D, B, X |
| `LogicTables.TablesMonotone` | src/libs/logic_tables.h:32-53 | refining an X operand to a known value can only refine the AND and OR results |
| `LogicTables.FoldControlled` | src/libs/logic_tables.c:38-63 | the fold over a gate's inputs yields O for AND once some input is O, and I for OR once some input is I |
| `LogicTables.FoldSensitized` | src/libs/logic_tables.c:38-63 | when every other input holds the non-controlling value, the fold yields the remaining input's value |
| `LogicTables.FoldAllNonControlling` | src/libs/logic_tables.c:38-63 | all-I inputs fold to I under AND; all-O inputs fold to O under OR |
| `LogicTables.FoldMonotone` | src/libs/logic_tables.c:38-63 | refining inputs can only refine the folded AND/OR value |
| `LogicTables.FoldUnknown` | src/libs/logic_tables.c:38-63 | all-X inputs fold to X |
| `LogicTables.ComputeGateOutputMonotone` | src/libs/logic_tables.c:32-71 | a gate's computed output only refines when its input values are refined |
| `LogicTables.ComputeGateOutputReadsInputs` | src/libs/logic_tables.c:32-71 | a gate's computed output depends only on the values of its fan-in gates |
| `LogicTables.ComputeGateOutputUnknown` | src/libs/logic_tables.c:32-71 | a gate with all inputs X, or of a type other than AND/OR/BUF, computes X |
| `LogicTables.ComputeGateOutputControlled` | src/libs/logic_tables.c:38-63 | one controlling input fixes an AND/OR gate's output to the (possibly inverted) controlled value |
| `LogicTables.ComputeGateOutputSensitized` | src/libs/logic_tables.c:38-63 | with all side inputs non-controlling, the gate passes the chosen input's value through, inverted when the gate inverts |
| `LogicTables.IsOutputPossible` | src/libs/logic_tables.c:82-123 | the method's answer and its new values are those of the outcome function `OutputPossible` |
| `LogicTables.OutputPossibleNoDontCare` | src/libs/logic_tables.c:82-123 | with no X input, the answer is no and no value changes |
| `LogicTables.NoDontCareFrom` | src/libs/logic_tables.c:88-117 | the input loop over inputs without X answers no and changes nothing |
| `LogicTables.OutputPossibleSpecial` | src/libs/logic_tables.c:92-103 | for a controlled output of AND/OR, the first X input is set to the controlling value and the answer is yes |
| `LogicTables.SpecialFrom` | src/libs/logic_tables.c:92-103 | the input loop of the controlled case stops at the first X input and sets it |
| `LogicTables.OutputPossibleGeneral` | src/libs/logic_tables.c:105-122 | otherwise every X input is filled, and the answer is yes iff some input was X and the filled gate computes the requested output |
| `LogicTables.GeneralFrom` | src/libs/logic_tables.c:105-122 | the input loop of the general case fills the X inputs one by one and reaches that answer |
| `LogicTables.FillStep` | src/libs/logic_tables.c:105-116 | filling the next input when it holds X keeps "exactly the X inputs among those visited so far are filled", and an input still at X was at X before |
| `LogicTables.FillDone` | src/libs/logic_tables.c:117-121 | once every input is visited the values are exactly the filled circuit, and the result flag says whether some input was X |
| `LogicTables.OutputPossibleFillsDontCares` | src/libs/logic_tables.c:82-123 | `isOutputPossible` only ever overwrites X values on the gate's own inputs |
| `LogicTables.OutputPossibleSound` | src/libs/logic_tables.c:82-123 | whenever it answers yes, the gate computes the requested output under the new values |
| `ParserNetlist.AppendNewGate` | src/libs/parser_netlist.c:49-76 | a new gate is appended with type OTHER, no inputs or outputs, no output flags, level -1 and value X, and the circuit stays well-shaped |
| `ParserNetlist.AppendKeepsStructure` | src/libs/parser_netlist.c:49-76 | appending a fresh gate keeps every fan-in and fan-out index valid |
| `ParserNetlist.MaxInputLevelIsMax` | src/libs/parser_netlist.c:400-413 | the running maximum over the first k inputs is at least each of their levels and equals one of them, and is -1 iff k = 0 |
| `ParserNetlist.ComputeGateLevelUnstored` | src/libs/parser_netlist.c:400-413 | a gate's level is one more than its highest fan-in level, and 0 iff it has no inputs |
| `ParserNetlist.PartlyLevelledShape` | src/libs/parser_netlist.c:379-391 | the levelizer changes only levels, never fan-in or fan-out |
| `ParserNetlist.LevelStable` | src/libs/parser_netlist.c:400-413 | storing computed levels does not change any level computed afterwards |
| `ParserNetlist.MaxInputStable` | src/libs/parser_netlist.c:400-413 | storing computed levels does not change any running input maximum |
| `ParserNetlist.ComputeGateLevels` | src/libs/parser_netlist.c:379-413 | every gate's level becomes the computed level; gates whose level was already set (primary inputs, level 0) are untouched; with preset sources the circuit becomes levelled |
| `ParserNetlist.LevelledKeepsStructure` | src/libs/parser_netlist.c:379-391 | the levelled gates keep every fan-in and fan-out index valid |
| `ParserNetlist.LevelledIsWellFormed` | src/libs/parser_netlist.c:379-413 | after levelling, every fan-in has a lower level than its gate |
| `TestGenerator.ClearPropagationValuesPath` | src/libs/test_generator.c:36-54 | the new values are those of the recursive path-clearing function `ClearedPath` |
| `TestGenerator.ClearPropagationValuesCircuit` | src/libs/test_generator.c:63-68 | the first numGates values become X and the rest are unchanged |
| `TestGenerator.Excite` | src/libs/test_generator.c:78-135 | the answer and the new values are those of `ExciteOutcome` |
| `TestGenerator.SensitizeInputs` | src/libs/test_generator.c:124-128 | the first input of the gate gets the excitation value and every later input the sensitizing value, in input order, and no other gate changes |
| `TestGenerator.Justify` | src/libs/test_generator.c:149-199 | the answer and the new values are those of `JustifyOutcome` |
| `TestGenerator.JustifyEachInput` | src/libs/test_generator.c:189-198 | the inputs are justified one after another, each at the value it holds then, stopping at the first failure; the answer and the values are those of `JustifyInputs` |
| `TestGenerator.Propagate` | src/libs/test_generator.c:210-275 | the answer and the new values are those of `PropagateOutcome` |
| `TestGenerator.VectorChar` | src/libs/test_generator.c:285-318 | a value is written as X iff unknown, I iff it is I or D, O iff it is O or B |
| `TestGenerator.ExtractTestVector` | src/libs/test_generator.c:285-318 | the vector holds one character per primary input and output, each the `VectorChar` of that gate's value, with a fault count of 1 and no listed faults |
| `SearchProperties.ClearedPathOnlyClears` | src/libs/test_generator.c:36-54 | path clearing writes only X |
| `SearchProperties.ClearedOutsOnlyClears` | src/libs/test_generator.c:48-53 | the fan-out loop of path clearing writes only X |
| `SearchProperties.ClearedPathEffect` | src/libs/test_generator.c:36-54 | the gate's inputs become X, the gate itself is cleared when it has fan-out and is not an output, and at an output only the inputs are cleared |
| `SearchProperties.ClearedPathInputs` | src/libs/test_generator.c:36-54 | after clearing a path from a gate, all that gate's inputs are X |
| `SearchProperties.ExciteFrame` | src/libs/test_generator.c:78-135 | excitation never changes a gate of higher level than the target |
| `SearchProperties.ExciteTarget` | src/libs/test_generator.c:78-135 | exciting X or a primary input succeeds; on success the target carries the value; a buffer's failure leaves it X |
| `SearchProperties.ExciteSensitizes` | src/libs/test_generator.c:98-134 | exciting a known value at a gate other than a primary input or buffer succeeds iff the gate has an input and the excitation of its first input succeeds; on success the gate carries the value and, with distinct inputs, the first input carries the value and every other input the side value: I for AND, O for NAND, O for OR, I for NOR, X for the other gate types |
| `SearchProperties.ExciteComputes` | src/libs/test_generator.c:106-134 | after a successful excitation of a known value at an AND/OR gate with distinct inputs, a non-inverting gate computes the value, a one-input NAND/NOR computes its inverse, and a NAND (NOR) with two or more inputs computes I (O) whatever the value |
| `SearchProperties.ExciteInvertedGate` | src/libs/test_generator.c:106-134 | exciting a NAND with D sets its inputs to D and O, under which the NAND computes I, not D |
| `SearchProperties.ExciteNandSteps` | src/libs/test_generator.c:106-134 | the NAND excitation outcome, step by step |
| `SearchProperties.JustifyEffect` | src/libs/test_generator.c:149-199 | justification only refines X values and never touches a gate at or above the target's level |
| `SearchProperties.JustifyInputsEffect` | src/libs/test_generator.c:189-198 | the loop over a gate's inputs only refines X values below the gate's level |
| `SearchProperties.JustifySound` | src/libs/test_generator.c:149-199 | a successful justification of a known value at an AND or OR gate leaves the gate computing that value |
| `SearchProperties.JustifyBuffer` | src/libs/test_generator.c:165-174 | a buffer's input gets the negated value when it was X, and the buffer then computes the value iff its input was X or already agreed |
| `SearchProperties.JustifyBufferConflict` | src/libs/test_generator.c:165-174 | justifying I on a buffer whose input is O succeeds, although the buffer computes O |
| `SearchProperties.ReconvergentJustifyInputs` | src/libs/test_generator.c:189-198 | in the reconvergent example, justifying each input of the AND gate at the value it holds succeeds and changes nothing, the buffer's input being already set |
| `SearchProperties.ReconvergentJustify` | src/libs/test_generator.c:149-199 | in the reconvergent example, justifying D at the AND gate holding D succeeds and changes nothing |
| `SearchProperties.PropagateReconvergent` | src/libs/test_generator.c:210-275 | in the reconvergent example, exciting b with D puts D on b, and propagating it succeeds with a = I, buffer = I, b = D, output = D, although the buffer computes O from a = I |
| `SearchProperties.JustifyUnsupported` | src/libs/test_generator.c:149-199 | justification of a gate type other than PI, BUF, AND or OR fails |
| `SearchProperties.PropagateAtOutput` | src/libs/test_generator.c:210-229 | at a primary output, propagation sets the value and justifies the gate |
| `SearchProperties.PropagateReachesOutput` | src/libs/test_generator.c:210-275 | after a successful propagation some primary output carries D or B |
| `SearchProperties.PropagateOutsReachesOutput` | src/libs/test_generator.c:236-274 | the same for the loop over fan-outs |
| `FaultSimulation.CmpGateLevels` | src/libs/fault_simulation.c:256-263 | the comparator returns 0, -1 or 1 exactly when the levels are equal, the left is higher, or the left is lower |
| `FaultSimulation.CmpGateLevelsOrder` | src/libs/fault_simulation.c:256-263 | the comparator is antisymmetric and transitive, so it is a valid priority order |
| `FaultSimulation.RunWorkList` | src/libs/fault_simulation.c:79-134 | the simulation completes iff the reference evaluation does not stop at a non-excited fault site; excitation is reported iff the reference excites the site; on completion every value equals the reference `Settled` value |
| `FaultSimulation.EvaluateNext` | src/libs/fault_simulation.c:81-133 | one step of the work list keeps the invariant, advances the level or shrinks the current level's queue, and stops only where the reference stops |
| `FaultSimulation.EnqueueFanOuts` | src/libs/fault_simulation.c:126-133 | every X fan-out of the evaluated gate is queued and preset, and the invariant holds again |
| `FaultSimulation.Completion` | src/libs/fault_simulation.c:79-134 | an empty queue means the evaluated gates are exactly the reachable ones and hold their reference values |
| `FaultSimulation.LeastLevelIndex` | src/libs/fault_simulation.c:81 | the queue's next gate has the least level of all queued gates |
| `FaultSimulation.DecodeNames` | src/libs/fault_simulation.c:57-72 | reading back a `logicName` or a vector character decodes to the value it names, X and the unknown letters being skipped |
| `FaultSimulation.AppliedDistinct` | src/libs/fault_simulation.c:57-72 | applying a pattern sets each listed gate to its decoded character or leaves it as it was |
| `FaultSimulation.ApplyPattern` | src/libs/fault_simulation.c:57-72 | the new values are those of applying the pattern characters to the listed gates |
| `FaultSimulation.ReadNames` | src/libs/fault_simulation.c:141-148 | one `logicName` character per listed gate |
| `FaultSimulation.TestPattern` | src/libs/fault_simulation.c:46-151 | excitation is reported iff the reference excites the fault site; on an early stop the result is empty; otherwise it is the read-back of the reference values at the inputs and outputs |
| `FaultSimulation.GenerateOutput` | src/libs/fault_simulation.c:162-246 | the result is the read-back of the fault-free reference values at the inputs and outputs |
| `FaultSimulation.SettledGate` | src/libs/fault_simulation.c:86-114 | a reached gate that is neither a primary input nor the fault site settles at `computeGateOutput` of its inputs' settled values |
| `FaultSimulation.ExcitedSiteCarriesEffect` | src/libs/fault_simulation.c:93-111 | an excited site settles to the fault effect (D for stuck-at-0, B for stuck-at-1); an unreachable site is never excited and never stops the simulation |
| `FaultSimulation.FillChar` | src/libs/fault_simulation.c:281-300 | a filled don't-care is always 0 or 1 |
| `FaultSimulation.FillDontCares` | src/libs/fault_simulation.c:281-300 | only the lowercase x characters among the first n inputs are replaced, each by the policy's character |
| `FaultSimulation.FillKeepsExtractedVector` | src/libs/fault_simulation.c:281-300 | a vector made of extracted characters is left unchanged by the fill |
| `FaultSimulation.CompareOutputs` | src/libs/fault_simulation.c:320-342 | the vector detects iff some output differs from the expected one in the way the comparison checks |
| `FaultSimulation.DiffersFromExtracted` | src/libs/fault_simulation.c:320-342 | against extracted expected outputs, a difference is found iff some result character is D or B |
| `FaultSimulation.DetectsOnExtracted` | src/libs/fault_simulation.c:305-359 | against extracted outputs, a fault is detected iff its site is excited and some output settles to D or B |
| `FaultSimulation.NewlyDetected` | src/libs/fault_simulation.c:344-356 | the faults recorded in a vector are ones that were undetected before it |
| `FaultSimulation.NewlyDetectedFrame` | src/libs/fault_simulation.c:344-356 | the recorded faults depend only on the before and after flags in the simulated range |
| `FaultSimulation.DetectionFlagsAt` | src/libs/fault_simulation.c:305-359 | the detection flag of each fault is whether the vector detects it |
| `FaultSimulation.SimulateFault` | src/libs/fault_simulation.c:305-342 | one fault is reported detected iff the reference detection holds for it |
| `FaultSimulation.DropDetectedFaults` | src/libs/fault_simulation.c:305-359 | each fault from `start` on becomes detected iff it was or the vector detects it; the newly detected faults are appended to the vector and counted |
| `FaultSimulation.DropStep` | src/libs/fault_simulation.c:307-356 | one fault of that loop: it becomes detected iff it was or the vector detects it, and only then is it appended to the vector and counted |
| `FaultSimulation.SimulateTestVector` | src/libs/fault_simulation.c:275-361 | the vector's don't-cares are filled; each fault from `start` on is detected iff it was or the filled vector detects it; earlier faults keep their flags; the newly detected faults are appended and counted |
| `AtpgDriver.GenerateFaultList` | src/main.c:243-261 | position 2K holds the stuck-at-0 fault and 2K+1 the stuck-at-1 fault of gate K, for every gate |
| `AtpgDriver.FaultListComplete` | src/main.c:243-261 | every entry names a gate of the circuit, and no two entries name the same gate and fault type |
| `AtpgDriver.Chars` | src/libs/test_generator.c:285-318 | one vector character per listed gate, each X, I or O |
| `AtpgDriver.TryFault` | src/main.c:279-310 | round K: a vector is produced iff excitation and propagation from a cleared circuit succeed; it holds the extracted characters, lists exactly the later faults it newly detects and counts them plus its own fault; the new flags mark exactly the later undetected faults the vector detects |
| `AtpgDriver.NextRound` | src/main.c:279-310 | one more round of the driver loop: the vectors and flags go from those of the first K rounds to those of the first K + 1 |
| `AtpgDriver.GenerateTestPatterns` | src/main.c:268-315 | the vectors and the final flags are exactly those of the rounds over the whole fault list, each round starting from the flags the previous one left |
| `AtpgDriver.RoundCharacters` | src/main.c:283-308 | a round emits a vector iff the search for its fault succeeds, with the characters of the values the search leaves |
| `AtpgDriver.RoundsCharacters` | src/main.c:276-308 | the emitted vectors' characters are those of the faults whose search succeeds, in list order, whatever the detected flags |
| `AtpgDriver.MarkedAt` | src/libs/fault_simulation.c:305-359 | after fault-simulating a vector against the faults from `start` on, each of those faults is marked detected iff it was already, or it was undetected and the vector detects it; index and type never change, and faults outside the range keep their flag |
| `AtpgDriver.RoundDetects` | src/main.c:283-308 | after round K, fault j is detected iff it was before, or j lies after K, the search for fault K succeeds and the vector it yields detects fault j |
| `AtpgDriver.RoundsStep` | src/main.c:276-308 | round K leaves the entry of every fault at or before position K, and of every fault already detected, as the earlier rounds left it |
| `AtpgDriver.RoundsSettle` | src/main.c:276-308 | once the driver reaches fault j, its entry is final: the later rounds never change it |
| `AtpgDriver.RoundFrame` | src/main.c:305-306 | a round changes no flag at or before its own fault and no flag already set |
| `AtpgDriver.VectorsMatchStep` | src/main.c:300-308 | appending the vector a round produces (or nothing, when its search fails) to vectors matching the first K rounds gives vectors matching the first K + 1 |
| `MaskedFault.ReconvergentStart` | src/libs/fault_simulation.c:57-68 | applying the pattern "II" to the reconvergent example sets both primary inputs to I |
| `MaskedFault.ReconvergentInputsSettle` | src/libs/fault_simulation.c:86-114 | with b stuck at 0 under "II", a settles at I, the inverting buffer at O and b at D |
| `MaskedFault.ReconvergentSettles` | src/libs/fault_simulation.c:86-114 | with b stuck at 0 under "II", the fault is excited and the AND gate settles at O |
| `MaskedFault.ReconvergentVectorEmitted` | src/main.c:283-308 | the driver's round for b stuck-at-0 on the reconvergent example emits the vector with inputs "II" and output "I" |
| `MaskedFault.ReconvergentReadBack` | src/libs/fault_simulation.c:140-148 | with b stuck at 0 under "II", the output reads back as O |
| `MaskedFault.ReconvergentVectorMissesFault` | src/libs/fault_simulation.c:305-359 | that emitted vector does not detect b stuck-at-0 |

## Left out

- Netlist parsing, gate-name hashing and lookup (`findIndex`), and the printing and display functions are not part of this model. The circuit is given as a sequence of gates.
- The command line, debug output, the stopwatch and the writing of vectors to files are not part of this model.
- Capacity limits (`MAX_GATES`, fixed-size fan-in and fan-out arrays) are not modelled. Sequences are unbounded.
- The `justified` and `propagated` memo flags are left out. They are written but never read by the search.
- The `indexOut` field of faults is left out. It is copied but never used.
- Random don't-care filling is modelled by a `coins` parameter that supplies the random bits.
- The priority queue of `test_pattern` is modelled by an abstract least-level pick (`FaultSimulation.LeastLevelIndex`). Its heap layout is left out, and the proofs hold for any tie order.
- `appendNewGate` leaves the inversion flag uninitialised. The model sets it to false.
- Faults created by `generate_fault_list`, and faults copied into a vector, leave `detected` uninitialised. The model sets it to false.
- FaultSimulation.TestPattern: when the simulation stops at a non-excited fault site, the source returns a result whose strings were never set. The model returns empty strings, which the caller never reads.
- FaultSimulation.TestPattern: requires every gate that is not a primary input to be X on entry. Every caller clears the circuit first.
- FaultSimulation.GenerateOutput: requires every gate that is not a primary input to be X on entry, as above.
- FaultSimulation.RunWorkList: when the run stops early, the partially simulated values are not described. Every caller clears them before the next use.
- The driver's skip of a missing fault-list entry is left out. Every entry is present after `generate_fault_list`.
- The fault list and the test vector are passed in and returned by value, instead of being updated through pointers.
- The excitation loop over a gate's inputs returns on its first iteration in every case, so the model makes a single attempt on the first input.
- The older copies of the parser and driver at the top of the source tree are not part of this model. The model follows the versions under `src/`.
