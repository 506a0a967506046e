# AggregateBinaryCPInstruction in Dafny

A model of SystemML's control-program instruction `AggregateBinaryCPInstruction`, which covers two
opcodes: `ba+*` (matrix multiply, written as an aggregate-binary operation: elementwise
`Multiply` folded by an `AggregateOperator` with seed 0 and `Plus`) and `cov` (covariance,
unweighted with two inputs or weighted with a third, weights, input).

- `wrappers.dfy` (`Wrappers`): `Option` (the source's `null`), `Result` and `Outcome` (thrown exceptions).
- `case_fold.dfy` (`CaseFold`): `String.equalsIgnoreCase` on ASCII text, and the exact sets of
  spellings the two opcodes accept.
- `operators.dfy` (`Operators`): the closed operator family
  `AggBin(Multiply, AggregateOperator(0, Plus)) | Cov(COM)`, and what one cell of an aggregate-binary
  result means, proved equal to the sum of products for the `ba+*` operator. This is a statement
  about the operator value only: the kernel that `Run` calls is a given function and is not tied to it.
- `execution_context.dfy` (`ExecutionContexts`): the execution context as a class with a map of
  variable bindings, a map of outstanding read acquisitions per name and a ghost trace of calls.
  Its invariant `Consistent` says that each count equals the acquisitions in the trace not yet
  matched by a release. Each operation is also given as a function on a `ContextState` value.
- `aggregate_binary_cp_instruction.dfy` (`AggregateBinaryCP`): the instruction datatype and its two
  constructors; `Parse` (`parseInstruction`) on the tokenised instruction text; `Run`, the
  specification of `processInstruction` as a function of the context state; and
  `ProcessInstruction`, the method that mutates an `ExecutionContext` and is proved equal to `Run`.
- `aggregate_binary_cp_properties.dfy` (`AggregateBinaryCPProperties`): the properties of
  `Parse` and `Run`.

The model follows the instruction's code on three points:
- `parseInstruction` does not itself count the operand fields of `ba+*`; the model only needs the
  three fields it reads to be present.
- Execution does not release its inputs when it fails (there is no `finally`). The model keeps
  that: every failure after an acquisition leaves that acquisition outstanding.
- No dimension check and no empty-input check happens in this instruction.

## Model

| member | source | states |
|---|---|---|
| AggregateBinaryCP.NewInstruction | SystemML/SystemML/DML/src/main/java/com/ibm/bi/dml/runtime/instructions/cp/AggregateBinaryCPInstruction.java:31-38 | the two-input constructor keeps operator, operands and text, has no third operand, and sets the type to AggregateBinary |
| AggregateBinaryCP.NewWeightedInstruction | SystemML/SystemML/DML/src/main/java/com/ibm/bi/dml/runtime/instructions/cp/AggregateBinaryCPInstruction.java:40-48 | the three-input constructor keeps the third operand as well, and sets the type to AggregateBinary |
| AggregateBinaryCP.OpCode | SystemML/SystemML/DML/src/main/java/com/ibm/bi/dml/runtime/instructions/cp/AggregateBinaryCPInstruction.java:57 | getOpCode: the opcode is the leading part, and the remaining parts are the operand fields |
| CaseFold.EqualsIgnoreCase | SystemML/SystemML/DML/src/main/java/com/ibm/bi/dml/runtime/instructions/cp/AggregateBinaryCPInstruction.java:59 | equalsIgnoreCase on ASCII text: equal-ignoring-case strings have the same length, every string equals itself, and strings without capitals are equal ignoring case only when equal |
| AggregateBinaryCP.IsMatrixMultiply | SystemML/SystemML/DML/src/main/java/com/ibm/bi/dml/runtime/instructions/cp/AggregateBinaryCPInstruction.java:59 | the matrix-multiply test accepts exactly the four casings of `ba+*`, and no opcode passes both it and the covariance test |
| AggregateBinaryCP.IsCovariance | SystemML/SystemML/DML/src/main/java/com/ibm/bi/dml/runtime/instructions/cp/AggregateBinaryCPInstruction.java:65 | the covariance test accepts exactly the eight casings of `cov` |
| AggregateBinaryCP.Parse | SystemML/SystemML/DML/src/main/java/com/ibm/bi/dml/runtime/instructions/cp/AggregateBinaryCPInstruction.java:50-86 | parsing succeeds exactly for `ba+*` (any casing) with its operand fields present, or `cov` (any casing) with 4 or 5 parts; a parsed instruction keeps its text and has type AggregateBinary |
| AggregateBinaryCPProperties.ParseMatrixMultiply | SystemML/SystemML/DML/src/main/java/com/ibm/bi/dml/runtime/instructions/cp/AggregateBinaryCPInstruction.java:57-63 | `ba+*` gives operator AggBin(Multiply, (0, Plus)), no third input, type AggregateBinary, operands from parts 1-3; missing fields give an error |
| AggregateBinaryCPProperties.ParseCovariance | SystemML/SystemML/DML/src/main/java/com/ibm/bi/dml/runtime/instructions/cp/AggregateBinaryCPInstruction.java:65-80 | `cov` with 4 parts gives the unweighted instruction (no third input), with 5 parts the weighted one (third input = part 3, output = part 4), both with Cov(COM); any other count gives "invalid number of arguments" |
| AggregateBinaryCPProperties.ParseUnknownOpcode | SystemML/SystemML/DML/src/main/java/com/ibm/bi/dml/runtime/instructions/cp/AggregateBinaryCPInstruction.java:82-84 | any other opcode gives the "unknown opcode" error naming it, and no instruction |
| AggregateBinaryCPProperties.ParseIgnoresCase | SystemML/SystemML/DML/src/main/java/com/ibm/bi/dml/runtime/instructions/cp/AggregateBinaryCPInstruction.java:57-65 | two texts whose opcodes differ only in case parse alike: both fail or both give the same instruction up to the text it keeps |
| CaseFold.MatrixMultiplyOpcodeSpellings | SystemML/SystemML/DML/src/main/java/com/ibm/bi/dml/runtime/instructions/cp/AggregateBinaryCPInstruction.java:59 | the opcodes taken as `ba+*` are exactly ba+*, bA+*, Ba+*, BA+* |
| CaseFold.CovarianceOpcodeSpellings | SystemML/SystemML/DML/src/main/java/com/ibm/bi/dml/runtime/instructions/cp/AggregateBinaryCPInstruction.java:65 | the opcodes taken as `cov` are exactly the eight casings of cov |
| CaseFold.EqualsIgnoreCaseIsEquivalence | SystemML/SystemML/DML/src/main/java/com/ibm/bi/dml/runtime/instructions/cp/AggregateBinaryCPInstruction.java:59-65 | comparing opcodes while ignoring case is reflexive, symmetric and transitive |
| Operators.CellValue | SystemML/SystemML/DML/src/main/java/com/ibm/bi/dml/runtime/instructions/cp/AggregateBinaryCPInstruction.java:61-62 | one cell of an aggregate-binary result: an empty inner dimension gives the seed, and with the (0, Plus) reduction a single pair gives just the elementwise value |
| Operators.MatrixMultiplyReductionIsMonoid | SystemML/SystemML/DML/src/main/java/com/ibm/bi/dml/runtime/instructions/cp/AggregateBinaryCPInstruction.java:61 | the reduction built for `ba+*` has seed 0 as identity and is associative and commutative |
| Operators.MatrixMultiplyCellIsDotProduct | SystemML/SystemML/DML/src/main/java/com/ibm/bi/dml/runtime/instructions/cp/AggregateBinaryCPInstruction.java:61-62 | a cell computed with the `ba+*` operator (pairs multiplied, folded into seed 0 with plus) is the sum of products; with an empty inner dimension it is 0 |
| ExecutionContexts.Lookup | SystemML/SystemML/DML/src/main/java/com/ibm/bi/dml/runtime/instructions/cp/AggregateBinaryCPInstruction.java:94-95 | getMatrixInput hands out a matrix exactly when the name is bound to a matrix; otherwise it fails, naming a missing variable or a non-matrix |
| ExecutionContexts.Acquired | SystemML/SystemML/DML/src/main/java/com/ibm/bi/dml/runtime/instructions/cp/AggregateBinaryCPInstruction.java:94-95 | a successful getMatrixInput adds one hold on that name and changes no binding and no other count |
| ExecutionContexts.Released | SystemML/SystemML/DML/src/main/java/com/ibm/bi/dml/runtime/instructions/cp/AggregateBinaryCPInstruction.java:104-105 | releaseMatrixInput needs a hold, removes one, drops the entry at zero, and changes nothing else |
| ExecutionContexts.Bound | SystemML/SystemML/DML/src/main/java/com/ibm/bi/dml/runtime/instructions/cp/AggregateBinaryCPInstruction.java:106 | setMatrixOutput and setScalarOutput bind the name, replacing any binding, and leave other bindings and all holds alone |
| ExecutionContexts.AcquiredKeepsConsistent | SystemML/SystemML/DML/src/main/java/com/ibm/bi/dml/runtime/instructions/cp/AggregateBinaryCPInstruction.java:94-95 | acquiring keeps every count equal to the outstanding acquisitions in the trace |
| ExecutionContexts.ReleasedKeepsConsistent | SystemML/SystemML/DML/src/main/java/com/ibm/bi/dml/runtime/instructions/cp/AggregateBinaryCPInstruction.java:104-105 | releasing keeps every count equal to the outstanding acquisitions in the trace |
| ExecutionContexts.BoundKeepsConsistent | SystemML/SystemML/DML/src/main/java/com/ibm/bi/dml/runtime/instructions/cp/AggregateBinaryCPInstruction.java:135-137 | binding an output keeps every count equal to the outstanding acquisitions in the trace |
| ExecutionContexts.ReleaseUndoesAcquire | SystemML/SystemML/DML/src/main/java/com/ibm/bi/dml/runtime/instructions/cp/AggregateBinaryCPInstruction.java:94-105 | a release after an acquisition of the same name restores the bindings and the acquisition map |
| ExecutionContexts.ExecutionContext.GetMatrixInput | SystemML/SystemML/DML/src/main/java/com/ibm/bi/dml/runtime/instructions/cp/AggregateBinaryCPInstruction.java:94-95 | the method returns what Lookup says and, on success, takes the state to Acquired, keeping the invariant |
| ExecutionContexts.ExecutionContext.ReleaseMatrixInput | SystemML/SystemML/DML/src/main/java/com/ibm/bi/dml/runtime/instructions/cp/AggregateBinaryCPInstruction.java:104-105 | the method takes the state to Released, keeping the invariant |
| ExecutionContexts.ExecutionContext.SetMatrixOutput | SystemML/SystemML/DML/src/main/java/com/ibm/bi/dml/runtime/instructions/cp/AggregateBinaryCPInstruction.java:106 | the method binds the output name to the matrix, keeping the invariant |
| ExecutionContexts.ExecutionContext.SetScalarOutput | SystemML/SystemML/DML/src/main/java/com/ibm/bi/dml/runtime/instructions/cp/AggregateBinaryCPInstruction.java:135-137 | the method binds the output name to the scalar, keeping the invariant |
| AggregateBinaryCP.Run | SystemML/SystemML/DML/src/main/java/com/ibm/bi/dml/runtime/instructions/cp/AggregateBinaryCPInstruction.java:88-142 | the trace only grows; a failure changes no binding; a success binds the output name |
| AggregateBinaryCP.ProcessInstruction | SystemML/SystemML/DML/src/main/java/com/ibm/bi/dml/runtime/instructions/cp/AggregateBinaryCPInstruction.java:88-142 | executing the instruction on a context changes the context exactly as Run says and returns Run's outcome |
| AggregateBinaryCPProperties.MatrixMultiplyExecution | SystemML/SystemML/DML/src/main/java/com/ibm/bi/dml/runtime/instructions/cp/AggregateBinaryCPInstruction.java:94-106 | `ba+*` succeeds exactly when both inputs are matrices, the operator is aggregate-binary and the kernel returns; then the trace is acquire in1, acquire in2, release in1, release in2, bind output to the matrix result, and the counts are as before |
| AggregateBinaryCPProperties.UnweightedCovarianceExecution | SystemML/SystemML/DML/src/main/java/com/ibm/bi/dml/runtime/instructions/cp/AggregateBinaryCPInstruction.java:109-137 | unweighted `cov` succeeds exactly when both inputs are matrices, the operator is covariance and the kernel returns; then both inputs are acquired, released, and only then is the scalar result bound |
| AggregateBinaryCPProperties.WeightedCovarianceExecution | SystemML/SystemML/DML/src/main/java/com/ibm/bi/dml/runtime/instructions/cp/AggregateBinaryCPInstruction.java:109-137 | weighted `cov` also acquires the weights after both inputs, releases all three, then binds the scalar result; it fails if the weights are not a matrix |
| AggregateBinaryCPProperties.UnsupportedOpcodeExecution | SystemML/SystemML/DML/src/main/java/com/ibm/bi/dml/runtime/instructions/cp/AggregateBinaryCPInstruction.java:139-141 | any other opcode fails after both inputs were acquired; they stay held, no binding changes |
| AggregateBinaryCPProperties.FailedExecutionReleasesNothing | SystemML/SystemML/DML/src/main/java/com/ibm/bi/dml/runtime/instructions/cp/AggregateBinaryCPInstruction.java:92-141 | every failure leaves the bindings as they were and adds only acquisitions to the trace, so no count goes down |
| AggregateBinaryCPProperties.SuccessfulExecutionIsBalanced | SystemML/SystemML/DML/src/main/java/com/ibm/bi/dml/runtime/instructions/cp/AggregateBinaryCPInstruction.java:94-137 | a successful execution leaves every count, and every outstanding count in the trace, as before |
| AggregateBinaryCPProperties.SuccessfulRunInputs | SystemML/SystemML/DML/src/main/java/com/ibm/bi/dml/runtime/instructions/cp/AggregateBinaryCPInstruction.java:94-137 | a successful trace is the acquisitions of in1, in2 (and the weights, for weighted `cov`), their releases in the same order, then one binding of the output name |
| AggregateBinaryCPProperties.SuccessfulExecutionRestoresPins | SystemML/SystemML/DML/src/main/java/com/ibm/bi/dml/runtime/instructions/cp/AggregateBinaryCPInstruction.java:94-137 | from a consistent context a successful execution leaves the acquisition map exactly as it was |
| AggregateBinaryCPProperties.RunKeepsConsistent | SystemML/SystemML/DML/src/main/java/com/ibm/bi/dml/runtime/instructions/cp/AggregateBinaryCPInstruction.java:94-141 | execution, successful or not, keeps the context's invariant |
| AggregateBinaryCPProperties.ParsedInstructionsDispatch | SystemML/SystemML/DML/src/main/java/com/ibm/bi/dml/runtime/instructions/cp/AggregateBinaryCPInstruction.java:59-141 | an instruction produced by parsing fails on execution only for an unavailable input or a failing kernel, never for an unknown opcode or a mismatched operator |

## Left out

- Tokenising the instruction text (`InstructionUtils.getOpCode`, `getInstructionPartsWithValueType`,
  `parseBinaryInstruction`, `CPOperand.split`) is not part of this model. `Parse` takes the parts;
  part 0 is the opcode; each later part is taken to be the operand's name, read by position.
  Value and data types of operands are dropped, because execution only uses names.
- AggregateBinaryCP.Parse: makes no claim that `ba+*` has exactly three operand fields. The
  tokeniser that would check it is not part of this model; extra fields are ignored, missing ones are an error.
- The kernels `MatrixBlock.aggregateBinaryOperations`, `MatrixBlock.covOperations` and
  `CM_COV_Object.getRequiredResult` are given functions (`Kernels`). For the two matrix kernels,
  `None` stands for a kernel that throws. Their numerics, floating point and dimension checks are not modelled; doubles are reals.
- getRequiredResult is taken not to fail for a covariance operator (`requiredResult` is total). A throw
  there, after the releases of lines 119-120 or 130-132, would leave the inputs released and nothing bound;
  the model has no such path, so `FailedExecutionReleasesNothing` does not cover it.
- The execution context's implementation is not part of this model. Its behaviour is modelled as
  follows: acquiring needs the name bound to a matrix; releasing needs an outstanding acquisition;
  binding replaces any binding. Storage, caching, locking and creation of the output variable are not modelled.
- `String.equalsIgnoreCase` is modelled on ASCII letters only. For the literals `ba+*` and `cov`
  this is exact, because no non-ASCII character case-maps to b, a, c, o or v.
- Exception messages are modelled as error constructors carrying the opcode or parts, not their text.
  A failed cast of the operator is `OperatorMismatch`.
- Setting the local matrix variables to null (lines 118 and 129) has no observable effect and is not modelled.
- The deprecated `getAggregateOperator` and the `_COPYRIGHT` string are left out, as unused by the instruction.
- The Welford accumulator, its merge, and release of inputs on failure paths do not appear in this instruction and are not modelled.
- The integration test LiteralReplaceCastScalarReadTest runs scripts and checks runtime statistics. It is I/O-driven and not modelled.
