/**
 * The control-program instruction for `ba+*` (matrix multiply as an aggregate-binary operation)
 * and `cov` (covariance, unweighted or weighted): parsing from its tokenised text, and execution
 * against an execution context.
 */
module AggregateBinaryCP {
  import opened Wrappers
  import opened Operators
  import opened CaseFold
  import opened ExecutionContexts

  /** An operand descriptor; only its name is consulted by this instruction. */
  datatype CPOperand = CPOperand(name: string)

  /** The instruction text split into its parts: the opcode first, then one field per operand. */
  type InstructionParts = p: seq<string> | |p| > 0 witness [""]

  /** `InstructionUtils.getOpCode`: the first part of the instruction text. */
  function OpCode(parts: InstructionParts): (opcode: string)
    ensures [opcode] + parts[1..] == parts
  {
    parts[0]
  }

  /** The control-program instruction type; both constructors set it to `AggregateBinary`. */
  datatype CPInstructionType = AggregateBinary

  /** A parsed instruction; `input3` is the weights operand of weighted covariance, absent otherwise. */
  datatype Instruction = Instruction(
    optr: Operator,
    input1: CPOperand,
    input2: CPOperand,
    input3: Option<CPOperand>,
    output: CPOperand,
    instString: InstructionParts,
    cptype: CPInstructionType)

  /** The two-input constructor: no third operand. */
  function NewInstruction(op: Operator, in1: CPOperand, in2: CPOperand, out: CPOperand, istr: InstructionParts): (inst: Instruction)
    ensures inst.input3 == None && inst.cptype == AggregateBinary
    ensures inst.optr == op && inst.input1 == in1 && inst.input2 == in2 && inst.output == out && inst.instString == istr
  {
    Instruction(op, in1, in2, None, out, istr, AggregateBinary)
  }

  /** The three-input constructor: `in3` is kept as the third operand. */
  function NewWeightedInstruction(op: Operator, in1: CPOperand, in2: CPOperand, in3: CPOperand, out: CPOperand, istr: InstructionParts): (inst: Instruction)
    ensures inst.input3 == Some(in3) && inst.cptype == AggregateBinary
    ensures inst.optr == op && inst.input1 == in1 && inst.input2 == in2 && inst.output == out && inst.instString == istr
  {
    Instruction(op, in1, in2, Some(in3), out, istr, AggregateBinary)
  }

  /** Why parsing gave no instruction. */
  datatype ParseError =
    | MissingOperandFields(parts: InstructionParts)
    | InvalidNumberOfArguments(parts: InstructionParts)
    | UnknownOpcode(opcode: string)

  /** The opcode selects the matrix-multiply branch, ignoring case. */
  predicate IsMatrixMultiply(opcode: string)
    ensures IsMatrixMultiply(opcode) <==> opcode in {"ba+*", "bA+*", "Ba+*", "BA+*"}
    ensures IsMatrixMultiply(opcode) ==> !IsCovariance(opcode)
  {
    MatrixMultiplyOpcodeSpellings(opcode);
    EqualsIgnoreCase(opcode, "ba+*")
  }

  /** The opcode selects the covariance branch, ignoring case. */
  predicate IsCovariance(opcode: string)
    ensures IsCovariance(opcode) <==> opcode in {"cov", "coV", "cOv", "cOV", "Cov", "CoV", "COv", "COV"}
  {
    CovarianceOpcodeSpellings(opcode);
    EqualsIgnoreCase(opcode, "cov")
  }

  /**
   * `parseInstruction`. The opcode alone picks `ba+*` or `cov`; for `cov` the number of parts
   * alone picks the unweighted (4 parts) or weighted (5 parts) form. The operand fields are read
   * by position; for `ba+*` no count is checked beyond the fields being present.
   */
  function Parse(parts: InstructionParts): (r: Result<Instruction, ParseError>)
    ensures r.Ok? <==>
              || (IsMatrixMultiply(OpCode(parts)) && |parts| >= 4)
              || (IsCovariance(OpCode(parts)) && (|parts| == 4 || |parts| == 5))
    ensures r.Ok? ==> r.value.instString == parts && r.value.cptype == AggregateBinary
  {
    var opcode := OpCode(parts);
    if IsMatrixMultiply(opcode) then
      if |parts| < 4 then Err(MissingOperandFields(parts))
      else Ok(NewInstruction(MatrixMultiply, CPOperand(parts[1]), CPOperand(parts[2]), CPOperand(parts[3]), parts))
    else if IsCovariance(opcode) then
      if |parts| == 4 then
        Ok(NewInstruction(Covariance, CPOperand(parts[1]), CPOperand(parts[2]), CPOperand(parts[3]), parts))
      else if |parts| == 5 then
        Ok(NewWeightedInstruction(Covariance, CPOperand(parts[1]), CPOperand(parts[2]), CPOperand(parts[3]), CPOperand(parts[4]), parts))
      else Err(InvalidNumberOfArguments(parts))
    else Err(UnknownOpcode(opcode))
  }

  /** Running statistics a covariance kernel produces (`CM_COV_Object`). */
  datatype CovObject = CovObject(weight: real, meanX: real, meanY: real, coMoment: real)

  /**
   * The numeric kernels, taken as given functions. For the three kernels that return an `Option`,
   * `None` stands for a kernel that threw; `requiredResult` is taken never to fail.
   * `requiredResult` extracts the statistic the operator asks for from a covariance object.
   */
  datatype Kernels = Kernels(
    aggregateBinary: (MatrixBlock, MatrixBlock, Operator) -> Option<MatrixBlock>,
    covariance: (MatrixBlock, MatrixBlock, Operator) -> Option<CovObject>,
    weightedCovariance: (MatrixBlock, MatrixBlock, MatrixBlock, Operator) -> Option<CovObject>,
    requiredResult: (CovObject, Operator) -> real)

  /** Why execution stopped. */
  datatype ExecError =
    | InputUnavailable(cause: ContextError)
    | OperatorMismatch(opcode: string)
    | KernelFailed(opcode: string)
    | UnsupportedOpcode(opcode: string)

  datatype Step = Step(state: ContextState, outcome: Outcome<ExecError>)

  /**
   * `processInstruction` as a function of the context state. The opcode is taken again from the
   * instruction text; both inputs are acquired before the opcode is looked at, and nothing is
   * released on a failure path.
   */
  function Run(inst: Instruction, k: Kernels, st: ContextState): (s: Step)
    ensures |st.log| <= |s.state.log| && s.state.log[..|st.log|] == st.log
    ensures s.outcome.Fail? ==> s.state.vars == st.vars
    ensures s.outcome.Pass? ==> inst.output.name in s.state.vars
  {
    var opcode := OpCode(inst.instString);
    var in1, in2, out := inst.input1.name, inst.input2.name, inst.output.name;
    match Lookup(st, in1)
    case Err(e) => Step(st, Fail(InputUnavailable(e)))
    case Ok(m1) =>
      var st1 := Acquired(st, in1);
      match Lookup(st1, in2)
      case Err(e) => Step(st1, Fail(InputUnavailable(e)))
      case Ok(m2) =>
        var st2 := Acquired(st1, in2);
        if IsMatrixMultiply(opcode) then
          if !inst.optr.AggBin? then Step(st2, Fail(OperatorMismatch(opcode)))
          else match k.aggregateBinary(m1, m2, inst.optr)
            case None => Step(st2, Fail(KernelFailed(opcode)))
            case Some(res) => Step(Bound(Released(Released(st2, in1), in2), out, MatrixData(res)), Pass)
        else if IsCovariance(opcode) then
          if !inst.optr.Cov? then Step(st2, Fail(OperatorMismatch(opcode)))
          else match inst.input3
            case None =>
              (match k.covariance(m1, m2, inst.optr)
               case None => Step(st2, Fail(KernelFailed(opcode)))
               case Some(obj) =>
                 var val := k.requiredResult(obj, inst.optr);
                 Step(Bound(Released(Released(st2, in1), in2), out, ScalarData(val)), Pass))
            case Some(in3) =>
              match Lookup(st2, in3.name)
              case Err(e) => Step(st2, Fail(InputUnavailable(e)))
              case Ok(w) =>
                var st3 := Acquired(st2, in3.name);
                match k.weightedCovariance(m1, m2, w, inst.optr)
                case None => Step(st3, Fail(KernelFailed(opcode)))
                case Some(obj) =>
                  var val := k.requiredResult(obj, inst.optr);
                  Step(Bound(Released(Released(Released(st3, in1), in2), in3.name), out, ScalarData(val)), Pass)
        else Step(st2, Fail(UnsupportedOpcode(opcode)))
  }

  /** `processInstruction`: runs the instruction against the context `ec`, changing it in place. */
  method ProcessInstruction(inst: Instruction, ec: ExecutionContext, k: Kernels) returns (r: Outcome<ExecError>)
    requires ec.Valid()
    modifies ec
    ensures ec.Valid()
    ensures Step(ec.State(), r) == Run(inst, k, old(ec.State()))
  {
    var opcode := OpCode(inst.instString);
    var got1 := ec.GetMatrixInput(inst.input1.name);
    if got1.Err? {
      return Fail(InputUnavailable(got1.error));
    }
    var got2 := ec.GetMatrixInput(inst.input2.name);
    if got2.Err? {
      return Fail(InputUnavailable(got2.error));
    }
    var outputName := inst.output.name;

    if IsMatrixMultiply(opcode) {
      if !inst.optr.AggBin? {
        return Fail(OperatorMismatch(opcode));
      }
      var res := k.aggregateBinary(got1.value, got2.value, inst.optr);
      if res.None? {
        return Fail(KernelFailed(opcode));
      }
      ec.ReleaseMatrixInput(inst.input1.name);
      ec.ReleaseMatrixInput(inst.input2.name);
      ec.SetMatrixOutput(outputName, res.value);
      return Pass;
    } else if IsCovariance(opcode) {
      if !inst.optr.Cov? {
        return Fail(OperatorMismatch(opcode));
      }
      var covobj: CovObject;
      if inst.input3.None? {
        var c := k.covariance(got1.value, got2.value, inst.optr);
        if c.None? {
          return Fail(KernelFailed(opcode));
        }
        covobj := c.value;
        ec.ReleaseMatrixInput(inst.input1.name);
        ec.ReleaseMatrixInput(inst.input2.name);
      } else {
        var wt := ec.GetMatrixInput(inst.input3.value.name);
        if wt.Err? {
          return Fail(InputUnavailable(wt.error));
        }
        var c := k.weightedCovariance(got1.value, got2.value, wt.value, inst.optr);
        if c.None? {
          return Fail(KernelFailed(opcode));
        }
        covobj := c.value;
        ec.ReleaseMatrixInput(inst.input1.name);
        ec.ReleaseMatrixInput(inst.input2.name);
        ec.ReleaseMatrixInput(inst.input3.value.name);
      }
      var val := k.requiredResult(covobj, inst.optr);
      ec.SetScalarOutput(outputName, val);
      return Pass;
    } else {
      return Fail(UnsupportedOpcode(opcode));
    }
  }
}
