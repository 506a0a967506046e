/** What parsing and executing an aggregate-binary instruction guarantee. */
module AggregateBinaryCPProperties {
  import opened Wrappers
  import opened Operators
  import opened CaseFold
  import opened ExecutionContexts
  import opened AggregateBinaryCP

  // ---------------------------------------------------------------- parsing

  /** `ba+*` in any casing gives the matrix-multiply instruction, whose operands are read by position. */
  lemma ParseMatrixMultiply(parts: InstructionParts)
    requires IsMatrixMultiply(OpCode(parts))
    ensures Parse(parts).Ok? <==> |parts| >= 4
    ensures |parts| < 4 ==> Parse(parts) == Err(MissingOperandFields(parts))
    ensures Parse(parts).Ok? ==>
              var inst := Parse(parts).value;
              && inst.optr == AggBin(Multiply, AggregateOperator(0.0, Plus))
              && inst.input3 == None
              && inst.cptype == AggregateBinary
              && inst.input1 == CPOperand(parts[1])
              && inst.input2 == CPOperand(parts[2])
              && inst.output == CPOperand(parts[3])
  {
  }

  /** `cov` in any casing: the part count alone decides between unweighted, weighted and an error. */
  lemma ParseCovariance(parts: InstructionParts)
    requires IsCovariance(OpCode(parts))
    ensures |parts| == 4 ==>
              && Parse(parts).Ok?
              && var inst := Parse(parts).value;
              && inst.optr == Cov(COM) && inst.input3 == None
              && inst.input1 == CPOperand(parts[1]) && inst.input2 == CPOperand(parts[2])
              && inst.output == CPOperand(parts[3])
    ensures |parts| == 5 ==>
              && Parse(parts).Ok?
              && var inst := Parse(parts).value;
              && inst.optr == Cov(COM) && inst.input3 == Some(CPOperand(parts[3]))
              && inst.input1 == CPOperand(parts[1]) && inst.input2 == CPOperand(parts[2])
              && inst.output == CPOperand(parts[4])
    ensures |parts| != 4 && |parts| != 5 ==> Parse(parts) == Err(InvalidNumberOfArguments(parts))
  {
  }

  /** Any opcode other than `ba+*` and `cov` is rejected, naming the opcode. */
  lemma ParseUnknownOpcode(parts: InstructionParts)
    requires !IsMatrixMultiply(OpCode(parts)) && !IsCovariance(OpCode(parts))
    ensures Parse(parts) == Err(UnknownOpcode(OpCode(parts)))
  {
  }

  /**
   * Casing of the opcode does not matter: two texts whose opcodes are equal ignoring case and whose
   * operand fields are equal parse to the same outcome, up to the text the instruction keeps.
   */
  lemma ParseIgnoresCase(p: InstructionParts, q: InstructionParts)
    requires |p| == |q| && EqualsIgnoreCase(OpCode(p), OpCode(q)) && p[1..] == q[1..]
    ensures Parse(p).Ok? <==> Parse(q).Ok?
    ensures Parse(p).Ok? ==> Parse(p).value.(instString := q) == Parse(q).value
  {
  }

  // ---------------------------------------------------------------- execution

  /**
   * Executing `ba+*`: it succeeds exactly when both inputs are matrices, the operator is an
   * aggregate-binary one and the kernel returns; then both inputs are acquired and released once,
   * in that order, and only afterwards is the output bound to the matrix result.
   */
  lemma MatrixMultiplyExecution(inst: Instruction, k: Kernels, st: ContextState)
    requires IsMatrixMultiply(OpCode(inst.instString))
    ensures var s := Run(inst, k, st);
            var in1, in2, out := inst.input1.name, inst.input2.name, inst.output.name;
            s.outcome.Pass? <==>
              && Lookup(st, in1).Ok? && Lookup(st, in2).Ok? && inst.optr.AggBin?
              && k.aggregateBinary(Lookup(st, in1).value, Lookup(st, in2).value, inst.optr).Some?
    ensures var s := Run(inst, k, st);
            var in1, in2, out := inst.input1.name, inst.input2.name, inst.output.name;
            s.outcome.Pass? ==>
              var result := MatrixData(k.aggregateBinary(Lookup(st, in1).value, Lookup(st, in2).value, inst.optr).value);
              && s.state.vars == st.vars[out := result]
              && s.state.log == st.log + [Acquire(in1), Acquire(in2), Release(in1), Release(in2), Bind(out, result)]
              && (forall n :: Pins(s.state.pins, n) == Pins(st.pins, n))
  {
  }

  function AcquireEach(names: seq<string>): seq<Event>
  {
    seq(|names|, i requires 0 <= i < |names| => Acquire(names[i]))
  }

  function ReleaseEach(names: seq<string>): seq<Event>
  {
    seq(|names|, i requires 0 <= i < |names| => Release(names[i]))
  }

  /** Executing unweighted `cov`: the two inputs are acquired, released, then a scalar is bound. */
  lemma UnweightedCovarianceExecution(inst: Instruction, k: Kernels, st: ContextState)
    requires IsCovariance(OpCode(inst.instString)) && inst.input3.None?
    ensures var s := Run(inst, k, st);
            var in1, in2 := inst.input1.name, inst.input2.name;
            s.outcome.Pass? <==>
              && Lookup(st, in1).Ok? && Lookup(st, in2).Ok? && inst.optr.Cov?
              && k.covariance(Lookup(st, in1).value, Lookup(st, in2).value, inst.optr).Some?
    ensures var s := Run(inst, k, st);
            var in1, in2, out := inst.input1.name, inst.input2.name, inst.output.name;
            s.outcome.Pass? ==>
              var obj := k.covariance(Lookup(st, in1).value, Lookup(st, in2).value, inst.optr).value;
              var result := ScalarData(k.requiredResult(obj, inst.optr));
              && s.state.vars == st.vars[out := result]
              && s.state.log == st.log + [Acquire(in1), Acquire(in2), Release(in1), Release(in2), Bind(out, result)]
              && (forall n :: Pins(s.state.pins, n) == Pins(st.pins, n))
  {
  }

  /**
   * Executing weighted `cov`: the weights are acquired after the two inputs, all three are released
   * in order, and only then is a scalar bound.
   */
  lemma WeightedCovarianceExecution(inst: Instruction, k: Kernels, st: ContextState)
    requires IsCovariance(OpCode(inst.instString)) && inst.input3.Some?
    ensures var s := Run(inst, k, st);
            var in1, in2, w := inst.input1.name, inst.input2.name, inst.input3.value.name;
            s.outcome.Pass? <==>
              && Lookup(st, in1).Ok? && Lookup(st, in2).Ok? && inst.optr.Cov? && Lookup(st, w).Ok?
              && k.weightedCovariance(Lookup(st, in1).value, Lookup(st, in2).value, Lookup(st, w).value, inst.optr).Some?
    ensures var s := Run(inst, k, st);
            var in1, in2, w, out := inst.input1.name, inst.input2.name, inst.input3.value.name, inst.output.name;
            s.outcome.Pass? ==>
              var obj := k.weightedCovariance(Lookup(st, in1).value, Lookup(st, in2).value, Lookup(st, w).value, inst.optr).value;
              var result := ScalarData(k.requiredResult(obj, inst.optr));
              && s.state.vars == st.vars[out := result]
              && s.state.log == st.log + [Acquire(in1), Acquire(in2), Acquire(w), Release(in1), Release(in2), Release(w), Bind(out, result)]
              && (forall n :: Pins(s.state.pins, n) == Pins(st.pins, n))
  {
  }

  /**
   * An opcode that is neither `ba+*` nor `cov` fails only after both inputs were acquired, and
   * nothing releases them: each stays held once more than before, and no output is bound.
   */
  lemma UnsupportedOpcodeExecution(inst: Instruction, k: Kernels, st: ContextState)
    requires !IsMatrixMultiply(OpCode(inst.instString)) && !IsCovariance(OpCode(inst.instString))
    requires Lookup(st, inst.input1.name).Ok? && Lookup(st, inst.input2.name).Ok?
    ensures var s := Run(inst, k, st);
            var in1, in2 := inst.input1.name, inst.input2.name;
            && s.outcome == Fail(UnsupportedOpcode(OpCode(inst.instString)))
            && s.state.vars == st.vars
            && s.state.log == st.log + [Acquire(in1), Acquire(in2)]
            && (forall n :: n != in1 && n != in2 ==> Pins(s.state.pins, n) == Pins(st.pins, n))
            && Pins(s.state.pins, in1) == Pins(st.pins, in1) + (if in1 == in2 then 2 else 1)
            && Pins(s.state.pins, in2) == Pins(st.pins, in2) + (if in1 == in2 then 2 else 1)
  {
  }

  /**
   * Every failure leaves the bindings untouched and releases nothing: after the earlier trace come
   * only acquisitions, so no hold is ever given back on a failure path.
   */
  lemma FailedExecutionReleasesNothing(inst: Instruction, k: Kernels, st: ContextState)
    requires Run(inst, k, st).outcome.Fail?
    ensures var s := Run(inst, k, st);
            && s.state.vars == st.vars
            && (forall i :: |st.log| <= i < |s.state.log| ==> s.state.log[i].Acquire?)
            && (forall n :: Pins(s.state.pins, n) >= Pins(st.pins, n))
  {
  }

  /**
   * A successful execution gives back every hold it took: the acquisition counts, and the
   * acquisitions outstanding in the trace, are what they were before it.
   */
  lemma SuccessfulExecutionIsBalanced(inst: Instruction, k: Kernels, st: ContextState)
    requires Run(inst, k, st).outcome.Pass?
    ensures var s := Run(inst, k, st);
            && (forall n :: Pins(s.state.pins, n) == Pins(st.pins, n))
            && (forall n :: Outstanding(s.state.log, n) == Outstanding(st.log, n))
  {
    var s := Run(inst, k, st);
    var names := SuccessfulRunInputs(inst, k, st);
    var b := s.state.log[|s.state.log| - 1];
    var seg := AcquireEach(names) + ReleaseEach(names) + [b];
    assert s.state.log == st.log + seg;
    forall n ensures Outstanding(s.state.log, n) == Outstanding(st.log, n) {
      OutstandingAppend(st.log, seg, n);
      SegmentBalanced(names, b, n);
    }
  }

  /** The names a successful run acquired: its trace is those acquisitions, their releases, one binding. */
  lemma SuccessfulRunInputs(inst: Instruction, k: Kernels, st: ContextState) returns (names: seq<string>)
    requires Run(inst, k, st).outcome.Pass?
    ensures var s := Run(inst, k, st);
            && names == (if inst.input3.Some? && !IsMatrixMultiply(OpCode(inst.instString))
                         then [inst.input1.name, inst.input2.name, inst.input3.value.name]
                         else [inst.input1.name, inst.input2.name])
            && inst.output.name in s.state.vars
            && |s.state.log| > 0 && s.state.log[|s.state.log| - 1] == Bind(inst.output.name, s.state.vars[inst.output.name])
            && s.state.log == st.log + AcquireEach(names) + ReleaseEach(names) + [s.state.log[|s.state.log| - 1]]
            && (forall n :: Pins(s.state.pins, n) == Pins(st.pins, n))
  {
    var opcode := OpCode(inst.instString);
    var in1, in2 := inst.input1.name, inst.input2.name;
    if IsMatrixMultiply(opcode) || inst.input3.None? {
      names := [in1, in2];
      if IsMatrixMultiply(opcode) {
        MatrixMultiplyExecution(inst, k, st);
      } else {
        UnweightedCovarianceExecution(inst, k, st);
      }
      assert AcquireEach(names) == [Acquire(in1), Acquire(in2)];
      assert ReleaseEach(names) == [Release(in1), Release(in2)];
    } else {
      var w := inst.input3.value.name;
      names := [in1, in2, w];
      WeightedCovarianceExecution(inst, k, st);
      assert AcquireEach(names) == [Acquire(in1), Acquire(in2), Acquire(w)];
      assert ReleaseEach(names) == [Release(in1), Release(in2), Release(w)];
    }
  }

  /** After a successful run from a consistent context, the acquisition map is exactly as before. */
  lemma SuccessfulExecutionRestoresPins(inst: Instruction, k: Kernels, st: ContextState)
    requires Consistent(st) && Run(inst, k, st).outcome.Pass?
    ensures Run(inst, k, st).state.pins == st.pins
  {
    var s := Run(inst, k, st);
    SuccessfulExecutionIsBalanced(inst, k, st);
    RunKeepsConsistent(inst, k, st);
    forall n | n in st.pins ensures n in s.state.pins && s.state.pins[n] == st.pins[n] {
      assert Pins(s.state.pins, n) == Pins(st.pins, n);
    }
    forall n | n in s.state.pins ensures n in st.pins {
      assert Pins(s.state.pins, n) == Pins(st.pins, n);
    }
  }

  /** A trace of acquisitions, the matching releases and one binding nets to zero for every name. */
  lemma SegmentBalanced(names: seq<string>, b: Event, n: string)
    requires b.Bind?
    ensures Outstanding(AcquireEach(names) + ReleaseEach(names) + [b], n) == 0
  {
    OutstandingAppend(AcquireEach(names) + ReleaseEach(names), [b], n);
    OutstandingAppend(AcquireEach(names), ReleaseEach(names), n);
    AcquireReleaseCancel(names, n);
  }

  lemma {:induction false} AcquireReleaseCancel(names: seq<string>, n: string)
    ensures Outstanding(AcquireEach(names), n) == -Outstanding(ReleaseEach(names), n)
  {
    if names != [] {
      assert AcquireEach(names)[1..] == AcquireEach(names[1..]);
      assert ReleaseEach(names)[1..] == ReleaseEach(names[1..]);
      AcquireReleaseCancel(names[1..], n);
    }
  }

  /** Execution keeps the context's invariant: acquisition counts match the trace. */
  lemma RunKeepsConsistent(inst: Instruction, k: Kernels, st: ContextState)
    requires Consistent(st)
    ensures Consistent(Run(inst, k, st).state)
  {
    var opcode := OpCode(inst.instString);
    var in1, in2, out := inst.input1.name, inst.input2.name, inst.output.name;
    var s := Run(inst, k, st);
    if Lookup(st, in1).Ok? {
      var st1 := Acquired(st, in1);
      AcquiredKeepsConsistent(st, in1);
      if Lookup(st1, in2).Ok? {
        var st2 := Acquired(st1, in2);
        AcquiredKeepsConsistent(st1, in2);
        if s.outcome.Pass? {
          ReleasedKeepsConsistent(st2, in1);
          var st3 := Released(st2, in1);
          ReleasedKeepsConsistent(st3, in2);
          var st4 := Released(st3, in2);
          if IsMatrixMultiply(opcode) || inst.input3.None? {
            BoundKeepsConsistent(st4, out, s.state.vars[out]);
          } else {
            var w := inst.input3.value.name;
            var st2' := Acquired(st2, w);
            AcquiredKeepsConsistent(st2, w);
            ReleasedKeepsConsistent(st2', in1);
            ReleasedKeepsConsistent(Released(st2', in1), in2);
            ReleasedKeepsConsistent(Released(Released(st2', in1), in2), w);
            BoundKeepsConsistent(Released(Released(Released(st2', in1), in2), w), out, s.state.vars[out]);
          }
        } else if IsCovariance(opcode) && !IsMatrixMultiply(opcode) && inst.optr.Cov? && inst.input3.Some? {
          AcquiredKeepsConsistent(st2, inst.input3.value.name);
        }
      }
    }
  }

  /**
   * An instruction that came out of `Parse` never reaches the unknown-opcode branch nor a mismatched
   * operator: executing it can fail only for a missing input or a failing kernel.
   */
  lemma ParsedInstructionsDispatch(parts: InstructionParts, inst: Instruction, k: Kernels, st: ContextState)
    requires Parse(parts) == Ok(inst)
    ensures var s := Run(inst, k, st);
            s.outcome.Fail? ==> s.outcome.error.InputUnavailable? || s.outcome.error.KernelFailed?
  {
  }
}
