/**
 * The execution context an instruction runs against: named variables, the number of
 * outstanding read acquisitions of each name, and (for the proofs) the trace of calls made.
 */
module ExecutionContexts {
  import opened Wrappers

  /** A matrix value. Its cells are only carried from context to kernel and back, never inspected. */
  datatype MatrixBlock = MatrixBlock(rows: nat, cols: nat, cells: seq<real>)

  /** What a variable is bound to: a matrix, or a scalar double. */
  datatype Data = MatrixData(block: MatrixBlock) | ScalarData(value: real)

  /** One call into the context, as the trace records it. */
  datatype Event = Acquire(name: string) | Release(name: string) | Bind(name: string, data: Data)

  /** Why `getMatrixInput` could not hand out a matrix. */
  datatype ContextError = VariableNotFound(name: string) | NotAMatrix(name: string)

  /** The whole state of a context: bindings, outstanding acquisitions per name, trace of calls. */
  datatype ContextState = ContextState(vars: map<string, Data>, pins: map<string, nat>, log: seq<Event>)

  /** Outstanding acquisitions of `name`; a name never acquired (or fully released) has none. */
  function Pins(pins: map<string, nat>, name: string): nat
  {
    if name in pins then pins[name] else 0
  }

  function Delta(e: Event, name: string): int
  {
    match e
    case Acquire(n) => if n == name then 1 else 0
    case Release(n) => if n == name then -1 else 0
    case Bind(_, _) => 0
  }

  /** Acquisitions of `name` in a trace minus its releases. */
  function Outstanding(log: seq<Event>, name: string): int
  {
    if log == [] then 0 else Delta(log[0], name) + Outstanding(log[1..], name)
  }

  lemma {:induction false} OutstandingAppend(a: seq<Event>, b: seq<Event>, name: string)
    ensures Outstanding(a + b, name) == Outstanding(a, name) + Outstanding(b, name)
  {
    if a == [] {
      assert a + b == b;
    } else {
      assert (a + b)[1..] == a[1..] + b;
      OutstandingAppend(a[1..], b, name);
    }
  }

  /**
   * The context's invariant: only names with a hold appear in the acquisition map, and each
   * count is exactly the number of acquisitions in the trace not yet matched by a release.
   */
  ghost predicate Consistent(st: ContextState)
  {
    && (forall n :: n in st.pins ==> st.pins[n] > 0)
    && (forall n :: Pins(st.pins, n) == Outstanding(st.log, n))
  }

  /** What `getMatrixInput(name)` hands out: the bound matrix, or why there is none. */
  function Lookup(st: ContextState, name: string): (r: Result<MatrixBlock, ContextError>)
    ensures r.Ok? <==> name in st.vars && st.vars[name].MatrixData?
    ensures r.Ok? ==> st.vars[name] == MatrixData(r.value)
    ensures r.Err? ==> r.error == (if name in st.vars then NotAMatrix(name) else VariableNotFound(name))
  {
    if name !in st.vars then Err(VariableNotFound(name))
    else match st.vars[name]
      case MatrixData(m) => Ok(m)
      case ScalarData(_) => Err(NotAMatrix(name))
  }

  /** The state after a successful `getMatrixInput(name)`: one more hold on `name`, nothing else. */
  function Acquired(st: ContextState, name: string): (r: ContextState)
    ensures r.vars == st.vars
    ensures Pins(r.pins, name) == Pins(st.pins, name) + 1
    ensures forall n :: n != name ==> Pins(r.pins, n) == Pins(st.pins, n)
    ensures r.log == st.log + [Acquire(name)]
  {
    ContextState(st.vars, st.pins[name := Pins(st.pins, name) + 1], st.log + [Acquire(name)])
  }

  /** The state after `releaseMatrixInput(name)`: one hold fewer on `name`; the last hold removes the entry. */
  function Released(st: ContextState, name: string): (r: ContextState)
    requires Pins(st.pins, name) > 0
    ensures r.vars == st.vars
    ensures Pins(r.pins, name) == Pins(st.pins, name) - 1
    ensures forall n :: n != name ==> Pins(r.pins, n) == Pins(st.pins, n)
    ensures name in r.pins <==> Pins(st.pins, name) > 1
    ensures r.log == st.log + [Release(name)]
  {
    var c := Pins(st.pins, name);
    ContextState(st.vars, if c == 1 then st.pins - {name} else st.pins[name := c - 1], st.log + [Release(name)])
  }

  /** The state after `setMatrixOutput` or `setScalarOutput`: `name` is bound to `d`, replacing any binding. */
  function Bound(st: ContextState, name: string, d: Data): (r: ContextState)
    ensures r.vars.Keys == st.vars.Keys + {name} && r.vars[name] == d
    ensures forall n :: n in st.vars && n != name ==> r.vars[n] == st.vars[n]
    ensures r.pins == st.pins
    ensures r.log == st.log + [Bind(name, d)]
  {
    ContextState(st.vars[name := d], st.pins, st.log + [Bind(name, d)])
  }

  lemma AcquiredKeepsConsistent(st: ContextState, name: string)
    requires Consistent(st)
    ensures Consistent(Acquired(st, name))
  {
    forall n ensures Outstanding(st.log + [Acquire(name)], n) == Outstanding(st.log, n) + Delta(Acquire(name), n) {
      OutstandingAppend(st.log, [Acquire(name)], n);
    }
  }

  lemma ReleasedKeepsConsistent(st: ContextState, name: string)
    requires Consistent(st) && Pins(st.pins, name) > 0
    ensures Consistent(Released(st, name))
  {
    forall n ensures Outstanding(st.log + [Release(name)], n) == Outstanding(st.log, n) + Delta(Release(name), n) {
      OutstandingAppend(st.log, [Release(name)], n);
    }
  }

  lemma BoundKeepsConsistent(st: ContextState, name: string, d: Data)
    requires Consistent(st)
    ensures Consistent(Bound(st, name, d))
  {
    forall n ensures Outstanding(st.log + [Bind(name, d)], n) == Outstanding(st.log, n) {
      OutstandingAppend(st.log, [Bind(name, d)], n);
    }
  }

  /** A release undoes an acquisition: bindings and the acquisition map are as they were before both. */
  lemma ReleaseUndoesAcquire(st: ContextState, name: string)
    requires Consistent(st)
    ensures Released(Acquired(st, name), name).pins == st.pins
    ensures Released(Acquired(st, name), name).vars == st.vars
  {
  }

  /**
   * The context, updated in place by the instruction. `pins` counts the outstanding read
   * acquisitions per name; `log` is the trace of calls, kept for the proofs only.
   */
  class ExecutionContext {
    var vars: map<string, Data>
    var pins: map<string, nat>
    ghost var log: seq<Event>

    ghost function State(): ContextState
      reads this
    {
      ContextState(vars, pins, log)
    }

    ghost predicate Valid()
      reads this
    {
      Consistent(State())
    }

    constructor (variables: map<string, Data>)
      ensures Valid()
      ensures State() == ContextState(variables, map[], [])
    {
      vars := variables;
      pins := map[];
      log := [];
    }

    /** `getMatrixInput`: hands out the matrix bound to `name` and takes a read hold on it. */
    method GetMatrixInput(name: string) returns (r: Result<MatrixBlock, ContextError>)
      requires Valid()
      modifies this
      ensures Valid()
      ensures r == Lookup(old(State()), name)
      ensures State() == if r.Ok? then Acquired(old(State()), name) else old(State())
    {
      if name !in vars {
        return Err(VariableNotFound(name));
      }
      match vars[name] {
        case ScalarData(_) =>
          return Err(NotAMatrix(name));
        case MatrixData(m) =>
          AcquiredKeepsConsistent(State(), name);
          pins := pins[name := Pins(pins, name) + 1];
          log := log + [Acquire(name)];
          return Ok(m);
      }
    }

    /** `releaseMatrixInput`: gives back one read hold on `name`; releasing what is not held is a defect. */
    method ReleaseMatrixInput(name: string)
      requires Valid() && Pins(pins, name) > 0
      modifies this
      ensures Valid()
      ensures State() == Released(old(State()), name)
    {
      ReleasedKeepsConsistent(State(), name);
      var c := Pins(pins, name);
      pins := if c == 1 then pins - {name} else pins[name := c - 1];
      log := log + [Release(name)];
    }

    /** `setMatrixOutput`: binds `name` to a matrix result. */
    method SetMatrixOutput(name: string, m: MatrixBlock)
      requires Valid()
      modifies this
      ensures Valid()
      ensures State() == Bound(old(State()), name, MatrixData(m))
    {
      BoundKeepsConsistent(State(), name, MatrixData(m));
      vars := vars[name := MatrixData(m)];
      log := log + [Bind(name, MatrixData(m))];
    }

    /** `setScalarOutput`: binds `name` to a scalar double result. */
    method SetScalarOutput(name: string, v: real)
      requires Valid()
      modifies this
      ensures Valid()
      ensures State() == Bound(old(State()), name, ScalarData(v))
    {
      BoundKeepsConsistent(State(), name, ScalarData(v));
      vars := vars[name := ScalarData(v)];
      log := log + [Bind(name, ScalarData(v))];
    }
  }
}
