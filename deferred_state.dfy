/** The abstract behaviour of type_safe::deferred_construction<T>, on values.

    An object is in one of two states: un-initialized, or initialized and
    holding a value.  Every operation that can be applied to an object that
    already exists is an `Op`; `Step` says what it does to the state, and
    gives `None` where the operation's precondition (a DEBUG_ASSERT in the
    C++ code) does not hold.  `Run` applies a whole trace of operations.
    The class in module TypeSafe is specified by `Step`.
 */
module DeferredState {

  datatype Option<T> = None | Some(value: T)

  /** The two states of an object. */
  datatype State<T> = Uninitialized | Initialized(value: T)

  /** The operations on an existing object.  There is deliberately no reset
      and no assignment from another object: the C++ class deletes
      `operator=(deferred_construction)` and offers nothing else that
      destroys the stored value. */
  datatype Op<T> =
    | OpEmplace(arg: T)       // emplace(args...); `arg` is the value_type built from args
    | OpAssign(arg: T)        // the converting operator=(u)
    | OpWrite(arg: T)         // assigning to the reference that value() returns
    | OpRead                  // value()
    | OpHasValue              // has_value()
    | OpToBool                // explicit operator bool()
    | OpCopiedFrom            // the object is the source of a copy construction
    | OpMovedFrom(residue: T) // the object is the source of a move construction;
                            // `residue` is what value_type's move leaves behind

  /** The state of a default-constructed object. */
  function Default<T>(): State<T> { Uninitialized }

  /** Constructing the value in place: allowed only when un-initialized. */
  function Construct<T>(s: State<T>, v: T): Option<State<T>>
  {
    if s.Initialized? then None else Some(Initialized(v))
  }

  /** The effect of one operation, or None when its precondition fails. */
  function Step<T>(s: State<T>, op: Op<T>): Option<State<T>>
  {
    match op
    case OpEmplace(v) => Construct(s, v)
    case OpAssign(u) => Construct(s, u)
    case OpWrite(v) => if s.Initialized? then Some(Initialized(v)) else None
    case OpRead => if s.Initialized? then Some(s) else None
    case OpHasValue => Some(s)
    case OpToBool => Some(s)
    case OpCopiedFrom => Some(s)
    case OpMovedFrom(r) => Some(MoveOf(s, r).1)
  }

  /** What value() hands out: the stored value, only when initialized. */
  function ValueOf<T>(s: State<T>): Option<T>
  {
    if s.Initialized? then Some(s.value) else None
  }

  /** The state of an object built by the copy constructor from `other`. */
  function CopyOf<T>(other: State<T>): State<T> { other }

  /** A move construction from `other`: the state of the new object, and
      the state `other` is left in, where `residue` is what value_type's
      move constructor leaves behind. */
  function MoveOf<T>(other: State<T>, residue: T): (State<T>, State<T>)
  {
    (other, if other.Initialized? then Initialized(residue) else other)
  }

  /** Applies the operations of `ops` in order; None as soon as one of them
      is applied outside its precondition. */
  function Run<T>(s: State<T>, ops: seq<Op<T>>): Option<State<T>>
    decreases |ops|
  {
    if ops == [] then Some(s)
    else
      match Step(s, ops[0])
      case None => None
      case Some(t) => Run(t, ops[1..])
  }

  /** Is `op` one of the two initializing operations? */
  predicate Initializes<T>(op: Op<T>)
  {
    op.OpEmplace? || op.OpAssign?
  }

  /** The number of initializing operations in a trace. */
  function InitCount<T>(ops: seq<Op<T>>): nat
    decreases |ops|
  {
    if ops == [] then 0
    else (if Initializes(ops[0]) then 1 else 0) + InitCount(ops[1..])
  }

  // ---------------------------------------------------------------------
  // Properties of single operations and of traces

  /** No single operation makes an initialized object un-initialized. */
  lemma StepKeepsInitialized<T>(s: State<T>, op: Op<T>)
    requires s.Initialized?
    requires Step(s, op).Some?
    ensures Step(s, op).value.Initialized?
  {
  }

  /** Monotonicity: once initialized, no sequence of operations makes the
      object un-initialized again. */
  lemma {:induction false} RunKeepsInitialized<T>(s: State<T>, ops: seq<Op<T>>)
    requires s.Initialized?
    requires Run(s, ops).Some?
    ensures Run(s, ops).value.Initialized?
    decreases |ops|
  {
    if ops != [] {
      StepKeepsInitialized(s, ops[0]);
      RunKeepsInitialized(Step(s, ops[0]).value, ops[1..]);
    }
  }

  /** An object is initialized at most once: a trace that completes contains
      no initializing operation if it starts initialized, and at most one if
      it starts un-initialized, in which case it ends initialized exactly
      when it contains one. */
  lemma {:induction false} InitializedAtMostOnce<T>(s: State<T>, ops: seq<Op<T>>)
    requires Run(s, ops).Some?
    ensures s.Initialized? ==> InitCount(ops) == 0
    ensures !s.Initialized? ==> InitCount(ops) <= 1
    ensures !s.Initialized? ==> (Run(s, ops).value.Initialized? <==> InitCount(ops) == 1)
    decreases |ops|
  {
    if ops != [] {
      var t := Step(s, ops[0]).value;
      InitializedAtMostOnce(t, ops[1..]);
      if s.Initialized? {
        StepKeepsInitialized(s, ops[0]);
      } else if t.Initialized? {
        RunKeepsInitialized(t, ops[1..]);
      }
    }
  }

  /** From a default-constructed object, the final state is initialized
      exactly when the trace initialized it, and that happened once. */
  lemma DefaultInitializedExactlyOnce<T>(ops: seq<Op<T>>)
    requires Run(Default<T>(), ops).Some?
    ensures Run(Default<T>(), ops).value.Initialized? <==> InitCount(ops) == 1
    ensures InitCount(ops) <= 1
  {
    InitializedAtMostOnce(Default<T>(), ops);
  }

  /** Running a trace extended by one operation is running the trace and
      then stepping. */
  lemma {:induction false} RunAppend<T>(s: State<T>, ops: seq<Op<T>>, op: Op<T>)
    ensures Run(s, ops + [op]) ==
              match Run(s, ops)
              case None => None
              case Some(t) => Step(t, op)
    decreases |ops|
  {
    if ops == [] {
      assert ops + [op] == [op];
    } else {
      assert (ops + [op])[0] == ops[0];
      assert (ops + [op])[1..] == ops[1..] + [op];
      match Step(s, ops[0])
      case None =>
      case Some(t) => RunAppend(t, ops[1..], op);
    }
  }

  /** After any trace that leaves the object initialized, a further emplace
      or converting assignment violates its precondition. */
  lemma SecondInitializationFails<T>(s: State<T>, ops: seq<Op<T>>, v: T)
    requires Run(s, ops).Some? && Run(s, ops).value.Initialized?
    ensures Run(s, ops + [OpEmplace(v)]) == None
    ensures Run(s, ops + [OpAssign(v)]) == None
  {
    RunAppend(s, ops, OpEmplace(v));
    RunAppend(s, ops, OpAssign(v));
  }

  /** Once initialized, value() succeeds after every completed trace. */
  lemma ReadAlwaysAllowedOnceInitialized<T>(s: State<T>, ops: seq<Op<T>>)
    requires s.Initialized?
    requires Run(s, ops).Some?
    ensures Run(s, ops + [OpRead]) == Run(s, ops)
  {
    RunKeepsInitialized(s, ops);
    RunAppend(s, ops, OpRead);
  }
}
