/** The interpreter's mutable world and its constants: the frame store, the
    allocation counter that gives every new object its identity, the host
    services the built-ins consult, and the evaluator's three singletons. */
module Runtime {
  import opened Basics
  import opened Int64
  import opened Object
  import opened Environment

  /** The frame store and the last allocation address handed out. */
  datatype State = State(frames: Frames, next: nat)

  /** What the process supplies from outside the interpreter, indexed by
      the allocation counter at the time of the call: a random draw, the
      clock in Unix seconds, and the next line of standard input (None when
      reading fails). */
  datatype Host = Host(draw: nat -> nat, clock: nat -> int64, line: nat -> Option<Bytes>)

  /** An evaluation result: the object and the world after producing it. */
  datatype Res = Res(obj: Obj, st: State)

  /** The state at program start: one root frame, nothing allocated. */
  function Start(): (st: State)
    ensures |st.frames| == 1 && st.next == 0
  {
    State(NewEnvironment(), 0)
  }

  /** Allocates an address different from every address handed out before. */
  function Alloc(st: State): (r: (Addr, State))
    ensures r.1.frames == st.frames && r.1.next == r.0
    ensures st.next < r.0
  {
    (st.next + 1, st.(next := st.next + 1))
  }

  // ---------------------------------------------------------------------
  // Singletons and truth

  /** The evaluator's NULL, TRUE and FALSE singletons. */
  const TheNull: Obj := Null(0)
  const TheTrue: Obj := Bool(true)
  const TheFalse: Obj := Bool(false)

  function NativeBool(b: bool): (o: Obj)
    ensures o.Bool? && o.truth == b
  {
    if b then TheTrue else TheFalse
  }

  /** Only the NULL singleton and FALSE are false; everything else,
      including 0, the empty string, a freshly allocated null and nil, is
      true. */
  predicate IsTruthy(o: Obj) {
    o != TheNull && o != TheFalse
  }

  /** Whether o is an error object. Nil is not. */
  predicate IsError(o: Obj) {
    o.Error?
  }

  /** A null that built-ins allocate; it is not the NULL singleton. */
  function FreshNull(st: State): (r: Res)
    ensures r.obj.Null? && r.obj != TheNull && r.st == Alloc(st).1
  {
    var (a, st') := Alloc(st);
    Res(Null(a), st')
  }

  /** Whether rendering o for output calls a method on nil: nil itself, a
      return value wrapping nil, or a collection holding such a value. */
  predicate InspectPanics(o: Obj)
    decreases o
  {
    match o
    case Nil => true
    case ReturnValue(_, inner) => InspectPanics(inner)
    case Array(_, es) => exists i :: 0 <= i < |es| && InspectPanics(es[i])
    case Map(_, ps) => exists k :: k in ps && (InspectPanics(ps[k].key) || InspectPanics(ps[k].value))
    case _ => false
  }
}
