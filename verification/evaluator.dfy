/** The tree-walking evaluator. Every evaluation threads the world (frame
    store and allocation counter) through its subterms from left to right
    and returns either an object with the new world, or an abort: a Go panic
    on a nil object, or the model's fuel running out. Fuel bounds loop
    iterations and function calls; every other step descends into a
    smaller piece of the tree. */
module Evaluator {
  import opened Basics
  import opened Int64
  import opened Ast
  import opened Object
  import opened Environment
  import opened Runtime
  import opened Builtins

  /** The results of evaluating a list of expressions. */
  datatype Many = Many(objs: seq<Obj>, st: State)

  // ---------------------------------------------------------------------
  // Operators

  /** `!`: TRUE for FALSE and for the NULL singleton, FALSE for everything
      else, nil included. */
  function Bang(o: Obj): (r: Obj)
    ensures r == NativeBool(!IsTruthy(o))
  {
    if o == TheTrue then TheFalse
    else if o == TheFalse then TheTrue
    else if o == TheNull then TheTrue
    else TheFalse
  }

  /** A prefix operator applied to an evaluated operand. */
  function EvalPrefix(op: Bytes, right: Obj): (r: Outcome<Obj>)
    ensures r.Abort? <==> op != "!" && right.Nil?
    ensures op == "!" ==> r == Done(NativeBool(!IsTruthy(right)))
    ensures op == "-" && right.Int? ==> r == Done(Int(Neg(right.value)))
    ensures op == "-" && !right.Int? && !right.Nil? ==>
      r == Done(Error("operator tidak dikenal: -" + TypeName(TypeOf(right))))
    ensures op != "!" && op != "-" && !right.Nil? ==>
      r == Done(Error("operator tidak dikenal: " + op + TypeName(TypeOf(right))))
  {
    if op == "!" then Done(Bang(right))
    else if right.Nil? then Abort(NilDereference)
    else if op == "-" then
      if right.Int? then Done(Int(Neg(right.value)))
      else Done(Error("operator tidak dikenal: -" + TypeName(TypeOf(right))))
    else Done(Error("operator tidak dikenal: " + op + TypeName(TypeOf(right))))
  }

  /** The error for an operator that the operand types do not support. */
  function UnknownOperator(l: Obj, op: Bytes, r: Obj): Obj
    requires !l.Nil? && !r.Nil?
  {
    Error("operator tidak dikenal: " + TypeName(TypeOf(l)) + " " + op + " " + TypeName(TypeOf(r)))
  }

  /** The error for operands of different types. */
  function TypeMismatch(l: Obj, op: Bytes, r: Obj): Obj
    requires !l.Nil? && !r.Nil?
  {
    Error("tipe tidak cocok: " + TypeName(TypeOf(l)) + " " + op + " " + TypeName(TypeOf(r)))
  }

  /** The arithmetic and comparison operators on integers. */
  const IntegerOps: set<Bytes> := {"+", "-", "*", "/", "%", "<", ">", "<=", ">=", "==", "!="}

  /** Two integers under an operator. */
  function IntegerInfix(op: Bytes, a: int64, b: int64): (r: Obj)
    ensures op !in IntegerOps ==> r == UnknownOperator(Int(a), op, Int(b))
    ensures (op == "/" || op == "%") && b == 0 ==> r == Error("pembagian dengan nol")
    ensures op == "<" ==> r == NativeBool(a < b)
    ensures op == ">" ==> r == NativeBool(a > b)
    ensures op == "<=" ==> r == NativeBool(a <= b)
    ensures op == ">=" ==> r == NativeBool(a >= b)
    ensures op == "==" ==> r == NativeBool(a == b)
    ensures op == "!=" ==> r == NativeBool(a != b)
    ensures op in {"+", "-", "*"} || ((op == "/" || op == "%") && b != 0) ==> r.Int?
  {
    if op == "+" then Int(Add(a, b))
    else if op == "-" then Int(Sub(a, b))
    else if op == "*" then Int(Mul(a, b))
    else if op == "/" then (if b == 0 then Error("pembagian dengan nol") else Int(Div(a, b)))
    else if op == "%" then (if b == 0 then Error("pembagian dengan nol") else Int(Mod(a, b)))
    else if op == "<" then NativeBool(a < b)
    else if op == ">" then NativeBool(a > b)
    else if op == "<=" then NativeBool(a <= b)
    else if op == ">=" then NativeBool(a >= b)
    else if op == "==" then NativeBool(a == b)
    else if op == "!=" then NativeBool(a != b)
    else UnknownOperator(Int(a), op, Int(b))
  }

  /** Two strings under an operator: only concatenation and comparison
      for equality are defined. */
  function StringInfix(op: Bytes, a: Bytes, b: Bytes): (r: Obj)
    ensures op == "+" ==> r.Str? && |r.text| == |a| + |b| && r.text[..|a|] == a && r.text[|a|..] == b
    ensures op == "==" || op == "!=" ==> r.Bool? && (r.truth <==> (a == b) == (op == "=="))
    ensures op != "+" && op != "==" && op != "!=" ==> r == UnknownOperator(Str(a), op, Str(b))
  {
    if op == "+" then Str(a + b)
    else if op == "==" then NativeBool(a == b)
    else if op == "!=" then NativeBool(a != b)
    else UnknownOperator(Str(a), op, Str(b))
  }

  /** Go's `==` on two objects: the same object. Every object that can
      reach this comparison carries its allocation address or is a
      singleton, so equality of the model values is identity. */
  predicate Identical(a: Obj, b: Obj) {
    a == b
  }

  /** The operators every pair of operands accepts. */
  const UniversalOps: set<Bytes> := {"==", "!=", "&&", "||"}

  /** Whether the infix dispatch asks nil for its type. The left operand is
      always asked; the right one when the left is an integer or a string,
      or when the operator is not one of the four universal ones. */
  predicate InfixPanics(op: Bytes, l: Obj, r: Obj) {
    l.Nil? || (r.Nil? && (l.Int? || l.Str? || op !in UniversalOps))
  }

  /** An infix operator applied to two evaluated operands. */
  function EvalInfix(op: Bytes, l: Obj, r: Obj): (res: Outcome<Obj>)
    ensures res.Abort? <==> InfixPanics(op, l, r)
    ensures l.Int? && r.Int? ==> res == Done(IntegerInfix(op, l.value, r.value))
    ensures l.Str? && r.Str? ==> res == Done(StringInfix(op, l.text, r.text))
  {
    if l.Nil? then Abort(NilDereference)
    else if (l.Int? || l.Str?) && r.Nil? then Abort(NilDereference)
    else if l.Int? && r.Int? then Done(IntegerInfix(op, l.value, r.value))
    else if l.Str? && r.Str? then Done(StringInfix(op, l.text, r.text))
    else if op == "==" then Done(NativeBool(Identical(l, r)))
    else if op == "!=" then Done(NativeBool(!Identical(l, r)))
    else if op == "&&" then Done(NativeBool(IsTruthy(l) && IsTruthy(r)))
    else if op == "||" then Done(NativeBool(IsTruthy(l) || IsTruthy(r)))
    else if r.Nil? then Abort(NilDereference)
    else if TypeOf(l) != TypeOf(r) then Done(TypeMismatch(l, op, r))
    else Done(UnknownOperator(l, op, r))
  }

  // ---------------------------------------------------------------------
  // Names, calls and indexing

  /** A name: the frame chain first, then the built-in table. */
  function EvalIdentifier(fs: Frames, env: FrameId, n: Bytes): (r: Obj)
    ensures Get(fs, env, n).Some? ==> r == Get(fs, env, n).value
    ensures Get(fs, env, n).None? && n in Table ==> r == Builtin(Table[n])
    ensures Get(fs, env, n).None? && n !in Table ==> r == Undefined(n)
  {
    match Get(fs, env, n)
    case Some(v) => v
    case None => if n in Table then Builtin(Table[n]) else Undefined(n)
  }

  function Undefined(n: Bytes): Obj {
    Error("variabel '" + n + "' belum didefinisikan")
  }

  /** Only a return value is unwrapped; every other result passes through. */
  function Unwrap(o: Obj): (r: Obj)
    ensures o.ReturnValue? ==> r == o.inner
    ensures !o.ReturnValue? ==> r == o
  {
    if o.ReturnValue? then o.inner else o
  }

  /** Binds params[i..] to the supplied arguments in frame id; parameters
      without an argument stay unbound. */
  function BindParams(fs: Frames, id: FrameId, params: seq<Bytes>, args: seq<Obj>, i: nat): (r: Frames)
    requires i <= |params|
    ensures |r| == |fs| && Grows(fs, r)
    ensures forall j :: 0 <= j < |fs| && j != id ==> r[j] == fs[j]
    decreases |params| - i
  {
    if i == |params| then fs
    else
      var fs' := if i < |args| then Set(fs, id, params[i], args[i]) else fs;
      BindParams(fs', id, params, args, i + 1)
  }

  /** The frame a call runs in: a child of the closure frame holding the
      parameters. */
  function ExtendFunctionEnv(fs: Frames, fn: Obj, args: seq<Obj>): (r: (Frames, FrameId))
    requires fn.Function?
    ensures r.1 == |fs| && |r.0| == |fs| + 1 && r.0[..|fs|] == fs && Grows(fs, r.0)
  {
    var (fs', id) := NewEnclosedEnvironment(fs, fn.env);
    (BindParams(fs', id, fn.params, args, 0), id)
  }

  /** Calling something that is not a user function: a built-in runs, nil
      panics, anything else is not callable. */
  function ApplyOther(f: Obj, args: seq<Obj>, st: State, h: Host): (r: Outcome<Res>)
    requires !f.Function?
    ensures f.Nil? ==> r.Abort?
    ensures !f.Nil? && !f.Builtin? ==> r == Done(Res(Error("bukan fungsi: " + TypeName(TypeOf(f))), st))
  {
    if f.Builtin? then CallBuiltin(f.fn, args, st, h)
    else if f.Nil? then Abort(NilDereference)
    else Done(Res(Error("bukan fungsi: " + TypeName(TypeOf(f))), st))
  }

  /** The error for a key that has no hash key. */
  function Unhashable(key: Obj): Obj
    requires !key.Nil?
  {
    Error("tipe " + TypeName(TypeOf(key)) + " tidak bisa digunakan sebagai kunci map")
  }

  /** Indexing an evaluated collection with an evaluated index. */
  function EvalIndex(l: Obj, i: Obj): (r: Outcome<Obj>)
    ensures r.Abort? <==> l.Nil? || (l.Array? && i.Nil?) || (l.Map? && i.Nil?)
    ensures l.Array? && i.Int? && 0 <= i.value < |l.elements| ==> r == Done(l.elements[i.value])
    ensures l.Array? && i.Int? && !(0 <= i.value < |l.elements|) ==> r == Done(TheNull)
    ensures l.Map? && !i.Nil? && HashKeyOf(i).None? ==> r == Done(Unhashable(i))
    ensures l.Map? && HashKeyOf(i).Some? ==>
      r == Done(if HashKeyOf(i).value in l.pairs then l.pairs[HashKeyOf(i).value].value else TheNull)
    ensures !l.Nil? && !l.Map? && !(l.Array? && (i.Int? || i.Nil?)) ==>
      r == Done(Error("tipe " + TypeName(TypeOf(l)) + " tidak bisa diakses dengan indeks"))
  {
    if l.Nil? then Abort(NilDereference)
    else if l.Array? && i.Nil? then Abort(NilDereference)
    else if l.Array? && i.Int? then
      Done(if 0 <= i.value < |l.elements| then l.elements[i.value] else TheNull)
    else if l.Map? then
      match HashKeyOf(i)
      case None => if i.Nil? then Abort(NilDereference) else Done(Unhashable(i))
      case Some(k) => Done(if k in l.pairs then l.pairs[k].value else TheNull)
    else Done(Error("tipe " + TypeName(TypeOf(l)) + " tidak bisa diakses dengan indeks"))
  }

  /** The store after an assignment's Update; the evaluator ignores
      Update's failure, so the store is then left as it is. */
  function Assigned(fs: Frames, env: FrameId, n: Bytes, v: Obj): (r: Frames)
    ensures SameNames(r, fs) && Grows(fs, r)
    ensures Get(fs, env, n).Some? ==> Get(r, env, n) == Some(v)
  {
    UpdateNeedsBinding(fs, env, n, v);
    match Update(fs, env, n, v)
    case Some(r) => UpdateThenGet(fs, env, n, v); r
    case None => fs
  }

  /** A function literal: a new closure over the current frame, also bound
      under its name when it has one. */
  function FunctionLiteral(e: Expr, env: FrameId, st: State): (r: Res)
    requires e.FnLit?
    ensures r.obj.Function? && r.obj.env == env && r.obj.body == e.body && r.obj.params == e.params
    ensures r.obj.addr > st.next && r.st.next == r.obj.addr
    ensures e.fname != "" ==> r.st.frames == Set(st.frames, env, e.fname, r.obj)
    ensures e.fname == "" ==> r.st.frames == st.frames
  {
    var (a, st') := Alloc(st);
    var fn := Function(a, e.fname, e.params, e.body, env);
    Res(fn, if e.fname != "" then st'.(frames := Set(st'.frames, env, e.fname, fn)) else st')
  }

  /** The results that end a block early. */
  predicate IsSignal(o: Obj) {
    o.ReturnValue? || o.Error? || o.Break? || o.Continue?
  }

  /** The world only grows: no frame is removed or re-parented, no binding
      or constant mark is dropped, and no address is handed out twice. */
  predicate Extends(a: State, b: State) {
    Grows(a.frames, b.frames) && a.next <= b.next
  }

  // ---------------------------------------------------------------------
  // Evaluation

  function Eval(fuel: nat, e: Expr, env: FrameId, st: State, h: Host): (r: Outcome<Res>)
    ensures r.Done? ==> Extends(st, r.value.st)
    decreases fuel, e, 2
  {
    match e
    case IntLit(n) => Done(Res(Int(n), st))
    case StrLit(s) => Done(Res(Str(s), st))
    case BoolLit(b) => Done(Res(NativeBool(b), st))
    case NullLit => Done(Res(TheNull, st))
    case Ident(n) => Done(Res(EvalIdentifier(st.frames, env, n), st))
    case Prefix(_, _) => EvalPrefixExpr(fuel, e, env, st, h)
    case Infix(_, _, _) => EvalInfixExpr(fuel, e, env, st, h)
    case Assign(_, _) => EvalAssign(fuel, e, env, st, h)
    case If(_, _, _) => EvalIf(fuel, e, env, st, h)
    case FnLit(_, _, _) => Done(FunctionLiteral(e, env, st))
    case Call(_, _) => EvalCall(fuel, e, env, st, h)
    case ArrayLit(_) => EvalArray(fuel, e, env, st, h)
    case Index(_, _) => EvalIndexExpr(fuel, e, env, st, h)
    case MapLit(_) => EvalEntries(fuel, e.entries, env, st, h, map[])
  }

  function EvalPrefixExpr(fuel: nat, e: Expr, env: FrameId, st: State, h: Host): (r: Outcome<Res>)
    ensures r.Done? ==> Extends(st, r.value.st)
    requires e.Prefix?
    decreases fuel, e, 1
  {
    var r :- Eval(fuel, e.right, env, st, h);
    if IsError(r.obj) then Done(r)
    else
      var o :- EvalPrefix(e.op, r.obj);
      Done(Res(o, r.st))
  }

  function EvalInfixExpr(fuel: nat, e: Expr, env: FrameId, st: State, h: Host): (r: Outcome<Res>)
    ensures r.Done? ==> Extends(st, r.value.st)
    requires e.Infix?
    decreases fuel, e, 1
  {
    var l :- Eval(fuel, e.left, env, st, h);
    if IsError(l.obj) then Done(l)
    else
      var r :- Eval(fuel, e.right, env, l.st, h);
      if IsError(r.obj) then Done(r)
      else
        var o :- EvalInfix(e.op, l.obj, r.obj);
        Done(Res(o, r.st))
  }

  /** Assignment: refused for a constant, refused for an unbound name,
      otherwise the value overwrites the nearest binding. */
  function EvalAssign(fuel: nat, e: Expr, env: FrameId, st: State, h: Host): (r: Outcome<Res>)
    ensures r.Done? ==> Extends(st, r.value.st)
    requires e.Assign?
    decreases fuel, e, 1
  {
    if IsConst(st.frames, env, e.target) then
      Done(Res(Error("tidak bisa mengubah konstanta '" + e.target + "'"), st))
    else if Get(st.frames, env, e.target).None? then
      Done(Res(Undefined(e.target), st))
    else
      var v :- Eval(fuel, e.rhs, env, st, h);
      if IsError(v.obj) then Done(v)
      else
        Done(Res(v.obj, v.st.(frames := Assigned(v.st.frames, env, e.target, v.obj))))
  }

  function EvalIf(fuel: nat, e: Expr, env: FrameId, st: State, h: Host): (r: Outcome<Res>)
    ensures r.Done? ==> Extends(st, r.value.st)
    requires e.If?
    decreases fuel, e, 1
  {
    var c :- Eval(fuel, e.cond, env, st, h);
    if IsError(c.obj) then Done(c)
    else if IsTruthy(c.obj) then RunBlock(fuel, e.cons.stmts, env, c.st, h, Nil)
    else if e.alt.Some? then RunBlock(fuel, e.alt.value.stmts, env, c.st, h, Nil)
    else Done(Res(TheNull, c.st))
  }

  /** A call: the callee, then the arguments, then the application. Each
      call of a user function costs one unit of fuel. */
  function EvalCall(fuel: nat, e: Expr, env: FrameId, st: State, h: Host): (r: Outcome<Res>)
    ensures r.Done? ==> Extends(st, r.value.st)
    requires e.Call?
    decreases fuel, e, 1
  {
    var f :- Eval(fuel, e.callee, env, st, h);
    if IsError(f.obj) then Done(f)
    else
      var a :- EvalExprs(fuel, e.args, env, f.st, h, []);
      if |a.objs| == 1 && IsError(a.objs[0]) then Done(Res(a.objs[0], a.st))
      else if !f.obj.Function? then ApplyOther(f.obj, a.objs, a.st, h)
      else if fuel == 0 then Abort(OutOfFuel)
      else CallFunction(fuel - 1, f.obj, a.objs, a.st, h)
  }

  /** Runs a user function's body in a fresh frame under its closure frame
      and unwraps a returned value. */
  function CallFunction(fuel: nat, fn: Obj, args: seq<Obj>, st: State, h: Host): (r: Outcome<Res>)
    ensures r.Done? ==> Extends(st, r.value.st)
    requires fn.Function?
    decreases fuel
  {
    var (fs, id) := ExtendFunctionEnv(st.frames, fn, args);
    var b :- RunBlock(fuel, fn.body.stmts, id, st.(frames := fs), h, Nil);
    Done(Res(Unwrap(b.obj), b.st))
  }

  /** Evaluates expressions left to right onto acc; the first error replaces
      the whole list. */
  function EvalExprs(fuel: nat, es: seq<Expr>, env: FrameId, st: State, h: Host, acc: seq<Obj>): (r: Outcome<Many>)
    ensures r.Done? ==> Extends(st, r.value.st)
    decreases fuel, es
  {
    if es == [] then Done(Many(acc, st))
    else
      var r :- Eval(fuel, es[0], env, st, h);
      if IsError(r.obj) then Done(Many([r.obj], r.st))
      else EvalExprs(fuel, es[1..], env, r.st, h, acc + [r.obj])
  }

  function EvalArray(fuel: nat, e: Expr, env: FrameId, st: State, h: Host): (r: Outcome<Res>)
    ensures r.Done? ==> Extends(st, r.value.st)
    requires e.ArrayLit?
    decreases fuel, e, 1
  {
    var a :- EvalExprs(fuel, e.elements, env, st, h, []);
    if |a.objs| == 1 && IsError(a.objs[0]) then Done(Res(a.objs[0], a.st))
    else
      var (addr, st') := Alloc(a.st);
      Done(Res(Array(addr, a.objs), st'))
  }

  function EvalIndexExpr(fuel: nat, e: Expr, env: FrameId, st: State, h: Host): (r: Outcome<Res>)
    ensures r.Done? ==> Extends(st, r.value.st)
    requires e.Index?
    decreases fuel, e, 1
  {
    var l :- Eval(fuel, e.collection, env, st, h);
    if IsError(l.obj) then Done(l)
    else
      var i :- Eval(fuel, e.index, env, l.st, h);
      if IsError(i.obj) then Done(i)
      else
        var o :- EvalIndex(l.obj, i.obj);
        Done(Res(o, i.st))
  }

  /** How one map-literal entry ends: it stops the literal with a result,
      or yields a key and a pair to store. */
  datatype EntryStep = Stop(res: Res) | Next(key: HashKey, pair: MapPair, st: State)

  /** One map-literal entry: the key, which must be hashable, then the
      value. */
  function EvalEntry(fuel: nat, en: Entry, env: FrameId, st: State, h: Host): (r: Outcome<EntryStep>)
    ensures r.Done? && r.value.Stop? ==> Extends(st, r.value.res.st)
    ensures r.Done? && r.value.Next? ==> Extends(st, r.value.st) && HashKeyOf(r.value.pair.key) == Some(r.value.key)
    decreases fuel, en, 1
  {
    var k :- Eval(fuel, en.key, env, st, h);
    if IsError(k.obj) then Done(Stop(k))
    else match HashKeyOf(k.obj)
      case None =>
        if k.obj.Nil? then Abort(NilDereference) else Done(Stop(Res(Unhashable(k.obj), k.st)))
      case Some(hk) =>
        var v :- Eval(fuel, en.value, env, k.st, h);
        if IsError(v.obj) then Done(Stop(v)) else Done(Next(hk, MapPair(k.obj, v.obj), v.st))
  }

  /** A map literal's entries, in the order written. A later entry with the
      same hash key replaces an earlier one. */
  function EvalEntries(fuel: nat, entries: seq<Entry>, env: FrameId, st: State, h: Host,
                       pairs: map<HashKey, MapPair>): (r: Outcome<Res>)
    ensures r.Done? ==> Extends(st, r.value.st)
    decreases fuel, entries
  {
    if entries == [] then
      var (a, st') := Alloc(st);
      Done(Res(Map(a, pairs), st'))
    else
      var step :- EvalEntry(fuel, entries[0], env, st, h);
      match step
      case Stop(r) => Done(r)
      case Next(hk, pair, st') => EvalEntries(fuel, entries[1..], env, st', h, pairs[hk := pair])
  }

  // ---------------------------------------------------------------------
  // Statements

  function EvalStmt(fuel: nat, s: Stmt, env: FrameId, st: State, h: Host): (r: Outcome<Res>)
    ensures r.Done? ==> Extends(st, r.value.st)
    decreases fuel, s, 2
  {
    match s
    case Let(n, x) =>
      var v :- Eval(fuel, x, env, st, h);
      if IsError(v.obj) then Done(v)
      else Done(Res(v.obj, v.st.(frames := Set(v.st.frames, env, n, v.obj))))
    case Const(n, x) =>
      var v :- Eval(fuel, x, env, st, h);
      if IsError(v.obj) then Done(v)
      else Done(Res(v.obj, v.st.(frames := SetConst(v.st.frames, env, n, v.obj))))
    case Return(x) =>
      var v :- Eval(fuel, x, env, st, h);
      if IsError(v.obj) then Done(v)
      else
        var (a, st') := Alloc(v.st);
        Done(Res(ReturnValue(a, v.obj), st'))
    case While(_, _) => WhileLoop(fuel, s, env, st, h, TheNull)
    case For(_, _, _, _) => EvalFor(fuel, s, env, st, h)
    case Break =>
      var (a, st') := Alloc(st);
      Done(Res(Obj.Break(a), st'))
    case Continue =>
      var (a, st') := Alloc(st);
      Done(Res(Obj.Continue(a), st'))
    case ExprStmt(x) => Eval(fuel, x, env, st, h)
  }

  /** The statements of a block in order, in the block's frame; the first
      return, error, break or continue ends the block and is its result.
      `last` is the result of the statements already run (nil for none). */
  function RunBlock(fuel: nat, stmts: seq<Stmt>, env: FrameId, st: State, h: Host, last: Obj): (r: Outcome<Res>)
    ensures r.Done? ==> Extends(st, r.value.st)
    decreases fuel, stmts
  {
    if stmts == [] then Done(Res(last, st))
    else
      var r :- EvalStmt(fuel, stmts[0], env, st, h);
      if IsSignal(r.obj) then Done(r)
      else RunBlock(fuel, stmts[1..], env, r.st, h, r.obj)
  }

  /** A while loop from its test, in the current frame. `result` is the
      last body result (TheNull before the first iteration). Each further
      iteration costs one unit of fuel. */
  function WhileLoop(fuel: nat, s: Stmt, env: FrameId, st: State, h: Host, result: Obj): (r: Outcome<Res>)
    ensures r.Done? ==> Extends(st, r.value.st)
    requires s.While?
    decreases fuel, s, 1
  {
    var c :- Eval(fuel, s.cond, env, st, h);
    if IsError(c.obj) then Done(c)
    else if !IsTruthy(c.obj) then Done(Res(result, c.st))
    else
      var b :- RunBlock(fuel, s.body.stmts, env, c.st, h, Nil);
      if b.obj.ReturnValue? || b.obj.Error? then Done(b)
      else if b.obj.Break? then Done(Res(TheNull, b.st))
      else if fuel == 0 then Abort(OutOfFuel)
      else WhileLoop(fuel - 1, s, env, b.st, h, b.obj)
  }

  /** A for loop: a fresh child frame, the initialiser, then the loop. */
  function EvalFor(fuel: nat, s: Stmt, env: FrameId, st: State, h: Host): (r: Outcome<Res>)
    ensures r.Done? ==> Extends(st, r.value.st)
    requires s.For?
    decreases fuel, s, 1
  {
    var (fs, id) := NewEnclosedEnvironment(st.frames, env);
    var st1 := st.(frames := fs);
    if s.init.None? then ForLoop(fuel, s, id, st1, h, TheNull)
    else
      var i :- EvalStmt(fuel, s.init.value, id, st1, h);
      if IsError(i.obj) then Done(i)
      else ForLoop(fuel, s, id, i.st, h, TheNull)
  }

  /** A for loop from its test, in the loop's own frame. A missing test
      counts as true. A continue goes on to the update. Each further
      iteration costs one unit of fuel. */
  function ForLoop(fuel: nat, s: Stmt, id: FrameId, st: State, h: Host, result: Obj): (r: Outcome<Res>)
    ensures r.Done? ==> Extends(st, r.value.st)
    requires s.For?
    decreases fuel, s, 0
  {
    var c :- if s.test.Some? then Eval(fuel, s.test.value, id, st, h) else Done(Res(TheTrue, st));
    if IsError(c.obj) then Done(c)
    else if !IsTruthy(c.obj) then Done(Res(result, c.st))
    else
      var b :- RunBlock(fuel, s.body.stmts, id, c.st, h, Nil);
      if b.obj.ReturnValue? || b.obj.Error? then Done(b)
      else if b.obj.Break? then Done(Res(TheNull, b.st))
      else
        var u :- if s.update.Some? then EvalStmt(fuel, s.update.value, id, b.st, h) else Done(Res(TheNull, b.st));
        if IsError(u.obj) then Done(u)
        else if fuel == 0 then Abort(OutOfFuel)
        else ForLoop(fuel - 1, s, id, u.st, h, b.obj)
  }

  // ---------------------------------------------------------------------
  // Programs

  /** The statements of a program in the root frame: a return value ends
      the program with the value inside it, an error ends it as it is, and
      a stray break or continue does not end it. */
  function RunProgram(fuel: nat, stmts: seq<Stmt>, env: FrameId, st: State, h: Host, last: Obj): (r: Outcome<Res>)
    ensures r.Done? ==> Extends(st, r.value.st)
    decreases stmts
  {
    if stmts == [] then Done(Res(last, st))
    else
      var r :- EvalStmt(fuel, stmts[0], env, st, h);
      if r.obj.ReturnValue? then Done(Res(r.obj.inner, r.st))
      else if r.obj.Error? then Done(r)
      else RunProgram(fuel, stmts[1..], env, r.st, h, r.obj)
  }

  function EvalProgram(fuel: nat, p: Program, h: Host): Outcome<Res> {
    RunProgram(fuel, p.stmts, 0, Start(), h, Nil)
  }
}
