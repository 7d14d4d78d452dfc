/** What the evaluator promises: the arithmetic it performs, how operators
    dispatch on their operands, how signals travel through blocks, loops,
    programs and calls, and how bindings are made and changed. */
module EvaluatorFacts {
  import opened Basics
  import opened Int64
  import opened Ast
  import opened Object
  import opened Environment
  import opened Runtime
  import opened Builtins
  import opened Evaluator

  // ---------------------------------------------------------------------
  // Integer arithmetic

  /** `+`, `-` and `*` give the int64 congruent to the exact result modulo
      2^64, which is the exact result whenever that fits. */
  lemma ArithmeticWraps(a: int64, b: int64)
    ensures var s, d, p := IntegerInfix("+", a, b), IntegerInfix("-", a, b), IntegerInfix("*", a, b);
      s.Int? && (s.value - (a + b)) % TWO_64 == 0 &&
      d.Int? && (d.value - (a - b)) % TWO_64 == 0 &&
      p.Int? && (p.value - a * b) % TWO_64 == 0
    ensures MIN_INT64 <= a + b <= MAX_INT64 ==> IntegerInfix("+", a, b) == Int(a + b)
    ensures MIN_INT64 <= a - b <= MAX_INT64 ==> IntegerInfix("-", a, b) == Int(a - b)
    ensures MIN_INT64 <= a * b <= MAX_INT64 ==> IntegerInfix("*", a, b) == Int(a * b)
  {
  }

  /** `/` and `%` truncate toward zero: quotient and remainder recombine to
      the dividend, the remainder is smaller than the divisor and takes the
      dividend's sign. The one overflowing quotient wraps. */
  lemma DivisionTruncates(a: int64, b: int64)
    requires b != 0
    ensures var q, m := IntegerInfix("/", a, b), IntegerInfix("%", a, b);
      q.Int? && m.Int? &&
      Abs(m.value) < Abs(b) && (m.value == 0 || (m.value < 0) == (a < 0)) &&
      (!(a == MIN_INT64 && b == -1) ==> a == b * q.value + m.value) &&
      (a == MIN_INT64 && b == -1 ==> q.value == MIN_INT64 && m.value == 0)
  {
    QuotRem(a, b);
    DivExact(a, b);
  }

  /** Dividing by a literal zero is the error "pembagian dengan nol". */
  lemma DivisionByZero(fuel: nat, a: int64, op: Bytes, env: FrameId, st: State, h: Host)
    requires op == "/" || op == "%"
    ensures Eval(fuel, Infix(IntLit(a), op, IntLit(0)), env, st, h) ==
      Done(Res(Error("pembagian dengan nol"), st))
  {
    var e := Infix(IntLit(a), op, IntLit(0));
    assert Eval(fuel, IntLit(a), env, st, h) == Done(Res(Int(a), st));
    assert Eval(fuel, IntLit(0), env, st, h) == Done(Res(Int(0), st));
    assert EvalInfix(op, Int(a), Int(0)) == Done(Error("pembagian dengan nol"));
    assert Eval(fuel, e, env, st, h) == EvalInfixExpr(fuel, e, env, st, h);
  }

  // ---------------------------------------------------------------------
  // Truth and prefix operators

  /** Zero, the empty string, nil and a freshly allocated null are all
      true; only the NULL singleton and FALSE are false. */
  lemma TruthOfValues(st: State)
    ensures IsTruthy(Int(0)) && IsTruthy(Str("")) && IsTruthy(Nil) && IsTruthy(FreshNull(st).obj)
    ensures !IsTruthy(TheNull) && !IsTruthy(TheFalse) && IsTruthy(TheTrue)
  {
  }

  /** `yen`: an error in the condition is the result; otherwise a truthy
      condition runs the consequence, and a falsy one runs the alternative,
      or yields NULL when there is none. An abort in the condition aborts
      the whole expression. */
  lemma IfChooses(fuel: nat, cond: Expr, cons: Block, alt: Option<Block>, env: FrameId, st: State, h: Host)
    ensures var r := Eval(fuel, If(cond, cons, alt), env, st, h);
      match Eval(fuel, cond, env, st, h)
      case Abort(why) => r == Abort(why)
      case Done(c) =>
        (IsError(c.obj) ==> r == Done(c)) &&
        (!IsError(c.obj) && IsTruthy(c.obj) ==> r == RunBlock(fuel, cons.stmts, env, c.st, h, Nil)) &&
        (!IsError(c.obj) && !IsTruthy(c.obj) && alt.Some? ==> r == RunBlock(fuel, alt.value.stmts, env, c.st, h, Nil)) &&
        (!IsError(c.obj) && !IsTruthy(c.obj) && alt.None? ==> r == Done(Res(TheNull, c.st)))
  {
    var e := If(cond, cons, alt);
    assert Eval(fuel, e, env, st, h) == EvalIf(fuel, e, env, st, h);
  }

  /** `yen (1 > 2) { 10 } neng { 20 }` is 20, `yen (1) { 10 }` is 10 since
      every integer is truthy, and `yen (salah) { 10 }` is NULL. */
  lemma IfExamples(fuel: nat, env: FrameId, st: State, h: Host)
    ensures Eval(fuel, If(Infix(IntLit(1), ">", IntLit(2)), Block([ExprStmt(IntLit(10))]),
                          Some(Block([ExprStmt(IntLit(20))]))), env, st, h) == Done(Res(Int(20), st))
    ensures Eval(fuel, If(IntLit(1), Block([ExprStmt(IntLit(10))]), None), env, st, h) == Done(Res(Int(10), st))
    ensures Eval(fuel, If(BoolLit(false), Block([ExprStmt(IntLit(10))]), None), env, st, h) == Done(Res(TheNull, st))
  {
    var gt := Infix(IntLit(1), ">", IntLit(2));
    assert Eval(fuel, IntLit(1), env, st, h) == Done(Res(Int(1), st));
    assert Eval(fuel, IntLit(2), env, st, h) == Done(Res(Int(2), st));
    assert EvalInfix(">", Int(1), Int(2)) == Done(TheFalse);
    assert Eval(fuel, gt, env, st, h) == EvalInfixExpr(fuel, gt, env, st, h);
    IfChooses(fuel, gt, Block([ExprStmt(IntLit(10))]), Some(Block([ExprStmt(IntLit(20))])), env, st, h);
    SingleExprBlock(fuel, 20, env, st, h);
    IfChooses(fuel, IntLit(1), Block([ExprStmt(IntLit(10))]), None, env, st, h);
    SingleExprBlock(fuel, 10, env, st, h);
    IfChooses(fuel, BoolLit(false), Block([ExprStmt(IntLit(10))]), None, env, st, h);
  }

  /** A block holding one integer literal yields that integer. */
  lemma SingleExprBlock(fuel: nat, n: int64, env: FrameId, st: State, h: Host)
    ensures RunBlock(fuel, [ExprStmt(IntLit(n))], env, st, h, Nil) == Done(Res(Int(n), st))
  {
    assert EvalStmt(fuel, ExprStmt(IntLit(n)), env, st, h) == Done(Res(Int(n), st));
    assert [ExprStmt(IntLit(n))][1..] == [];
  }

  /** `!!x` is the truth value of x as a boolean. */
  lemma DoubleBang(o: Obj)
    ensures Bang(Bang(o)) == NativeBool(IsTruthy(o))
  {
  }

  /** Unary minus wraps: the minimum int64 is its own negation. */
  lemma NegateMinimum()
    ensures EvalPrefix("-", Int(MIN_INT64)) == Done(Int(MIN_INT64))
  {
    assert Neg(MIN_INT64) == MIN_INT64;
  }

  // ---------------------------------------------------------------------
  // Infix dispatch

  /** An error in the left operand is the result, whatever the right
      operand is: the right one is never evaluated. */
  lemma InfixLeftErrorFirst(fuel: nat, l: Expr, op: Bytes, right: Expr, env: FrameId, st: State, h: Host, e: Res)
    requires Eval(fuel, l, env, st, h) == Done(e) && IsError(e.obj)
    ensures Eval(fuel, Infix(l, op, right), env, st, h) == Done(e)
  {
  }

  /** An error in the right operand is the result once the left one is
      not an error. */
  lemma InfixRightError(fuel: nat, l: Expr, op: Bytes, right: Expr, env: FrameId, st: State, h: Host, a: Res, e: Res)
    requires Eval(fuel, l, env, st, h) == Done(a) && !IsError(a.obj)
    requires Eval(fuel, right, env, a.st, h) == Done(e) && IsError(e.obj)
    ensures Eval(fuel, Infix(l, op, right), env, st, h) == Done(e)
  {
  }

  /** Both operands are evaluated, left to right, before the operator is
      applied; the right operand sees the state the left one left behind. */
  lemma InfixOfValues(fuel: nat, l: Expr, op: Bytes, right: Expr, env: FrameId, st: State, h: Host, a: Res, b: Res)
    requires Eval(fuel, l, env, st, h) == Done(a) && !IsError(a.obj)
    requires Eval(fuel, right, env, a.st, h) == Done(b) && !IsError(b.obj)
    ensures Eval(fuel, Infix(l, op, right), env, st, h) ==
      match EvalInfix(op, a.obj, b.obj)
      case Abort(why) => Abort(why)
      case Done(o) => Done(Res(o, b.st))
  {
    var e := Infix(l, op, right);
    assert Eval(fuel, e, env, st, h) == EvalInfixExpr(fuel, e, env, st, h);
  }

  /** `1 && 2` is not a truth test: two integers take the integer table,
      which has no `&&`. */
  lemma AndOnIntegers()
    ensures EvalInfix("&&", Int(1), Int(2)) == Done(Error("operator tidak dikenal: INTEGER && INTEGER"))
  {
    assert "&&" !in IntegerOps;
    assert TypeName(TypeOf(Int(1))) == "INTEGER";
    assert "operator tidak dikenal: " + "INTEGER" + " " + "&&" + " " + "INTEGER" ==
      "operator tidak dikenal: INTEGER && INTEGER";
  }

  /** Operands that are not both integers or both strings: the four
      universal operators compare identity or combine truth, and any other
      operator is a type mismatch when the types differ and an unknown
      operator when they agree. */
  lemma InfixOnOtherOperands(op: Bytes, l: Obj, r: Obj)
    requires !InfixPanics(op, l, r) && !(l.Int? && r.Int?) && !(l.Str? && r.Str?)
    ensures op == "==" ==> EvalInfix(op, l, r) == Done(NativeBool(Identical(l, r)))
    ensures op == "!=" ==> EvalInfix(op, l, r) == Done(NativeBool(!Identical(l, r)))
    ensures op == "&&" ==> EvalInfix(op, l, r) == Done(NativeBool(IsTruthy(l) && IsTruthy(r)))
    ensures op == "||" ==> EvalInfix(op, l, r) == Done(NativeBool(IsTruthy(l) || IsTruthy(r)))
    ensures op !in UniversalOps ==>
      !l.Nil? && !r.Nil? &&
      EvalInfix(op, l, r) == Done(if TypeOf(l) != TypeOf(r) then TypeMismatch(l, op, r) else UnknownOperator(l, op, r))
  {
  }

  /** The four universal operators are symmetric on non-nil operands, and
      `!=` always answers the opposite of `==`. */
  lemma UniversalOpsSymmetric(op: Bytes, l: Obj, r: Obj)
    requires op in UniversalOps && !l.Nil? && !r.Nil?
    ensures EvalInfix(op, l, r) == EvalInfix(op, r, l)
    ensures EvalInfix("==", l, r).Done? && EvalInfix("==", l, r).value.Bool?
    ensures EvalInfix("!=", l, r) == Done(NativeBool(!EvalInfix("==", l, r).value.truth))
  {
  }

  /** Equality on collections is identity: two arrays with the same
      elements at different addresses are not equal, and an integer never
      equals a string. */
  lemma EqualityIsIdentity(a: Addr, b: Addr, es: seq<Obj>, n: int64, s: Bytes)
    requires a != b
    ensures EvalInfix("==", Array(a, es), Array(b, es)) == Done(TheFalse)
    ensures EvalInfix("==", Array(a, es), Array(a, es)) == Done(TheTrue)
    ensures EvalInfix("==", Int(n), Str(s)) == Done(TheFalse)
  {
  }

  /** A null allocated by a built-in is true and is not equal to the null
      literal. */
  lemma FreshNullIsNotNull(st: State)
    ensures IsTruthy(FreshNull(st).obj)
    ensures EvalInfix("==", FreshNull(st).obj, TheNull) == Done(TheFalse)
  {
  }

  /** Nil (what an empty body yields) panics as a left operand, and as a
      right operand next to an integer, but compares unequal to a boolean. */
  lemma NilOperands(op: Bytes, o: Obj, b: bool)
    ensures EvalInfix(op, Nil, o).Abort?
    ensures EvalInfix(op, Int(0), Nil).Abort?
    ensures EvalInfix("==", Bool(b), Nil) == Done(TheFalse)
  {
  }

  // ---------------------------------------------------------------------
  // Blocks and programs

  /** Running a + b runs a, then b from where a left off, unless a ended
      with a signal. */
  lemma {:induction false} RunBlockAppend(fuel: nat, a: seq<Stmt>, b: seq<Stmt>, env: FrameId, st: State, h: Host, last: Obj)
    requires !IsSignal(last)
    ensures RunBlock(fuel, a + b, env, st, h, last) ==
      match RunBlock(fuel, a, env, st, h, last)
      case Abort(why) => Abort(why)
      case Done(r) => if IsSignal(r.obj) then Done(r) else RunBlock(fuel, b, env, r.st, h, r.obj)
    decreases |a|
  {
    if a == [] {
      assert a + b == b;
    } else {
      assert (a + b)[0] == a[0] && (a + b)[1..] == a[1..] + b;
      match EvalStmt(fuel, a[0], env, st, h)
      case Abort(_) =>
      case Done(r) =>
        if !IsSignal(r.obj) {
          RunBlockAppend(fuel, a[1..], b, env, r.st, h, r.obj);
        }
    }
  }

  /** The first return, error, break or continue ends a block unchanged;
      nothing after it runs. */
  lemma BlockStopsAtSignal(fuel: nat, s: Stmt, rest: seq<Stmt>, env: FrameId, st: State, h: Host, last: Obj, r: Res)
    requires EvalStmt(fuel, s, env, st, h) == Done(r) && IsSignal(r.obj)
    ensures RunBlock(fuel, [s] + rest, env, st, h, last) == Done(r)
  {
    assert ([s] + rest)[0] == s;
  }

  /** An empty block and an empty program yield nil. */
  lemma EmptyYieldsNil(fuel: nat, env: FrameId, st: State, h: Host)
    ensures RunBlock(fuel, [], env, st, h, Nil) == Done(Res(Nil, st))
    ensures EvalProgram(fuel, Program([]), h) == Done(Res(Nil, Start()))
  {
  }

  /** At the top level a return ends the program with the value inside it,
      where a block would pass the wrapper on. */
  lemma ProgramUnwrapsReturn(fuel: nat, s: Stmt, rest: seq<Stmt>, env: FrameId, st: State, h: Host, last: Obj, r: Res)
    requires EvalStmt(fuel, s, env, st, h) == Done(r) && r.obj.ReturnValue?
    ensures RunProgram(fuel, [s] + rest, env, st, h, last) == Done(Res(r.obj.inner, r.st))
    ensures RunBlock(fuel, [s] + rest, env, st, h, last) == Done(r)
  {
    assert ([s] + rest)[0] == s;
  }

  /** A break or continue at the top level does not stop the program,
      although it stops a block. */
  lemma ProgramPassesLoopSignals(fuel: nat, s: Stmt, rest: seq<Stmt>, env: FrameId, st: State, h: Host, last: Obj, r: Res)
    requires EvalStmt(fuel, s, env, st, h) == Done(r) && (r.obj.Break? || r.obj.Continue?)
    ensures RunProgram(fuel, [s] + rest, env, st, h, last) == RunProgram(fuel, rest, env, r.st, h, r.obj)
    ensures RunBlock(fuel, [s] + rest, env, st, h, last) == Done(r)
  {
    assert ([s] + rest)[0] == s && ([s] + rest)[1..] == rest;
  }

  // ---------------------------------------------------------------------
  // Loops

  /** A while loop whose condition is false at the start yields NULL. */
  lemma WhileFalseAtStart(fuel: nat, cond: Expr, body: Block, env: FrameId, st: State, h: Host, c: Res)
    requires Eval(fuel, cond, env, st, h) == Done(c) && !IsError(c.obj) && !IsTruthy(c.obj)
    ensures EvalStmt(fuel, While(cond, body), env, st, h) == Done(Res(TheNull, c.st))
  {
  }

  /** The condition's error ends the loop. */
  lemma WhileConditionError(fuel: nat, s: Stmt, env: FrameId, st: State, h: Host, result: Obj, c: Res)
    requires s.While? && Eval(fuel, s.cond, env, st, h) == Done(c) && IsError(c.obj)
    ensures WhileLoop(fuel, s, env, st, h, result) == Done(c)
  {
  }

  /** After a true condition, a break in the body ends the loop with NULL,
      and a return or error in the body ends it with that signal. */
  lemma WhileBodySignals(fuel: nat, s: Stmt, env: FrameId, st: State, h: Host, result: Obj, c: Res, b: Res)
    requires s.While? && Eval(fuel, s.cond, env, st, h) == Done(c) && !IsError(c.obj) && IsTruthy(c.obj)
    requires RunBlock(fuel, s.body.stmts, env, c.st, h, Nil) == Done(b)
    ensures b.obj.Break? ==> WhileLoop(fuel, s, env, st, h, result) == Done(Res(TheNull, b.st))
    ensures b.obj.ReturnValue? || b.obj.Error? ==> WhileLoop(fuel, s, env, st, h, result) == Done(b)
  {
  }

  /** A continue goes back to the test, and when the test then fails the
      loop's result is the continue signal itself. */
  lemma WhileEndsOnContinue(fuel: nat, s: Stmt, env: FrameId, st: State, h: Host, result: Obj, c: Res, b: Res, c2: Res)
    requires s.While? && fuel > 0
    requires Eval(fuel, s.cond, env, st, h) == Done(c) && !IsError(c.obj) && IsTruthy(c.obj)
    requires RunBlock(fuel, s.body.stmts, env, c.st, h, Nil) == Done(b) && b.obj.Continue?
    requires Eval(fuel - 1, s.cond, env, b.st, h) == Done(c2) && !IsError(c2.obj) && !IsTruthy(c2.obj)
    ensures WhileLoop(fuel, s, env, st, h, result) == Done(Res(b.obj, c2.st))
  {
    assert WhileLoop(fuel, s, env, st, h, result) == WhileLoop(fuel - 1, s, env, b.st, h, b.obj);
  }

  /** After a true condition, a body that ends normally or with continue
      sends the loop back to its test with that result as the loop's
      value so far. */
  lemma WhileRepeats(fuel: nat, s: Stmt, env: FrameId, st: State, h: Host, result: Obj, c: Res, b: Res)
    requires s.While? && fuel > 0
    requires Eval(fuel, s.cond, env, st, h) == Done(c) && !IsError(c.obj) && IsTruthy(c.obj)
    requires RunBlock(fuel, s.body.stmts, env, c.st, h, Nil) == Done(b)
    requires !b.obj.ReturnValue? && !b.obj.Error? && !b.obj.Break?
    ensures WhileLoop(fuel, s, env, st, h, result) == WhileLoop(fuel - 1, s, env, b.st, h, b.obj)
  {
  }

  /** A finished while loop never yields a break signal: a break in the
      body becomes NULL, and the value carried between iterations is never
      a break. The store only grows along the way. */
  lemma {:induction false} WhileYieldsNoBreak(fuel: nat, s: Stmt, env: FrameId, st: State, h: Host, result: Obj)
    requires s.While? && !result.Break?
    ensures var r := WhileLoop(fuel, s, env, st, h, result);
      r.Done? ==> !r.value.obj.Break? && Extends(st, r.value.st)
    decreases fuel
  {
    match Eval(fuel, s.cond, env, st, h)
    case Abort(_) =>
    case Done(c) =>
      if !IsError(c.obj) && IsTruthy(c.obj) {
        match RunBlock(fuel, s.body.stmts, env, c.st, h, Nil)
        case Abort(_) =>
        case Done(b) =>
          if !b.obj.ReturnValue? && !b.obj.Error? && !b.obj.Break? && fuel > 0 {
            WhileYieldsNoBreak(fuel - 1, s, env, b.st, h, b.obj);
          }
      }
  }

  /** The test of a for loop: a missing test counts as TRUE. */
  function ForTest(fuel: nat, s: Stmt, id: FrameId, st: State, h: Host): Outcome<Res>
    requires s.For?
  {
    if s.test.Some? then Eval(fuel, s.test.value, id, st, h) else Done(Res(TheTrue, st))
  }

  /** A finished for loop never yields a break signal either, and the
      store only grows. */
  lemma {:induction false} ForYieldsNoBreak(fuel: nat, s: Stmt, id: FrameId, st: State, h: Host, result: Obj)
    requires s.For? && !result.Break?
    ensures var r := ForLoop(fuel, s, id, st, h, result);
      r.Done? ==> !r.value.obj.Break? && Extends(st, r.value.st)
    decreases fuel
  {
    match ForTest(fuel, s, id, st, h)
    case Abort(_) =>
    case Done(c) =>
      if !IsError(c.obj) && IsTruthy(c.obj) {
        match RunBlock(fuel, s.body.stmts, id, c.st, h, Nil)
        case Abort(_) =>
        case Done(b) =>
          if !b.obj.ReturnValue? && !b.obj.Error? && !b.obj.Break? {
            var u := if s.update.Some? then EvalStmt(fuel, s.update.value, id, b.st, h) else Done(Res(TheNull, b.st));
            if u.Done? && !IsError(u.value.obj) && fuel > 0 {
              ForYieldsNoBreak(fuel - 1, s, id, u.value.st, h, b.obj);
            }
          }
      }
  }

  /** As statements, `salama` and `kanggo` never let a break escape: a
      break ends only the innermost loop. */
  lemma LoopsYieldNoBreak(fuel: nat, s: Stmt, env: FrameId, st: State, h: Host)
    requires s.While? || s.For?
    ensures var r := EvalStmt(fuel, s, env, st, h);
      r.Done? ==> !r.value.obj.Break? && Extends(st, r.value.st)
  {
    if s.While? {
      WhileYieldsNoBreak(fuel, s, env, st, h, TheNull);
    } else {
      var (fs, id) := NewEnclosedEnvironment(st.frames, env);
      var st1 := st.(frames := fs);
      if s.init.None? {
        ForYieldsNoBreak(fuel, s, id, st1, h, TheNull);
      } else {
        match EvalStmt(fuel, s.init.value, id, st1, h)
        case Abort(_) =>
        case Done(i) =>
          if !IsError(i.obj) {
            ForYieldsNoBreak(fuel, s, id, i.st, h, TheNull);
          }
      }
    }
  }

  /** After a true test, a break in the body ends a for loop with NULL, and
      a return or error in the body ends it with that signal. */
  lemma ForBodySignals(fuel: nat, s: Stmt, id: FrameId, st: State, h: Host, result: Obj, c: Res, b: Res)
    requires s.For? && ForTest(fuel, s, id, st, h) == Done(c) && !IsError(c.obj) && IsTruthy(c.obj)
    requires RunBlock(fuel, s.body.stmts, id, c.st, h, Nil) == Done(b)
    ensures b.obj.Break? ==> ForLoop(fuel, s, id, st, h, result) == Done(Res(TheNull, b.st))
    ensures b.obj.ReturnValue? || b.obj.Error? ==> ForLoop(fuel, s, id, st, h, result) == Done(b)
  {
  }

  /** A false test ends a for loop with the last body result; an error in
      the test ends it with that error. */
  lemma ForTestEnds(fuel: nat, s: Stmt, id: FrameId, st: State, h: Host, result: Obj, c: Res)
    requires s.For? && ForTest(fuel, s, id, st, h) == Done(c)
    ensures IsError(c.obj) ==> ForLoop(fuel, s, id, st, h, result) == Done(c)
    ensures !IsError(c.obj) && !IsTruthy(c.obj) ==> ForLoop(fuel, s, id, st, h, result) == Done(Res(result, c.st))
  {
  }

  /** A body that ends normally or with continue goes on to the update: an
      error there ends the loop, otherwise the loop returns to its test. */
  lemma ForContinueRunsUpdate(fuel: nat, s: Stmt, id: FrameId, st: State, h: Host, result: Obj, c: Res, b: Res, u: Res)
    requires s.For? && fuel > 0
    requires ForTest(fuel, s, id, st, h) == Done(c) && !IsError(c.obj) && IsTruthy(c.obj)
    requires RunBlock(fuel, s.body.stmts, id, c.st, h, Nil) == Done(b)
    requires !b.obj.ReturnValue? && !b.obj.Error? && !b.obj.Break?
    requires s.update.Some? && EvalStmt(fuel, s.update.value, id, b.st, h) == Done(u)
    ensures IsError(u.obj) ==> ForLoop(fuel, s, id, st, h, result) == Done(u)
    ensures !IsError(u.obj) ==> ForLoop(fuel, s, id, st, h, result) == ForLoop(fuel - 1, s, id, u.st, h, b.obj)
  {
  }

  /** A for loop runs in a new child frame: `for (let n = k; salah; ) {}`
      yields NULL, binds n only in the loop's frame, and leaves every name
      seen from the enclosing frame as it was. */
  lemma ForBindsInOwnFrame(fuel: nat, n: Bytes, k: int64, body: Block, env: FrameId, st: State, h: Host, m: Bytes)
    requires env < |st.frames|
    ensures var s := For(Some(Let(n, IntLit(k))), Some(BoolLit(false)), None, body);
      var r := EvalStmt(fuel, s, env, st, h);
      var id := |st.frames|;
      r.Done? && r.value.obj == TheNull &&
      Get(r.value.st.frames, id, n) == Some(Int(k)) &&
      Get(r.value.st.frames, env, m) == Get(st.frames, env, m)
  {
    var s := For(Some(Let(n, IntLit(k))), Some(BoolLit(false)), None, body);
    var (fs, id) := NewEnclosedEnvironment(st.frames, env);
    var fs2 := Set(fs, id, n, Int(k));
    assert EvalStmt(fuel, Let(n, IntLit(k)), id, st.(frames := fs), h) == Done(Res(Int(k), st.(frames := fs2)));
    assert ForLoop(fuel, s, id, st.(frames := fs2), h, TheNull) == Done(Res(TheNull, st.(frames := fs2)));
    assert EvalStmt(fuel, s, env, st, h) == Done(Res(TheNull, st.(frames := fs2)));
    GrowKeepsGet(st.frames, fs, env, m);
    SetElsewhere(fs, id, n, Int(k), m, env);
  }

  // ---------------------------------------------------------------------
  // Bindings and assignment

  /** `let` binds the value in the current frame even over a constant, and
      changes no constant mark. */
  lemma LetBindsHere(fuel: nat, n: Bytes, x: Expr, env: FrameId, st: State, h: Host, v: Res, m: Bytes, id: FrameId)
    requires Eval(fuel, x, env, st, h) == Done(v) && !IsError(v.obj) && env < |v.st.frames|
    ensures var r := EvalStmt(fuel, Let(n, x), env, st, h);
      r.Done? && r.value.obj == v.obj &&
      Get(r.value.st.frames, env, n) == Some(v.obj) &&
      IsConst(r.value.st.frames, id, m) == IsConst(v.st.frames, id, m)
  {
    GetAfterSet(v.st.frames, env, n, v.obj, n);
    SetKeepsConstMarks(v.st.frames, env, n, v.obj, m, id);
  }

  /** An error in the value of a `let` or `const` is the result and binds
      nothing. */
  lemma BindingValueError(fuel: nat, n: Bytes, x: Expr, env: FrameId, st: State, h: Host, v: Res)
    requires Eval(fuel, x, env, st, h) == Done(v) && IsError(v.obj)
    ensures EvalStmt(fuel, Let(n, x), env, st, h) == Done(v)
    ensures EvalStmt(fuel, Const(n, x), env, st, h) == Done(v)
  {
  }

  /** `const` binds the value and marks the name constant. */
  lemma ConstMarks(fuel: nat, n: Bytes, x: Expr, env: FrameId, st: State, h: Host, v: Res)
    requires Eval(fuel, x, env, st, h) == Done(v) && !IsError(v.obj) && env < |v.st.frames|
    ensures var r := EvalStmt(fuel, Const(n, x), env, st, h);
      r.Done? && Get(r.value.st.frames, env, n) == Some(v.obj) && IsConst(r.value.st.frames, env, n)
  {
    var fs := SetConst(v.st.frames, env, n, v.obj);
    SetConstMarks(v.st.frames, env, n, v.obj, env);
    assert n in fs[env].vars && fs[env].vars[n] == v.obj;
  }

  /** Assigning to a name marked constant anywhere in the chain is refused
      before the value is evaluated, and changes nothing. */
  lemma AssignToConstant(fuel: nat, n: Bytes, x: Expr, env: FrameId, st: State, h: Host)
    requires IsConst(st.frames, env, n)
    ensures Eval(fuel, Assign(n, x), env, st, h) ==
      Done(Res(Error("tidak bisa mengubah konstanta '" + n + "'"), st))
  {
  }

  /** Assigning to a name no frame binds is refused and changes nothing. */
  lemma AssignToUnbound(fuel: nat, n: Bytes, x: Expr, env: FrameId, st: State, h: Host)
    requires !IsConst(st.frames, env, n) && Get(st.frames, env, n).None?
    ensures Eval(fuel, Assign(n, x), env, st, h) ==
      Done(Res(Error("variabel '" + n + "' belum didefinisikan"), st))
  {
  }

  /** A permitted assignment yields the value, makes the name read as the
      value, and creates no binding in any frame. */
  lemma AssignUpdates(fuel: nat, n: Bytes, x: Expr, env: FrameId, st: State, h: Host, v: Res)
    requires !IsConst(st.frames, env, n) && Get(st.frames, env, n).Some?
    requires Eval(fuel, x, env, st, h) == Done(v) && !IsError(v.obj)
    ensures var r := Eval(fuel, Assign(n, x), env, st, h);
      r.Done? && r.value.obj == v.obj && SameNames(r.value.st.frames, v.st.frames) &&
      (Get(v.st.frames, env, n).Some? ==> Get(r.value.st.frames, env, n) == Some(v.obj))
  {
    AssignStep(fuel, n, x, env, st, h, v);
  }

  /** The assignment's result and store, in terms of Assigned. */
  lemma AssignStep(fuel: nat, n: Bytes, x: Expr, env: FrameId, st: State, h: Host, v: Res)
    requires !IsConst(st.frames, env, n) && Get(st.frames, env, n).Some?
    requires Eval(fuel, x, env, st, h) == Done(v) && !IsError(v.obj)
    ensures Eval(fuel, Assign(n, x), env, st, h) ==
      Done(Res(v.obj, v.st.(frames := Assigned(v.st.frames, env, n, v.obj))))
  {
    var e := Assign(n, x);
    EvalOfAssign(fuel, e, env, st, h);
    assert EvalAssign(fuel, e, env, st, h) ==
      Done(Res(v.obj, v.st.(frames := Assigned(v.st.frames, env, n, v.obj))));
  }

  /** An assignment expression is evaluated by EvalAssign. */
  lemma EvalOfAssign(fuel: nat, e: Expr, env: FrameId, st: State, h: Host)
    requires e.Assign?
    ensures Eval(fuel, e, env, st, h) == EvalAssign(fuel, e, env, st, h)
  {
  }

  /** A constant keeps its value: `const PI = 3` then `PI = 4` ends the
      program with the constant error, and PI is still 3. */
  lemma ConstantKeepsValue(fuel: nat, h: Host)
    ensures var p := Program([Const("PI", IntLit(3)), ExprStmt(Assign("PI", IntLit(4)))]);
      var r := EvalProgram(fuel, p, h);
      r.Done? && r.value.obj == Error("tidak bisa mengubah konstanta 'PI'") &&
      Get(r.value.st.frames, 0, "PI") == Some(Int(3))
  {
    var st0 := Start();
    var fs := SetConst(st0.frames, 0, "PI", Int(3));
    var st1 := st0.(frames := fs);
    assert EvalStmt(fuel, Const("PI", IntLit(3)), 0, st0, h) == Done(Res(Int(3), st1));
    SetConstMarks(st0.frames, 0, "PI", Int(3), 0);
    assert IsConst(fs, 0, "PI");
    var asg := Assign("PI", IntLit(4));
    assert Eval(fuel, asg, 0, st1, h) == EvalAssign(fuel, asg, 0, st1, h);
    assert "tidak bisa mengubah konstanta '" + "PI" + "'" == "tidak bisa mengubah konstanta 'PI'";
    assert EvalStmt(fuel, ExprStmt(Assign("PI", IntLit(4))), 0, st1, h) ==
      Done(Res(Error("tidak bisa mengubah konstanta 'PI'"), st1));
    var stmts := [Const("PI", IntLit(3)), ExprStmt(Assign("PI", IntLit(4)))];
    assert stmts[1..] == [ExprStmt(Assign("PI", IntLit(4)))];
    assert RunProgram(fuel, stmts[1..], 0, st1, h, Int(3)) ==
      Done(Res(Error("tidak bisa mengubah konstanta 'PI'"), st1));
  }

  /** `let` does not check constant marks: `const PI = 3` then `let PI = 4`
      rebinds PI to 4, and PI stays constant. */
  lemma LetOverridesConstant(fuel: nat, h: Host)
    ensures var p := Program([Const("PI", IntLit(3)), Let("PI", IntLit(4))]);
      var r := EvalProgram(fuel, p, h);
      r.Done? && r.value.obj == Int(4) &&
      Get(r.value.st.frames, 0, "PI") == Some(Int(4)) && IsConst(r.value.st.frames, 0, "PI")
  {
    var st0 := Start();
    var fs := SetConst(st0.frames, 0, "PI", Int(3));
    var st1 := st0.(frames := fs);
    assert EvalStmt(fuel, Const("PI", IntLit(3)), 0, st0, h) == Done(Res(Int(3), st1));
    SetConstMarks(st0.frames, 0, "PI", Int(3), 0);
    var fs2 := Set(fs, 0, "PI", Int(4));
    assert EvalStmt(fuel, Let("PI", IntLit(4)), 0, st1, h) == Done(Res(Int(4), st1.(frames := fs2)));
    SetKeepsConstMarks(fs, 0, "PI", Int(4), "PI", 0);
    GetAfterSet(fs, 0, "PI", Int(4), "PI");
    var stmts := [Const("PI", IntLit(3)), Let("PI", IntLit(4))];
    assert stmts[1..] == [Let("PI", IntLit(4))];
  }
}
