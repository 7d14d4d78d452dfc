/** What the evaluator promises about calls, closures, argument lists and
    collection literals. */
module CallFacts {
  import opened Basics
  import opened Int64
  import opened Ast
  import opened Object
  import opened Environment
  import opened Runtime
  import opened Evaluator

  // ---------------------------------------------------------------------
  // Argument lists

  /** Evaluating a list either stops at the first error, which becomes the
      whole list, or appends one non-error value per expression. */
  lemma {:induction false} EvalExprsShape(fuel: nat, es: seq<Expr>, env: FrameId, st: State, h: Host, acc: seq<Obj>, m: Many)
    requires forall i :: 0 <= i < |acc| ==> !IsError(acc[i])
    requires EvalExprs(fuel, es, env, st, h, acc) == Done(m)
    ensures (|m.objs| == 1 && IsError(m.objs[0])) ||
            (|m.objs| == |acc| + |es| && m.objs[..|acc|] == acc &&
             forall i :: 0 <= i < |m.objs| ==> !IsError(m.objs[i]))
    decreases es
  {
    if es != [] {
      match Eval(fuel, es[0], env, st, h)
      case Abort(_) =>
      case Done(r) =>
        if !IsError(r.obj) {
          var acc' := acc + [r.obj];
          EvalExprsShape(fuel, es[1..], env, r.st, h, acc', m);
          if |m.objs| == |acc'| + |es[1..]| && m.objs[..|acc'|] == acc' {
            assert m.objs[..|acc|] == m.objs[..|acc'|][..|acc|];
          }
        }
    }
  }

  /** An error among the arguments is the call's result; the callee is not
      applied. */
  lemma ArgumentErrorStopsCall(fuel: nat, callee: Expr, args: seq<Expr>, env: FrameId, st: State, h: Host, f: Res, e: Res)
    requires Eval(fuel, callee, env, st, h) == Done(f) && !IsError(f.obj)
    requires |args| > 0 && Eval(fuel, args[0], env, f.st, h) == Done(e) && IsError(e.obj)
    ensures Eval(fuel, Call(callee, args), env, st, h) == Done(e)
  {
    var c := Call(callee, args);
    assert EvalExprs(fuel, args, env, f.st, h, []) == Done(Many([e.obj], e.st));
    assert Eval(fuel, c, env, st, h) == EvalCall(fuel, c, env, st, h);
  }

  /** An error in the callee is the call's result; no argument is
      evaluated. */
  lemma CalleeErrorFirst(fuel: nat, callee: Expr, args: seq<Expr>, env: FrameId, st: State, h: Host, f: Res)
    requires Eval(fuel, callee, env, st, h) == Done(f) && IsError(f.obj)
    ensures Eval(fuel, Call(callee, args), env, st, h) == Done(f)
  {
    var c := Call(callee, args);
    assert Eval(fuel, c, env, st, h) == EvalCall(fuel, c, env, st, h);
  }

  /** Calling a value that is neither a function nor a built-in is the
      error "bukan fungsi", and calling nil panics. */
  lemma CallingNonFunctions(fuel: nat, n: int64, env: FrameId, st: State, h: Host)
    ensures Eval(fuel, Call(IntLit(n), []), env, st, h) == Done(Res(Error("bukan fungsi: INTEGER"), st))
    ensures ApplyOther(Nil, [], st, h).Abort?
  {
    var c := Call(IntLit(n), []);
    assert Eval(fuel, IntLit(n), env, st, h) == Done(Res(Int(n), st));
    assert EvalExprs(fuel, [], env, st, h, []) == Done(Many([], st));
    assert TypeName(TypeOf(Int(n))) == "INTEGER";
    assert "bukan fungsi: " + "INTEGER" == "bukan fungsi: INTEGER";
    assert ApplyOther(Int(n), [], st, h) == Done(Res(Error("bukan fungsi: INTEGER"), st));
    assert Eval(fuel, c, env, st, h) == EvalCall(fuel, c, env, st, h);
  }

  // ---------------------------------------------------------------------
  // The frame a call runs in

  /** Whether some parameter at position k >= i has an argument and is
      named m. */
  predicate Supplied(params: seq<Bytes>, args: seq<Obj>, i: nat, m: Bytes) {
    exists k :: i <= k < |params| && k < |args| && params[k] == m
  }

  /** Whether parameter k is the last one with its name that has an
      argument. */
  predicate LastSupplied(params: seq<Bytes>, args: seq<Obj>, k: nat) {
    k < |params| && k < |args| &&
    forall k' :: k < k' < |params| && k' < |args| ==> params[k'] != params[k]
  }

  /** Binding parameters touches only frame id, keeps its constant marks
      and parent, and adds exactly the parameters that have arguments. */
  lemma {:induction false} BindParamsFrame(fs: Frames, id: FrameId, params: seq<Bytes>, args: seq<Obj>, i: nat)
    requires i <= |params| && id < |fs|
    ensures var r := BindParams(fs, id, params, args, i);
      (forall j :: 0 <= j < |fs| && j != id ==> r[j] == fs[j]) &&
      r[id].consts == fs[id].consts && r[id].outer == fs[id].outer &&
      (forall m :: m in r[id].vars <==> m in fs[id].vars || Supplied(params, args, i, m))
    decreases |params| - i
  {
    if i < |params| {
      var fs' := if i < |args| then Set(fs, id, params[i], args[i]) else fs;
      BindParamsFrame(fs', id, params, args, i + 1);
      var r := BindParams(fs', id, params, args, i + 1);
      forall m
        ensures m in r[id].vars <==> m in fs[id].vars || Supplied(params, args, i, m)
      {
        if Supplied(params, args, i, m) && !Supplied(params, args, i + 1, m) {
          var k :| i <= k < |params| && k < |args| && params[k] == m;
          assert k == i;
        }
        if Supplied(params, args, i + 1, m) {
          var k :| i + 1 <= k < |params| && k < |args| && params[k] == m;
          assert i <= k;
        }
      }
    }
  }

  /** A name that no later parameter with an argument carries keeps its
      binding in frame id. */
  lemma {:induction false} BindParamsKeeps(fs: Frames, id: FrameId, params: seq<Bytes>, args: seq<Obj>, i: nat, m: Bytes)
    requires i <= |params| && id < |fs| && m in fs[id].vars && !Supplied(params, args, i, m)
    ensures var r := BindParams(fs, id, params, args, i);
      m in r[id].vars && r[id].vars[m] == fs[id].vars[m]
    decreases |params| - i
  {
    if i < |params| {
      var fs' := if i < |args| then Set(fs, id, params[i], args[i]) else fs;
      assert i < |args| ==> params[i] != m;
      BindParamsKeeps(fs', id, params, args, i + 1, m);
    }
  }

  /** A parameter's last argument is what its name is bound to: a repeated
      name ends up bound to the later argument. */
  lemma {:induction false} BindParamsValues(fs: Frames, id: FrameId, params: seq<Bytes>, args: seq<Obj>, i: nat, k: nat)
    requires i <= k && LastSupplied(params, args, k) && id < |fs|
    ensures var r := BindParams(fs, id, params, args, i);
      params[k] in r[id].vars && r[id].vars[params[k]] == args[k]
    decreases |params| - i
  {
    var fs' := if i < |args| then Set(fs, id, params[i], args[i]) else fs;
    if k == i {
      assert !Supplied(params, args, i + 1, params[k]);
      BindParamsKeeps(fs', id, params, args, i + 1, params[k]);
    } else {
      BindParamsValues(fs', id, params, args, i + 1, k);
    }
  }

  /** A call's frame is a new child of the closure frame that binds each
      parameter that has an argument, and nothing else; surplus arguments
      are dropped and missing ones leave their parameter unbound. */
  lemma ExtendFunctionEnvBinds(fs: Frames, fn: Obj, args: seq<Obj>)
    requires fn.Function? && fn.env < |fs|
    ensures var (r, id) := ExtendFunctionEnv(fs, fn, args);
      r[..|fs|] == fs && Parent(r, id) == Some(fn.env) && r[id].consts == {} &&
      (forall m :: m in r[id].vars <==> Supplied(fn.params, args, 0, m)) &&
      (forall k: nat :: LastSupplied(fn.params, args, k) ==> r[id].vars[fn.params[k]] == args[k])
  {
    var (fs', id) := NewEnclosedEnvironment(fs, fn.env);
    BindParamsFrame(fs', id, fn.params, args, 0);
    var r := BindParams(fs', id, fn.params, args, 0);
    forall k: nat | LastSupplied(fn.params, args, k) ensures r[id].vars[fn.params[k]] == args[k] {
      BindParamsValues(fs', id, fn.params, args, 0, k);
    }
    assert r[..|fs|] == fs by {
      forall j | 0 <= j < |fs| ensures r[j] == fs[j] {
        assert r[j] == fs'[j];
      }
    }
  }

  /** Inside a call, a name that is not a parameter with an argument reads
      as it does in the closure frame: the function sees the scope it was
      defined in, not the caller's. */
  lemma FunctionSeesClosure(fs: Frames, fn: Obj, args: seq<Obj>, m: Bytes)
    requires fn.Function? && fn.env < |fs| && !Supplied(fn.params, args, 0, m)
    ensures var (r, id) := ExtendFunctionEnv(fs, fn, args);
      Get(r, id, m) == Get(fs, fn.env, m)
  {
    ExtendFunctionEnvBinds(fs, fn, args);
    var (r, id) := ExtendFunctionEnv(fs, fn, args);
    GrowKeepsGet(fs, r, fn.env, m);
  }

  /** A call's result is the body's result with a return value unwrapped;
      an error, and also a break or continue that escapes the body, comes
      out of the call as it is. */
  lemma CallFunctionResult(fuel: nat, fn: Obj, args: seq<Obj>, st: State, h: Host, b: Res)
    requires fn.Function?
    requires var (fs, id) := ExtendFunctionEnv(st.frames, fn, args);
      RunBlock(fuel, fn.body.stmts, id, st.(frames := fs), h, Nil) == Done(b)
    ensures b.obj.ReturnValue? ==> CallFunction(fuel, fn, args, st, h) == Done(Res(b.obj.inner, b.st))
    ensures !b.obj.ReturnValue? ==> CallFunction(fuel, fn, args, st, h) == Done(b)
  {
  }

  /** A named function literal is bound under its name in the current
      frame, so the body can call itself. */
  lemma NamedFunctionBinds(fuel: nat, e: Expr, env: FrameId, st: State, h: Host)
    requires e.FnLit? && e.fname != "" && env < |st.frames|
    ensures var r := Eval(fuel, e, env, st, h);
      r.Done? && Get(r.value.st.frames, env, e.fname) == Some(r.value.obj)
  {
    var r := FunctionLiteral(e, env, st);
    GetAfterSet(st.frames, env, e.fname, r.obj, e.fname);
  }

  // ---------------------------------------------------------------------
  // Collection literals

  /** An array literal of values allocates a new array holding them, in
      order. */
  lemma ArrayLiteralHolds(fuel: nat, a: int64, b: int64, env: FrameId, st: State, h: Host)
    ensures Eval(fuel, ArrayLit([IntLit(a), IntLit(b)]), env, st, h) ==
      Done(Res(Array(st.next + 1, [Int(a), Int(b)]), Alloc(st).1))
  {
    var e := ArrayLit([IntLit(a), IntLit(b)]);
    assert Eval(fuel, IntLit(a), env, st, h) == Done(Res(Int(a), st));
    assert Eval(fuel, IntLit(b), env, st, h) == Done(Res(Int(b), st));
    assert [IntLit(a), IntLit(b)][1..] == [IntLit(b)];
    assert [Int(a)] + [Int(b)] == [Int(a), Int(b)];
    assert EvalExprs(fuel, [], env, st, h, [Int(a), Int(b)]) == Done(Many([Int(a), Int(b)], st));
    assert EvalExprs(fuel, [IntLit(b)], env, st, h, [Int(a)]) == Done(Many([Int(a), Int(b)], st));
    assert [IntLit(a), IntLit(b)][0] == IntLit(a);
    assert [] + [Int(a)] == [Int(a)];
    assert EvalExprs(fuel, [IntLit(a), IntLit(b)], env, st, h, []) == Done(Many([Int(a), Int(b)], st));
    assert Eval(fuel, e, env, st, h) == EvalArray(fuel, e, env, st, h);
  }

  /** In a map literal a later entry with an equal key replaces the earlier
      one: `{1: a, 1: b}` holds one pair, 1 to b. */
  lemma MapLiteralLaterWins(fuel: nat, a: int64, b: int64, env: FrameId, st: State, h: Host)
    ensures var r := Eval(fuel, MapLit([Entry(IntLit(1), IntLit(a)), Entry(IntLit(1), IntLit(b))]), env, st, h);
      r.Done? && r.value.obj.Map? &&
      r.value.obj.pairs == map[HashKey(INTEGER, 1) := MapPair(Int(1), Int(b))]
  {
    var k := HashKey(INTEGER, 1);
    var en1, en2 := Entry(IntLit(1), IntLit(a)), Entry(IntLit(1), IntLit(b));
    assert HashKeyOf(Int(1)) == Some(k);
    assert Eval(fuel, IntLit(1), env, st, h) == Done(Res(Int(1), st));
    assert Eval(fuel, IntLit(a), env, st, h) == Done(Res(Int(a), st));
    assert Eval(fuel, IntLit(b), env, st, h) == Done(Res(Int(b), st));
    assert EvalEntry(fuel, en1, env, st, h) == Done(Next(k, MapPair(Int(1), Int(a)), st));
    assert EvalEntry(fuel, en2, env, st, h) == Done(Next(k, MapPair(Int(1), Int(b)), st));
    assert [en1, en2][1..] == [en2];
    var m1 := map[k := MapPair(Int(1), Int(a))];
    assert m1[k := MapPair(Int(1), Int(b))] == map[k := MapPair(Int(1), Int(b))];
    assert EvalEntries(fuel, [en2], env, st, h, m1) == EvalEntries(fuel, [], env, st, h, map[k := MapPair(Int(1), Int(b))]);
  }

  // ---------------------------------------------------------------------
  // Indexing what a literal built

  /** In a list that evaluates without error, element i is the value of
      expression i, evaluated in the state the first i expressions left. */
  lemma {:induction false} ElementIsEvaluated(fuel: nat, es: seq<Expr>, env: FrameId, st: State, h: Host,
                                              acc: seq<Obj>, m: Many, i: nat)
    requires forall k :: 0 <= k < |acc| ==> !IsError(acc[k])
    requires EvalExprs(fuel, es, env, st, h, acc) == Done(m)
    requires |m.objs| == |acc| + |es| && forall k :: 0 <= k < |m.objs| ==> !IsError(m.objs[k])
    requires i < |es|
    ensures var p := EvalExprs(fuel, es[..i], env, st, h, acc);
      p.Done? && p.value.objs == m.objs[..|acc| + i] &&
      Eval(fuel, es[i], env, p.value.st, h).Done? &&
      Eval(fuel, es[i], env, p.value.st, h).value.obj == m.objs[|acc| + i]
    decreases es
  {
    var r := Eval(fuel, es[0], env, st, h).value;
    assert !IsError(m.objs[0]);
    assert !IsError(r.obj);
    var acc' := acc + [r.obj];
    assert forall k :: 0 <= k < |acc'| ==> !IsError(acc'[k]);
    EvalExprsShape(fuel, es[1..], env, r.st, h, acc', m);
    assert m.objs[..|acc'|] == acc';
    if i == 0 {
      assert es[..0] == [];
      assert m.objs[..|acc|] == acc'[..|acc|];
    } else {
      ElementIsEvaluated(fuel, es[1..], env, r.st, h, acc', m, i - 1);
      assert es[..i][0] == es[0] && es[..i][1..] == es[1..][..i - 1];
      assert es[1..][i - 1] == es[i];
    }
  }

  /** Indexing the array an array literal built at i gives the value of
      its i-th element expression, and NULL outside the literal. */
  lemma ArrayLiteralIndex(fuel: nat, es: seq<Expr>, env: FrameId, st: State, h: Host, r: Res, i: int64)
    requires Eval(fuel, ArrayLit(es), env, st, h) == Done(r) && r.obj.Array?
    ensures |r.obj.elements| == |es|
    ensures 0 <= i as int < |es| ==>
      var p := EvalExprs(fuel, es[..i], env, st, h, []);
      p.Done? && Eval(fuel, es[i], env, p.value.st, h).Done? &&
      EvalIndex(r.obj, Int(i)) == Done(Eval(fuel, es[i], env, p.value.st, h).value.obj)
    ensures !(0 <= i as int < |es|) ==> EvalIndex(r.obj, Int(i)) == Done(TheNull)
  {
    var e := ArrayLit(es);
    assert Eval(fuel, e, env, st, h) == EvalArray(fuel, e, env, st, h);
    var m := EvalExprs(fuel, es, env, st, h, []).value;
    EvalExprsShape(fuel, es, env, st, h, [], m);
    assert r.obj.elements == m.objs;
    if 0 <= i as int < |es| {
      ElementIsEvaluated(fuel, es, env, st, h, [], m, i as nat);
    }
  }

  /** One write of a map literal: a hash key and the pair stored under it. */
  datatype Written = Written(key: HashKey, pair: MapPair)

  /** The writes a map literal's entries make, in the order written, and
      the state after them; None when an entry stops or aborts the
      literal. */
  function EntryWrites(fuel: nat, entries: seq<Entry>, env: FrameId, st: State, h: Host): (r: Option<(seq<Written>, State)>)
    ensures r.Some? ==> |r.value.0| == |entries|
    ensures r.Some? ==> forall k :: 0 <= k < |r.value.0| ==> HashKeyOf(r.value.0[k].pair.key) == Some(r.value.0[k].key)
    decreases entries
  {
    if entries == [] then Some(([], st))
    else match EvalEntry(fuel, entries[0], env, st, h)
      case Done(Next(hk, pair, st')) =>
        (match EntryWrites(fuel, entries[1..], env, st', h)
         case Some((ws, st'')) => Some(([Written(hk, pair)] + ws, st''))
         case None => None)
      case _ => None
  }

  /** The pairs after making the writes ws, one after another. */
  function WriteAll(pairs: map<HashKey, MapPair>, ws: seq<Written>): map<HashKey, MapPair>
    decreases ws
  {
    if ws == [] then pairs else WriteAll(pairs[ws[0].key := ws[0].pair], ws[1..])
  }

  /** A map literal that yields a map made exactly its entries' writes. */
  lemma {:induction false} EntriesWriteAll(fuel: nat, entries: seq<Entry>, env: FrameId, st: State, h: Host,
                                           pairs: map<HashKey, MapPair>, r: Res)
    requires EvalEntries(fuel, entries, env, st, h, pairs) == Done(r) && r.obj.Map?
    ensures EntryWrites(fuel, entries, env, st, h).Some?
    ensures r.obj.pairs == WriteAll(pairs, EntryWrites(fuel, entries, env, st, h).value.0)
    decreases entries
  {
    if entries != [] {
      match EvalEntry(fuel, entries[0], env, st, h)
      case Done(Next(hk, pair, st')) =>
        EntriesWriteAll(fuel, entries[1..], env, st', h, pairs[hk := pair], r);
      case _ =>
    }
  }

  /** The last write under a key decides its pair. */
  lemma {:induction false} LastWriteWins(pairs: map<HashKey, MapPair>, ws: seq<Written>, j: nat)
    requires j < |ws| && forall l :: j < l < |ws| ==> ws[l].key != ws[j].key
    ensures ws[j].key in WriteAll(pairs, ws) && WriteAll(pairs, ws)[ws[j].key] == ws[j].pair
    decreases ws
  {
    if j == 0 {
      Unwritten(pairs[ws[0].key := ws[0].pair], ws[1..], ws[0].key);
    } else {
      LastWriteWins(pairs[ws[0].key := ws[0].pair], ws[1..], j - 1);
    }
  }

  /** A key no write touches keeps its pair, or its absence. */
  lemma {:induction false} Unwritten(pairs: map<HashKey, MapPair>, ws: seq<Written>, k: HashKey)
    requires forall l :: 0 <= l < |ws| ==> ws[l].key != k
    ensures (k in WriteAll(pairs, ws) <==> k in pairs)
    ensures k in pairs ==> WriteAll(pairs, ws)[k] == pairs[k]
    decreases ws
  {
    if ws != [] {
      Unwritten(pairs[ws[0].key := ws[0].pair], ws[1..], k);
    }
  }

  /** Indexing the map a map literal built with the key of entry j gives
      the value of the last entry whose key hashes the same; a key that
      no entry wrote gives NULL. */
  lemma MapLiteralIndex(fuel: nat, entries: seq<Entry>, env: FrameId, st: State, h: Host, r: Res, j: nat, k: Obj)
    requires Eval(fuel, MapLit(entries), env, st, h) == Done(r) && r.obj.Map?
    ensures EntryWrites(fuel, entries, env, st, h).Some?
    ensures var ws := EntryWrites(fuel, entries, env, st, h).value.0;
      j < |ws| && (forall l :: j < l < |ws| ==> ws[l].key != ws[j].key) ==>
      EvalIndex(r.obj, ws[j].pair.key) == Done(ws[j].pair.value)
    ensures var ws := EntryWrites(fuel, entries, env, st, h).value.0;
      HashKeyOf(k).Some? && (forall l :: 0 <= l < |ws| ==> ws[l].key != HashKeyOf(k).value) ==>
      EvalIndex(r.obj, k) == Done(TheNull)
  {
    EntriesWriteAll(fuel, entries, env, st, h, map[], r);
    var ws := EntryWrites(fuel, entries, env, st, h).value.0;
    if j < |ws| && (forall l :: j < l < |ws| ==> ws[l].key != ws[j].key) {
      LastWriteWins(map[], ws, j);
    }
    if HashKeyOf(k).Some? && (forall l :: 0 <= l < |ws| ==> ws[l].key != HashKeyOf(k).value) {
      Unwritten(map[], ws, HashKeyOf(k).value);
    }
  }
}
