/** Variable scopes. Go links environments by pointer so that closures can
    share and mutate them; here all frames live in one store, a sequence
    indexed by frame id, and a frame names its parent by id. A parent link
    is only followed when it points to an older frame (a smaller id), which
    every frame the evaluator creates satisfies; ids outside the store name
    no frame. */
module Environment {
  import opened Basics
  import opened Object

  /** One scope: its bindings, the names it marks constant, and its parent. */
  datatype Frame = Frame(vars: map<Bytes, Obj>, consts: set<Bytes>, outer: Option<FrameId>)

  type Frames = seq<Frame>

  /** The store b grows a: every frame of a is still there with its parent,
      and it has lost neither a binding nor a constant mark. */
  predicate Grows(a: Frames, b: Frames) {
    |a| <= |b| &&
    forall j :: 0 <= j < |a| ==>
      b[j].outer == a[j].outer && a[j].vars.Keys <= b[j].vars.Keys && a[j].consts <= b[j].consts
  }

  /** An empty frame with the given parent. */
  function EmptyFrame(outer: Option<FrameId>): (f: Frame)
    ensures f.vars == map[] && f.consts == {} && f.outer == outer
  {
    Frame(map[], {}, outer)
  }

  /** The store at program start: one empty root frame, with id 0. */
  function NewEnvironment(): (fs: Frames)
    ensures |fs| == 1 && fs[0] == EmptyFrame(None)
  {
    [EmptyFrame(None)]
  }

  /** Allocates an empty frame whose parent is `outer`. The new frame's id
      is the old size of the store, and every existing frame is kept. */
  function NewEnclosedEnvironment(fs: Frames, outer: FrameId): (r: (Frames, FrameId))
    ensures r.1 == |fs| && |r.0| == |fs| + 1 && r.0[..|fs|] == fs
    ensures r.0[r.1] == EmptyFrame(Some(outer))
    ensures Grows(fs, r.0)
  {
    (fs + [EmptyFrame(Some(outer))], |fs|)
  }

  /** The parent link of frame id, when it names an older frame. */
  function Parent(fs: Frames, id: FrameId): (p: Option<FrameId>)
    ensures p.Some? ==> p.value < id < |fs|
  {
    if id < |fs| && fs[id].outer.Some? && fs[id].outer.value < id then fs[id].outer else None
  }

  // ---------------------------------------------------------------------
  // The chain of scopes: a reference definition

  /** The frames searched from id outwards, innermost first. */
  function Chain(fs: Frames, id: FrameId): (c: seq<FrameId>)
    ensures forall k :: 0 <= k < |c| ==> c[k] < |fs| && c[k] <= id
    ensures id < |fs| <==> c != []
    ensures c != [] ==> c[0] == id
    decreases id
  {
    if id >= |fs| then []
    else match Parent(fs, id)
      case None => [id]
      case Some(p) => [id] + Chain(fs, p)
  }

  /** Whether frame f exists and binds n. */
  predicate Binds(fs: Frames, f: FrameId, n: Bytes) {
    f < |fs| && n in fs[f].vars
  }

  /** The first frame among c that binds n. */
  function FirstBinder(fs: Frames, c: seq<FrameId>, n: Bytes): (r: Option<FrameId>)
    ensures r.Some? ==> r.value in c && Binds(fs, r.value, n)
    ensures r.None? <==> forall f :: f in c ==> !Binds(fs, f, n)
    decreases |c|
  {
    if c == [] then None
    else if Binds(fs, c[0], n) then Some(c[0])
    else
      assert forall f :: f in c ==> f == c[0] || f in c[1..];
      FirstBinder(fs, c[1..], n)
  }

  /** No frame before the first binder binds the name. */
  lemma {:induction false} FirstBinderIsFirst(fs: Frames, c: seq<FrameId>, n: Bytes)
    requires FirstBinder(fs, c, n).Some?
    ensures exists k :: 0 <= k < |c| && c[k] == FirstBinder(fs, c, n).value &&
                        (forall j :: 0 <= j < k ==> !Binds(fs, c[j], n))
    decreases |c|
  {
    if !Binds(fs, c[0], n) {
      FirstBinderIsFirst(fs, c[1..], n);
      var k :| 0 <= k < |c[1..]| && c[1..][k] == FirstBinder(fs, c[1..], n).value &&
               (forall j :: 0 <= j < k ==> !Binds(fs, c[1..][j], n));
      assert c[k + 1] == FirstBinder(fs, c, n).value;
    } else {
      assert c[0] == FirstBinder(fs, c, n).value;
    }
  }

  // ---------------------------------------------------------------------
  // Operations

  /** Looks n up in frame id, then in its ancestors. */
  function Get(fs: Frames, id: FrameId, n: Bytes): (r: Option<Obj>)
    ensures r.Some? ==> exists f :: f in Chain(fs, id) && n in fs[f].vars && fs[f].vars[n] == r.value
    decreases id
  {
    if id >= |fs| then None
    else if n in fs[id].vars then Some(fs[id].vars[n])
    else match Parent(fs, id)
      case None => None
      case Some(p) => Get(fs, p, n)
  }

  /** Binds n to v in frame id only. */
  function Set(fs: Frames, id: FrameId, n: Bytes, v: Obj): (r: Frames)
    ensures |r| == |fs|
    ensures forall j :: 0 <= j < |fs| && j != id ==> r[j] == fs[j]
    ensures id < |fs| ==> n in r[id].vars && r[id].vars[n] == v
    ensures id < |fs| ==> forall m :: m != n ==> (m in r[id].vars <==> m in fs[id].vars)
    ensures id < |fs| ==> forall m :: m != n && m in fs[id].vars ==> r[id].vars[m] == fs[id].vars[m]
    ensures id < |fs| ==> r[id].consts == fs[id].consts && r[id].outer == fs[id].outer
    ensures Grows(fs, r)
  {
    if id < |fs| then fs[id := fs[id].(vars := fs[id].vars[n := v])] else fs
  }

  /** Binds n to v in frame id and marks n constant there. */
  function SetConst(fs: Frames, id: FrameId, n: Bytes, v: Obj): (r: Frames)
    ensures |r| == |fs|
    ensures forall j :: 0 <= j < |fs| && j != id ==> r[j] == fs[j]
    ensures id < |fs| ==> r[id].vars == Set(fs, id, n, v)[id].vars
    ensures id < |fs| ==> r[id].consts == fs[id].consts + {n} && r[id].outer == fs[id].outer
    ensures Grows(fs, r)
  {
    if id < |fs| then fs[id := Frame(fs[id].vars[n := v], fs[id].consts + {n}, fs[id].outer)] else fs
  }

  /** Whether some frame in the chain marks n constant. Bindings are not
      consulted: an inner non-constant binding does not hide an outer mark. */
  function IsConst(fs: Frames, id: FrameId, n: Bytes): (b: bool)
    decreases id
  {
    if id >= |fs| then false
    else if n in fs[id].consts then true
    else match Parent(fs, id)
      case None => false
      case Some(p) => IsConst(fs, p, n)
  }

  /** Overwrites n in the nearest frame that binds it; None when no frame
      in the chain binds n. */
  function Update(fs: Frames, id: FrameId, n: Bytes, v: Obj): (r: Option<Frames>)
    ensures r.Some? ==> |r.value| == |fs| && Grows(fs, r.value)
    decreases id
  {
    if id >= |fs| then None
    else if n in fs[id].vars then Some(Set(fs, id, n, v))
    else match Parent(fs, id)
      case None => None
      case Some(p) => Update(fs, p, n, v)
  }

  // ---------------------------------------------------------------------
  // The operations against the chain

  /** Get returns the binding of the first frame in the chain that binds
      the name, and nothing when no frame does. */
  lemma {:induction false} GetIsFirstBinding(fs: Frames, id: FrameId, n: Bytes)
    ensures Get(fs, id, n) ==
      match FirstBinder(fs, Chain(fs, id), n)
      case None => None
      case Some(f) => Some(fs[f].vars[n])
    decreases id
  {
    if id < |fs| && n !in fs[id].vars {
      var c := Chain(fs, id);
      match Parent(fs, id)
      case None =>
      case Some(p) =>
        GetIsFirstBinding(fs, p, n);
        assert c[1..] == Chain(fs, p);
    }
  }

  /** IsConst holds exactly when a frame of the chain marks the name. */
  lemma {:induction false} IsConstInChain(fs: Frames, id: FrameId, n: Bytes)
    ensures IsConst(fs, id, n) <==> exists f :: f in Chain(fs, id) && n in fs[f].consts
    decreases id
  {
    if id < |fs| && n !in fs[id].consts {
      match Parent(fs, id)
      case None =>
      case Some(p) =>
        IsConstInChain(fs, p, n);
        assert forall f :: f in Chain(fs, id) <==> f == id || f in Chain(fs, p);
    }
  }

  /** Update is Set applied to the first frame of the chain that binds the
      name; when none does it fails and creates nothing. */
  lemma {:induction false} UpdateIsSetAtBinder(fs: Frames, id: FrameId, n: Bytes, v: Obj)
    ensures Update(fs, id, n, v) ==
      match FirstBinder(fs, Chain(fs, id), n)
      case None => None
      case Some(f) => Some(Set(fs, f, n, v))
    decreases id
  {
    if id < |fs| && n !in fs[id].vars {
      var c := Chain(fs, id);
      match Parent(fs, id)
      case None =>
      case Some(p) =>
        UpdateIsSetAtBinder(fs, p, n, v);
        assert c[1..] == Chain(fs, p);
    }
  }

  /** Update succeeds exactly when the name is visible. */
  lemma UpdateNeedsBinding(fs: Frames, id: FrameId, n: Bytes, v: Obj)
    ensures Update(fs, id, n, v).Some? <==> Get(fs, id, n).Some?
  {
    GetIsFirstBinding(fs, id, n);
    UpdateIsSetAtBinder(fs, id, n, v);
  }

  /** Whether two stores have the same frames binding the same names,
      whatever the values. */
  predicate SameNames(a: Frames, b: Frames) {
    |a| == |b| && forall j :: 0 <= j < |a| ==> a[j].vars.Keys == b[j].vars.Keys
  }

  /** After a successful Update the name reads back as the new value, and
      Update adds no binding to any frame. */
  lemma UpdateThenGet(fs: Frames, id: FrameId, n: Bytes, v: Obj)
    requires Update(fs, id, n, v).Some?
    ensures var r := Update(fs, id, n, v).value;
      Get(r, id, n) == Some(v) && SameNames(r, fs)
  {
    UpdateIsSetAtBinder(fs, id, n, v);
    var f := FirstBinder(fs, Chain(fs, id), n).value;
    var r := Set(fs, f, n, v);
    SetKeepsChain(fs, f, n, v, id);
    GetIsFirstBinding(fs, id, n);
    GetIsFirstBinding(r, id, n);
    FirstBinderAfterSet(fs, Chain(fs, id), f, n, v);
  }

  // ---------------------------------------------------------------------
  // Writes and the chain

  /** Writing a binding never changes any parent link, so every chain stays
      the same. */
  lemma {:induction false} SetKeepsChain(fs: Frames, w: FrameId, n: Bytes, v: Obj, id: FrameId)
    ensures Chain(Set(fs, w, n, v), id) == Chain(fs, id)
    ensures Chain(SetConst(fs, w, n, v), id) == Chain(fs, id)
    decreases id
  {
    assert Parent(Set(fs, w, n, v), id) == Parent(fs, id);
    assert Parent(SetConst(fs, w, n, v), id) == Parent(fs, id);
    match Parent(fs, id)
    case None =>
    case Some(p) => SetKeepsChain(fs, w, n, v, p);
  }

  /** Writing n into the first frame of a chain that binds n keeps that
      frame the first binder. */
  lemma {:induction false} FirstBinderAfterSet(fs: Frames, c: seq<FrameId>, f: FrameId, n: Bytes, v: Obj)
    requires FirstBinder(fs, c, n) == Some(f)
    ensures FirstBinder(Set(fs, f, n, v), c, n) == Some(f)
    decreases |c|
  {
    if !Binds(fs, c[0], n) {
      FirstBinderAfterSet(fs, c[1..], f, n, v);
    }
  }

  /** Set binds in the current frame: the name reads back as the value from
      that frame, and every other name reads as before. */
  lemma GetAfterSet(fs: Frames, id: FrameId, n: Bytes, v: Obj, m: Bytes)
    requires id < |fs|
    ensures Get(Set(fs, id, n, v), id, n) == Some(v)
    ensures m != n ==> Get(Set(fs, id, n, v), id, m) == Get(fs, id, m)
  {
    if m != n {
      GetOtherName(fs, id, n, v, m, id);
    }
  }

  /** A write of n changes no lookup of another name from any frame. */
  lemma {:induction false} GetOtherName(fs: Frames, w: FrameId, n: Bytes, v: Obj, m: Bytes, id: FrameId)
    requires m != n
    ensures Get(Set(fs, w, n, v), id, m) == Get(fs, id, m)
    ensures Get(SetConst(fs, w, n, v), id, m) == Get(fs, id, m)
    decreases id
  {
    assert Parent(Set(fs, w, n, v), id) == Parent(fs, id);
    assert Parent(SetConst(fs, w, n, v), id) == Parent(fs, id);
    match Parent(fs, id)
    case None =>
    case Some(p) => GetOtherName(fs, w, n, v, m, p);
  }

  /** Set never clears or adds a const mark anywhere. */
  lemma {:induction false} SetKeepsConstMarks(fs: Frames, w: FrameId, n: Bytes, v: Obj, m: Bytes, id: FrameId)
    ensures IsConst(Set(fs, w, n, v), id, m) == IsConst(fs, id, m)
    decreases id
  {
    assert Parent(Set(fs, w, n, v), id) == Parent(fs, id);
    match Parent(fs, id)
    case None =>
    case Some(p) => SetKeepsConstMarks(fs, w, n, v, m, p);
  }

  /** After SetConst the name is constant from that frame and from every
      frame whose chain passes through it. */
  lemma SetConstMarks(fs: Frames, w: FrameId, n: Bytes, v: Obj, id: FrameId)
    requires w in Chain(fs, id)
    ensures IsConst(SetConst(fs, w, n, v), id, n)
  {
    var r := SetConst(fs, w, n, v);
    SetKeepsChain(fs, w, n, v, id);
    IsConstInChain(r, id, n);
    assert n in r[w].consts;
  }

  /** A write to a frame outside a chain is invisible from that chain. */
  lemma {:induction false} SetElsewhere(fs: Frames, w: FrameId, n: Bytes, v: Obj, m: Bytes, id: FrameId)
    requires w !in Chain(fs, id)
    ensures Get(Set(fs, w, n, v), id, m) == Get(fs, id, m)
    decreases id
  {
    var r := Set(fs, w, n, v);
    assert Parent(r, id) == Parent(fs, id);
    if id < |fs| {
      assert w != id;
      match Parent(fs, id)
      case None =>
      case Some(p) =>
        assert Chain(fs, id) == [id] + Chain(fs, p);
        SetElsewhere(fs, w, n, v, m, p);
    }
  }

  /** A fresh child frame sees exactly what its parent sees. */
  lemma EnclosedSeesOuter(fs: Frames, outer: FrameId, n: Bytes)
    requires outer < |fs|
    ensures var (r, id) := NewEnclosedEnvironment(fs, outer);
      Get(r, id, n) == Get(fs, outer, n) && IsConst(r, id, n) == IsConst(fs, outer, n)
  {
    var (r, id) := NewEnclosedEnvironment(fs, outer);
    assert Parent(r, id) == Some(outer);
    GrowKeepsGet(fs, r, outer, n);
  }

  /** Adding frames at the end of the store changes no lookup from an
      existing frame. */
  lemma {:induction false} GrowKeepsGet(fs: Frames, r: Frames, id: FrameId, n: Bytes)
    requires |fs| <= |r| && r[..|fs|] == fs && id < |fs|
    ensures Get(r, id, n) == Get(fs, id, n) && IsConst(r, id, n) == IsConst(fs, id, n)
    ensures Update(r, id, n, Nil).Some? == Update(fs, id, n, Nil).Some?
    decreases id
  {
    assert r[id] == fs[id];
    assert Parent(r, id) == Parent(fs, id);
    match Parent(fs, id)
    case None =>
    case Some(p) => GrowKeepsGet(fs, r, p, n);
  }
}
