/** The built-in function table and the built-ins themselves. Output,
    input, sleeping, the clock and the random source are outside the model:
    `tulis` and `antos` only check their arguments, and `tanya`, `waktu` and
    `acak` take what they read from the host. */
module Builtins {
  import opened Basics
  import opened Int64
  import opened Object
  import opened Runtime

  /** The names under which the built-ins are visible. */
  const Table: map<Bytes, BuiltinId> := map[
    "tulis" := TULIS, "tanya" := TANYA, "panjang" := PANJANG, "jenis" := JENIS,
    "waktu" := WAKTU, "dorong" := DORONG, "pertama" := PERTAMA, "akhir" := AKHIR,
    "antos" := ANTOS, "acak" := ACAK
  ]

  /** Every built-in is in the table under exactly one name. */
  lemma TableCoversBuiltins(b: BuiltinId)
    ensures exists n :: n in Table && Table[n] == b
    ensures forall m, n :: m in Table && n in Table && Table[m] == Table[n] ==> m == n
  {
    match b
    case TULIS => assert Table["tulis"] == b;
    case TANYA => assert Table["tanya"] == b;
    case PANJANG => assert Table["panjang"] == b;
    case JENIS => assert Table["jenis"] == b;
    case WAKTU => assert Table["waktu"] == b;
    case DORONG => assert Table["dorong"] == b;
    case PERTAMA => assert Table["pertama"] == b;
    case AKHIR => assert Table["akhir"] == b;
    case ANTOS => assert Table["antos"] == b;
    case ACAK => assert Table["acak"] == b;
  }

  /** The error for a wrong argument count: the prefix, then the count
      received in decimal. */
  function CountError(prefix: Bytes, n: nat): (e: Obj)
    ensures e.Error? && |prefix| < |e.message| && e.message[..|prefix|] == prefix
  {
    Error(prefix + Decimal(n))
  }

  /** The count can be read back from the message. */
  lemma CountErrorReadsBack(prefix: Bytes, n: nat)
    ensures var digits := CountError(prefix, n).message[|prefix|..];
      (forall i :: 0 <= i < |digits| ==> '0' <= digits[i] <= '9') && DigitsValue(digits) == n
  {
    assert CountError(prefix, n).message[|prefix|..] == Decimal(n);
    DecimalRoundTrip(n);
  }

  /** The string with one trailing newline removed, if it has one. */
  function TrimNewline(s: Bytes): (r: Bytes)
    ensures s == r || s == r + ['\n']
    ensures |s| > 0 && s[|s| - 1] == '\n' <==> s != r
  {
    if |s| > 0 && s[|s| - 1] == '\n' then s[..|s| - 1] else s
  }

  // ---------------------------------------------------------------------
  // Pure built-ins

  /** panjang: the byte length of a string or the element count of an
      array. Nil has no type to report and panics. */
  function Panjang(args: seq<Obj>): (r: Outcome<Obj>)
    ensures |args| != 1 ==> r == Done(CountError("panjang() butuh 1 argumen, dapat ", |args|))
    ensures r.Abort? <==> |args| == 1 && args[0].Nil?
    ensures |args| == 1 && args[0].Str? && |args[0].text| <= MAX_INT64 ==> r == Done(Int(|args[0].text|))
    ensures |args| == 1 && args[0].Array? && |args[0].elements| <= MAX_INT64 ==> r == Done(Int(|args[0].elements|))
    ensures |args| == 1 && !args[0].Nil? && !args[0].Str? && !args[0].Array? ==>
      r == Done(Error("panjang() tidak mendukung tipe " + TypeName(TypeOf(args[0]))))
  {
    if |args| != 1 then Done(CountError("panjang() butuh 1 argumen, dapat ", |args|))
    else match args[0]
      case Str(s) => Done(Int(Wrap(|s|)))
      case Array(_, es) => Done(Int(Wrap(|es|)))
      case Nil => Abort(NilDereference)
      case o => Done(Error("panjang() tidak mendukung tipe " + TypeName(TypeOf(o))))
  }

  /** The word jenis reports for an object. */
  function TypeWord(o: Obj): Bytes {
    match o
    case Int(_) => "angka"
    case Str(_) => "teks"
    case Bool(_) => "boolean"
    case Null(_) => "kosong"
    case Array(_, _) => "array"
    case Map(_, _) => "map"
    case Function(_, _, _, _, _) => "fungsi"
    case Builtin(_) => "fungsi_bawaan"
    case _ => "tidak_dikenal"
  }

  /** jenis: the name of the argument's type; return values, errors, loop
      signals and nil are all "tidak_dikenal". */
  function Jenis(args: seq<Obj>): (r: Obj)
    ensures |args| != 1 ==> r == CountError("jenis() butuh 1 argumen, dapat ", |args|)
    ensures |args| == 1 ==> r.Str? && (r.text == "tidak_dikenal" <==>
      args[0].ReturnValue? || args[0].Error? || args[0].Break? || args[0].Continue? || args[0].Nil?)
    ensures |args| == 1 && args[0].Int? ==> r == Str("angka")
    ensures |args| == 1 && args[0].Str? ==> r == Str("teks")
    ensures |args| == 1 && args[0].Bool? ==> r == Str("boolean")
    ensures |args| == 1 && args[0].Null? ==> r == Str("kosong")
    ensures |args| == 1 && args[0].Array? ==> r == Str("array")
    ensures |args| == 1 && args[0].Map? ==> r == Str("map")
    ensures |args| == 1 && args[0].Function? ==> r == Str("fungsi")
    ensures |args| == 1 && args[0].Builtin? ==> r == Str("fungsi_bawaan")
  {
    if |args| != 1 then CountError("jenis() butuh 1 argumen, dapat ", |args|)
    else Str(TypeWord(args[0]))
  }

  /** dorong: a new array holding the old elements followed by the second
      argument. The array passed in is left as it was. */
  function Dorong(args: seq<Obj>, st: State): (r: Res)
    ensures |args| != 2 ==> r == Res(CountError("dorong() butuh 2 argumen, dapat ", |args|), st)
    ensures |args| == 2 && !args[0].Array? ==> r == Res(Error("argumen pertama dorong() harus array"), st)
    ensures |args| == 2 && args[0].Array? ==>
      r.obj.Array? && r.obj.addr > st.next && r.st == Alloc(st).1 &&
      |r.obj.elements| == |args[0].elements| + 1 &&
      r.obj.elements[..|args[0].elements|] == args[0].elements &&
      r.obj.elements[|args[0].elements|] == args[1]
  {
    if |args| != 2 then Res(CountError("dorong() butuh 2 argumen, dapat ", |args|), st)
    else if !args[0].Array? then Res(Error("argumen pertama dorong() harus array"), st)
    else
      var (a, st') := Alloc(st);
      Res(Array(a, args[0].elements + [args[1]]), st')
  }

  /** pertama: the first element, or a fresh null for an empty array. */
  function Pertama(args: seq<Obj>, st: State): (r: Res)
    ensures |args| != 1 ==> r == Res(CountError("pertama() butuh 1 argumen, dapat ", |args|), st)
    ensures |args| == 1 && !args[0].Array? ==> r == Res(Error("argumen pertama() harus array"), st)
    ensures |args| == 1 && args[0].Array? && args[0].elements != [] ==> r == Res(args[0].elements[0], st)
    ensures |args| == 1 && args[0].Array? && args[0].elements == [] ==> r == FreshNull(st)
  {
    if |args| != 1 then Res(CountError("pertama() butuh 1 argumen, dapat ", |args|), st)
    else if !args[0].Array? then Res(Error("argumen pertama() harus array"), st)
    else if args[0].elements == [] then FreshNull(st)
    else Res(args[0].elements[0], st)
  }

  /** akhir: the last element, or a fresh null for an empty array. */
  function Akhir(args: seq<Obj>, st: State): (r: Res)
    ensures |args| != 1 ==> r == Res(CountError("akhir() butuh 1 argumen, dapat ", |args|), st)
    ensures |args| == 1 && !args[0].Array? ==> r == Res(Error("argumen akhir() harus array"), st)
    ensures |args| == 1 && args[0].Array? && args[0].elements != [] ==>
      r == Res(args[0].elements[|args[0].elements| - 1], st)
    ensures |args| == 1 && args[0].Array? && args[0].elements == [] ==> r == FreshNull(st)
  {
    if |args| != 1 then Res(CountError("akhir() butuh 1 argumen, dapat ", |args|), st)
    else if !args[0].Array? then Res(Error("argumen akhir() harus array"), st)
    else if args[0].elements == [] then FreshNull(st)
    else Res(args[0].elements[|args[0].elements| - 1], st)
  }

  // ---------------------------------------------------------------------
  // Built-ins that use the host

  /** acak: a host draw reduced into [0, n) when given one positive
      integer n; an error otherwise. */
  function Acak(args: seq<Obj>, st: State, h: Host): (r: Res)
    ensures r.obj.Int? <==> |args| == 1 && args[0].Int? && args[0].value > 0
    ensures r.obj.Int? ==> 0 <= r.obj.value < args[0].value
    ensures |args| != 1 ==> r.obj == CountError("acak() butuh 1 argumen (max), dapat ", |args|)
    ensures |args| == 1 && !args[0].Int? ==> r.obj == Error("argumen acak() harus angka")
    ensures |args| == 1 && args[0].Int? && args[0].value <= 0 ==>
      r.obj == Error("argumen acak() harus lebih besar dari 0")
  {
    if |args| != 1 then Res(CountError("acak() butuh 1 argumen (max), dapat ", |args|), st)
    else if !args[0].Int? then Res(Error("argumen acak() harus angka"), st)
    else if args[0].value <= 0 then Res(Error("argumen acak() harus lebih besar dari 0"), st)
    else
      var d := h.draw(st.next) % args[0].value;
      assert 0 <= d < args[0].value;
      Res(Int(d), Alloc(st).1)
  }

  /** antos: checks for one integer argument and returns a fresh null; the
      pause itself is not modelled. */
  function Antos(args: seq<Obj>, st: State): (r: Res)
    ensures r.obj.Null? <==> |args| == 1 && args[0].Int?
    ensures r.obj.Null? ==> r == FreshNull(st)
    ensures |args| != 1 ==> r.obj == CountError("antos() butuh 1 argumen (ms), dapat ", |args|)
    ensures |args| == 1 && !args[0].Int? ==> r.obj == Error("argumen antos() harus angka")
  {
    if |args| != 1 then Res(CountError("antos() butuh 1 argumen (ms), dapat ", |args|), st)
    else if !args[0].Int? then Res(Error("argumen antos() harus angka"), st)
    else FreshNull(st)
  }

  /** waktu: the host clock, when called with no arguments. */
  function Waktu(args: seq<Obj>, st: State, h: Host): (r: Res)
    ensures r.obj.Int? <==> args == []
    ensures args != [] ==> r == Res(Error("waktu() tidak butuh argumen"), st)
  {
    if args != [] then Res(Error("waktu() tidak butuh argumen"), st)
    else Res(Int(h.clock(st.next)), Alloc(st).1)
  }

  /** tulis: renders every argument (panicking on nil inside one) and
      returns a fresh null; the text written is not modelled. */
  function Tulis(args: seq<Obj>, st: State): (r: Outcome<Res>)
    ensures r.Abort? <==> exists i :: 0 <= i < |args| && InspectPanics(args[i])
    ensures r.Done? ==> r.value == FreshNull(st)
  {
    if exists i :: 0 <= i < |args| && InspectPanics(args[i]) then Abort(NilDereference)
    else Done(FreshNull(st))
  }

  /** tanya: with at most one argument, renders the prompt and returns the
      next input line without its newline, or an error when reading fails. */
  function Tanya(args: seq<Obj>, st: State, h: Host): (r: Outcome<Res>)
    ensures |args| > 1 ==> r == Done(Res(Error("tanya() butuh maksimal 1 argumen"), st))
    ensures r.Abort? <==> |args| == 1 && InspectPanics(args[0])
    ensures r.Done? && r.value.obj.Str? ==>
      |args| <= 1 && h.line(st.next).Some? &&
      var line, text := h.line(st.next).value, r.value.obj.text;
      line == text + ['\n'] || (line == text && (text == [] || text[|text| - 1] != '\n'))
    ensures r.Done? && |args| <= 1 && h.line(st.next).Some? ==>
      r.value.obj == Str(TrimNewline(h.line(st.next).value))
    ensures r.Done? && |args| <= 1 && h.line(st.next).None? ==>
      r.value.obj == Error("gagal membaca input")
  {
    if |args| > 1 then Done(Res(Error("tanya() butuh maksimal 1 argumen"), st))
    else if |args| == 1 && InspectPanics(args[0]) then Abort(NilDereference)
    else
      var st' := Alloc(st).1;
      match h.line(st.next)
      case None => Done(Res(Error("gagal membaca input"), st'))
      case Some(s) => Done(Res(Str(TrimNewline(s)), st'))
  }

  // ---------------------------------------------------------------------
  // The built-ins against each other

  /** Pushing adds one to the length, and the pushed value is the new last
      element; the first element is unchanged unless the array was empty. */
  lemma DorongThenRead(arr: Obj, x: Obj, st: State)
    requires arr.Array? && |arr.elements| < MAX_INT64
    ensures var pushed := Dorong([arr, x], st);
      Panjang([pushed.obj]) == Done(Int(|arr.elements| + 1)) &&
      Akhir([pushed.obj], pushed.st).obj == x &&
      Pertama([pushed.obj], pushed.st).obj == (if arr.elements == [] then x else arr.elements[0])
  {
    var pushed := Dorong([arr, x], st);
    assert pushed.obj.elements == arr.elements + [x];
  }

  /** jenis tells two values apart exactly when their object types differ,
      for every value it names. */
  lemma JenisSeparatesTypes(a: Obj, b: Obj)
    requires !a.Nil? && !b.Nil? && Jenis([a]).text != "tidak_dikenal"
    ensures Jenis([a]) == Jenis([b]) <==> TypeOf(a) == TypeOf(b)
  {
  }

  /** Calls a built-in on already evaluated arguments. */
  function CallBuiltin(b: BuiltinId, args: seq<Obj>, st: State, h: Host): (r: Outcome<Res>)
    ensures r.Done? ==> r.value.st.frames == st.frames && r.value.st.next >= st.next
  {
    match b
    case TULIS => Tulis(args, st)
    case TANYA => Tanya(args, st, h)
    case PANJANG => var o :- Panjang(args); Done(Res(o, st))
    case JENIS => Done(Res(Jenis(args), st))
    case WAKTU => Done(Waktu(args, st, h))
    case DORONG => Done(Dorong(args, st))
    case PERTAMA => Done(Pertama(args, st))
    case AKHIR => Done(Akhir(args, st))
    case ANTOS => Done(Antos(args, st))
    case ACAK => Done(Acak(args, st, h))
  }
}
