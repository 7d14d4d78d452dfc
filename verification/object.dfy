/** Runtime values and the keys that index maps.

    Go compares objects by pointer. Every object that Go allocates afresh and
    that can meet another object of its own type under `==` carries the
    address of its allocation, so two such objects are the same Go object
    exactly when they are equal here. Booleans are always one of the two
    evaluator singletons and built-ins come from one table, so their value
    is their identity; integers and strings are never compared by identity. */
module Object {
  import opened Basics
  import opened Int64
  import opened Ast

  datatype ObjectType =
    | INTEGER | STRING | BOOLEAN | NULL | RETURN_VALUE | ERROR
    | FUNCTION | BUILTIN | ARRAY | MAP | BREAK | CONTINUE

  /** The type name Go prints in error messages. The break and continue
      object types are declared outside the object file; their names are
      taken to be BREAK and CONTINUE. */
  function TypeName(t: ObjectType): Bytes {
    match t
    case INTEGER => "INTEGER"
    case STRING => "STRING"
    case BOOLEAN => "BOOLEAN"
    case NULL => "NULL"
    case RETURN_VALUE => "RETURN_VALUE"
    case ERROR => "ERROR"
    case FUNCTION => "FUNCTION"
    case BUILTIN => "BUILTIN"
    case ARRAY => "ARRAY"
    case MAP => "MAP"
    case BREAK => "BREAK"
    case CONTINUE => "CONTINUE"
  }

  /** Allocation addresses. Address 0 is the evaluator's NULL singleton;
      every other allocation gets a fresh positive address. */
  type Addr = nat

  /** Index of an environment frame in the frame store. */
  type FrameId = nat

  /** The built-in functions, one per entry of the built-in table. */
  datatype BuiltinId = TULIS | TANYA | PANJANG | JENIS | WAKTU | DORONG | PERTAMA | AKHIR | ANTOS | ACAK

  /** A map key: the key's type and a 64-bit payload. */
  datatype HashKey = HashKey(kind: ObjectType, payload: nat)

  datatype Obj =
    | Int(value: int64)
    | Str(text: Bytes)
    | Bool(truth: bool)
    | Null(addr: Addr)
    | ReturnValue(addr: Addr, inner: Obj)
    | Error(message: Bytes)
    | Function(addr: Addr, name: Bytes, params: seq<Bytes>, body: Block, env: FrameId)
    | Builtin(fn: BuiltinId)
    | Array(addr: Addr, elements: seq<Obj>)
    | Map(addr: Addr, pairs: map<HashKey, MapPair>)
    | Break(addr: Addr)
    | Continue(addr: Addr)
      /** Go's nil interface: what an empty block, program or function body
          evaluates to. It has no type; asking for one is a nil dereference. */
    | Nil

  /** A map entry keeps the original key object next to the value. */
  datatype MapPair = MapPair(key: Obj, value: Obj)

  function TypeOf(o: Obj): ObjectType
    requires !o.Nil?
  {
    match o
    case Int(_) => INTEGER
    case Str(_) => STRING
    case Bool(_) => BOOLEAN
    case Null(_) => NULL
    case ReturnValue(_, _) => RETURN_VALUE
    case Error(_) => ERROR
    case Function(_, _, _, _, _) => FUNCTION
    case Builtin(_) => BUILTIN
    case Array(_, _) => ARRAY
    case Map(_, _) => MAP
    case Break(_) => BREAK
    case Continue(_) => CONTINUE
  }

  // ---------------------------------------------------------------------
  // FNV-1a, 64 bits

  const FNV_OFFSET: nat := 0xcbf29ce484222325
  const FNV_PRIME: nat := 0x100000001b3

  /** One FNV-1a step on a 64-bit state: xor the byte into the low eight
      bits, then multiply by the prime modulo 2^64. */
  function FnvStep(h: nat, b: byte): (r: nat)
    ensures r < TWO_64
  {
    var low := h % 256;
    var mixed := h - low + (((low as bv8) ^ (b as int as bv8)) as int);
    mixed * FNV_PRIME % TWO_64
  }

  /** Feeds the bytes of s, first to last, into the hash state h. */
  function FnvFold(h: nat, s: Bytes): (r: nat)
    ensures h < TWO_64 ==> r < TWO_64
    decreases |s|
  {
    if s == [] then h else FnvFold(FnvStep(h, s[0]), s[1..])
  }

  /** The FNV-1a 64-bit hash of a byte string. */
  function Fnv1a(s: Bytes): (r: nat)
    ensures r < TWO_64
  {
    FnvFold(FNV_OFFSET, s)
  }

  /** Hashing is incremental: hashing s + t continues from the state after
      s, which is what writing the bytes into the hasher in pieces does. */
  lemma {:induction false} FnvFoldAppend(h: nat, s: Bytes, t: Bytes)
    ensures FnvFold(h, s + t) == FnvFold(FnvFold(h, s), t)
    decreases |s|
  {
    if s != [] {
      assert s + t != [];
      assert FnvFold(h, s) == FnvFold(FnvStep(h, s[0]), s[1..]);
      assert (s + t)[0] == s[0];
      assert (s + t)[1..] == s[1..] + t;
      FnvFoldAppend(FnvStep(h, s[0]), s[1..], t);
    } else {
      assert s + t == t;
    }
  }

  /** The published FNV-1a 64 test values for "" and "a". */
  lemma FnvTestVectors()
    ensures Fnv1a("") == 0xcbf29ce484222325
    ensures Fnv1a("a") == 0xaf63dc4c8601ec8c
  {
    assert FNV_OFFSET % 256 == 0x25;
    assert (0x25 as bv8) ^ ('a' as int as bv8) == 0x44;
    assert FnvStep(FNV_OFFSET, 'a') == 0xaf63dc4c8601ec8c;
    assert Fnv1a("a") == FnvFold(FnvStep(FNV_OFFSET, 'a'), []);
  }

  // ---------------------------------------------------------------------
  // Hash keys

  /** The map key of a hashable object: integers, strings and booleans have
      one, every other object (and nil) has none. */
  function HashKeyOf(o: Obj): (k: Option<HashKey>)
    ensures k.Some? <==> (o.Int? || o.Str? || o.Bool?)
    ensures k.Some? ==> k.value.kind == TypeOf(o) && k.value.payload < TWO_64
  {
    match o
    case Int(v) => Some(HashKey(INTEGER, ToUint64(v)))
    case Str(s) => Some(HashKey(STRING, Fnv1a(s)))
    case Bool(b) => Some(HashKey(BOOLEAN, if b then 1 else 0))
    case _ => None
  }

  /** Integer keys are the integer's bit pattern, so distinct integers never
      share a key. */
  lemma IntKeyInjective(a: int64, b: int64)
    requires HashKeyOf(Int(a)) == HashKeyOf(Int(b))
    ensures a == b
  {
    ToUint64Injective(a, b);
  }

  /** The two booleans have distinct keys. */
  lemma BoolKeyInjective(a: bool, b: bool)
    requires HashKeyOf(Bool(a)) == HashKeyOf(Bool(b))
    ensures a == b
  {
  }

  /** Keys of objects of different types never collide, even when the
      payloads agree: the integer 1 and bener are different keys. */
  lemma KeysOfDifferentTypes(a: Obj, b: Obj)
    requires HashKeyOf(a).Some? && HashKeyOf(b).Some? && TypeOf(a) != TypeOf(b)
    ensures HashKeyOf(a) != HashKeyOf(b)
  {
  }

  lemma OneIsNotTrue()
    ensures HashKeyOf(Int(1)).value.payload == HashKeyOf(Bool(true)).value.payload
    ensures HashKeyOf(Int(1)) != HashKeyOf(Bool(true))
  {
  }
}
