/** Byte strings, optional values and abortable outcomes shared by every
    module of the interpreter model.

    Go strings are byte strings. A byte is represented here by the character
    with the same code (0..255), so that string literals such as "gawe" can be
    used directly as byte strings. */
module Basics {

  /** One byte of a Go string. */
  type byte = c: char | c as int < 256 witness 'a'

  /** A Go string: a sequence of bytes. */
  type Bytes = seq<byte>

  /** The zero byte, which the lexer also reports when it reads past the end. */
  const NUL: byte := 0 as char

  datatype Option<+T> = None | Some(value: T)

  /** Why an evaluation stopped without producing an object. A Go panic (a
      method called on a nil object) unwinds the whole interpreter, and the
      model's fuel bound can run out; both abort every enclosing evaluation. */
  datatype AbortReason = NilDereference | OutOfFuel

  /** Either a value or an abort. Failure-compatible, so `:-` propagates an
      abort exactly like the Go panic would unwind. */
  datatype Outcome<+T> = Done(value: T) | Abort(reason: AbortReason) {
    predicate IsFailure() {
      Abort?
    }

    function PropagateFailure<U>(): Outcome<U>
      requires Abort?
    {
      Abort(reason)
    }

    function Extract(): T
      requires Done?
    {
      value
    }
  }

  /** The ASCII digit for d. */
  function DigitByte(d: nat): (c: byte)
    requires d < 10
    ensures '0' <= c <= '9'
    ensures c as int - '0' as int == d
  {
    (d + '0' as int) as char
  }

  /** Go's `%d` rendering of a non-negative integer. */
  function Decimal(n: nat): (r: Bytes)
    ensures 1 <= |r|
    ensures forall i :: 0 <= i < |r| ==> '0' <= r[i] <= '9'
    ensures n > 0 ==> r[0] != '0'
    decreases n
  {
    if n < 10 then [DigitByte(n)] else Decimal(n / 10) + [DigitByte(n % 10)]
  }

  /** The number a string of ASCII digits denotes. */
  function DigitsValue(s: Bytes): nat
    requires forall i :: 0 <= i < |s| ==> '0' <= s[i] <= '9'
    decreases |s|
  {
    if s == [] then 0
    else 10 * DigitsValue(s[..|s| - 1]) + (s[|s| - 1] as int - '0' as int)
  }

  /** Reading back a rendered number gives the number. */
  lemma {:induction false} DecimalRoundTrip(n: nat)
    ensures DigitsValue(Decimal(n)) == n
    decreases n
  {
    if n >= 10 {
      DecimalRoundTrip(n / 10);
      var r := Decimal(n);
      assert r[..|r| - 1] == Decimal(n / 10);
    }
  }

  /** Distinct numbers render differently. */
  lemma DecimalInjective(m: nat, n: nat)
    requires Decimal(m) == Decimal(n)
    ensures m == n
  {
    DecimalRoundTrip(m);
    DecimalRoundTrip(n);
  }
}
