/** Go `int64` arithmetic on unbounded integers: two's-complement
    wrap-around for `+ - *` and unary minus, and division and remainder that
    truncate toward zero. */
module Int64 {

  const TWO_63: int := 0x8000_0000_0000_0000
  const TWO_64: int := 0x1_0000_0000_0000_0000
  const MIN_INT64: int := -TWO_63
  const MAX_INT64: int := TWO_63 - 1

  type int64 = x: int | MIN_INT64 <= x <= MAX_INT64

  /** The int64 that two's-complement arithmetic stores for the exact value x. */
  function Wrap(x: int): (r: int64)
    ensures (r - x) % TWO_64 == 0
    ensures MIN_INT64 <= x <= MAX_INT64 ==> r == x
  {
    var m := x % TWO_64;
    if m <= MAX_INT64 then m else m - TWO_64
  }

  /** Wrap keeps exactly the residue modulo 2^64: it is the unique int64 in
      the residue class of x. */
  lemma WrapUnique(x: int, y: int64)
    requires (y - x) % TWO_64 == 0
    ensures Wrap(x) == y
  {
    var w := Wrap(x);
    assert (w - y) % TWO_64 == 0 by {
      assert w - y == (w - x) - (y - x);
    }
    assert -TWO_64 < w - y < TWO_64;
  }

  function Add(a: int64, b: int64): int64 { Wrap(a + b) }
  function Sub(a: int64, b: int64): int64 { Wrap(a - b) }
  function Mul(a: int64, b: int64): int64 { Wrap(a * b) }
  function Neg(a: int64): int64 { Wrap(0 - a as int) }

  function Abs(x: int): nat { if x < 0 then -x else x }

  /** Quotient rounded toward zero (Go's `/` on exact integers). */
  function Quot(a: int, b: int): (q: int)
    requires b != 0
  {
    var q := Abs(a) / Abs(b);
    if (a < 0) == (b < 0) then q else -q
  }

  /** Remainder that goes with Quot (Go's `%`): it has the sign of the
      dividend. */
  function Rem(a: int, b: int): (r: int)
    requires b != 0
  {
    a - b * Quot(a, b)
  }

  /** Euclidean division facts for a non-negative dividend and a positive
      divisor, stated with the product named. */
  lemma NatDivision(x: nat, y: nat)
    requires y > 0
    ensures x == y * (x / y) + x % y
    ensures 0 <= x % y < y
    ensures 0 <= y * (x / y) <= x
  {
    var q := x / y;
    assert q >= 0;
    assert y * q >= 0;
  }

  lemma MulNeg(x: int, y: int)
    ensures (-x) * y == -(x * y)
    ensures x * (-y) == -(x * y)
  {
  }

  /** b * Quot(a, b) is the multiple of |b| below |a|, with the sign of a. */
  lemma QuotProduct(a: int, b: int)
    requires b != 0
    ensures b * Quot(a, b) == if a < 0 then -(Abs(b) * (Abs(a) / Abs(b))) else Abs(b) * (Abs(a) / Abs(b))
  {
    var B: int := Abs(b);
    var q: int := Abs(a) / Abs(b);
    var p: int := B * q;
    if b > 0 {
      assert b == B;
      if a < 0 {
        assert Quot(a, b) == -q;
        MulNeg(B, q);
      } else {
        assert Quot(a, b) == q;
      }
    } else {
      assert b == -B;
      if a < 0 {
        assert Quot(a, b) == q;
        MulNeg(B, q);
      } else {
        assert Quot(a, b) == -q;
        MulNeg(B, q);
        MulNeg(-B, q);
        assert (-B) * (-q) == B * q;
      }
    }
  }

  /** The defining properties of truncating division: the division identity,
      a remainder smaller than the divisor that takes the dividend's sign, and
      a quotient no larger in magnitude than the exact one. */
  lemma QuotRem(a: int, b: int)
    requires b != 0
    ensures a == b * Quot(a, b) + Rem(a, b)
    ensures Abs(Rem(a, b)) < Abs(b)
    ensures Rem(a, b) == 0 || ((Rem(a, b) < 0) == (a < 0))
    ensures Abs(b * Quot(a, b)) <= Abs(a)
  {
    NatDivision(Abs(a), Abs(b));
    QuotProduct(a, b);
  }

  /** Go's int64 `/`. Only MinInt64 / -1 leaves the int64 range, and Go wraps
      it back to MinInt64. */
  function Div(a: int64, b: int64): int64
    requires b != 0
  {
    Wrap(Quot(a, b))
  }

  /** Go's int64 `%`. */
  function Mod(a: int64, b: int64): (r: int64)
    requires b != 0
    ensures r == Rem(a, b)
  {
    QuotRem(a, b);
    Rem(a, b)
  }

  lemma MulMono(x: nat, y: nat, z: nat)
    requires x <= y
    ensures x * z <= y * z
  {
  }

  /** Division is exact except for the single overflowing quotient. */
  lemma DivExact(a: int64, b: int64)
    requires b != 0
    ensures !(a == MIN_INT64 && b == -1) ==> Div(a, b) == Quot(a, b)
    ensures a == MIN_INT64 && b == -1 ==> Div(a, b) == MIN_INT64 && Mod(a, b) == 0
  {
    var A, B := Abs(a), Abs(b);
    NatDivision(A, B);
    var q := A / B;
    assert Abs(Quot(a, b)) == q;
    if a == MIN_INT64 && b == -1 {
      assert Quot(a, b) == TWO_63;
      assert Rem(a, b) == 0;
    } else if B == 1 {
      assert q == A;
      assert MIN_INT64 <= Quot(a, b) <= MAX_INT64;
    } else {
      MulMono(2, B, q);
      assert 2 * q <= A;
      assert MIN_INT64 <= Quot(a, b) <= MAX_INT64;
    }
  }

  /** Go's conversion uint64(v): the bit pattern of v read as unsigned. */
  function ToUint64(v: int64): (u: nat)
    ensures u < TWO_64
    ensures v >= 0 ==> u == v
    ensures v < 0 ==> u == v + TWO_64
  {
    v % TWO_64
  }

  /** uint64(v) loses no information on int64. */
  lemma ToUint64Injective(a: int64, b: int64)
    requires ToUint64(a) == ToUint64(b)
    ensures a == b
  {
  }
}
