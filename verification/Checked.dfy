/** math/checked: arithmetic that refuses a result outside the type, with the source's own guards. */
module Checked {
  import opened Basics
  import opened VmTypes

  function Abs(a: int): nat
  {
    if a >= 0 then a else -a
  }

  /** Go's division, which truncates toward zero. */
  function Quotient(a: int, b: int): int
    requires b != 0
  {
    if (a >= 0) == (b > 0) then Abs(a) / Abs(b) else -(Abs(a) / Abs(b))
  }

  /** Go's remainder: it has the sign of the dividend. */
  function Remainder(a: int, b: int): (r: int)
    requires b != 0
    ensures 0 - Abs(b) < r < Abs(b)
    ensures a >= 0 ==> r >= 0
    ensures a <= 0 ==> r <= 0
  {
    var y := Abs(b);
    ModBound(Abs(a), y);
    if a >= 0 then Abs(a) % y else 0 - Abs(a) % y
  }

  lemma {:induction false} ModBound(x: nat, y: nat)
    requires y > 0
    ensures 0 <= x % y < y
    ensures x == y * (x / y) + x % y
    ensures x == 0 ==> x % y == 0
  {
  }

  lemma {:induction false} QuotientRemainder(a: int, b: int)
    requires b != 0
    ensures a == b * Quotient(a, b) + Remainder(a, b)
  {
    var x, y := Abs(a), Abs(b);
    ModBound(x, y);
    var q: int := x / y;
    NegatedProduct(b, q);
    assert b * q == (if b > 0 then y * q else -(y * q));
    assert Quotient(a, b) == q || Quotient(a, b) == -q;
  }

  lemma {:induction false} NegatedProduct(x: int, y: int)
    ensures (-x) * y == -(x * y) && x * (-y) == -(x * y) && (-x) * (-y) == x * y
  {
  }

  function AddInt64(a: int64, b: int64): (r: Option<int64>)
    ensures r.Some? <==> InInt64(a + b)
    ensures r.Some? ==> r.value == a + b
  {
    if (b > 0 && a > MAX_INT64 - b) || (b < 0 && a < MIN_INT64 - b) then None else Some(a + b)
  }

  function SubInt64(a: int64, b: int64): (r: Option<int64>)
    ensures r.Some? <==> InInt64(a - b)
    ensures r.Some? ==> r.value == a - b
  {
    if (b > 0 && a < MIN_INT64 + b) || (b < 0 && a > MAX_INT64 + b) then None else Some(a - b)
  }

  predicate MulOverflows(a: int, b: int)
  {
    || (a > 0 && b > 0 && a > Quotient(MAX_INT64, b))
    || (a > 0 && b <= 0 && b < Quotient(MIN_INT64, a))
    || (a <= 0 && b > 0 && a < Quotient(MIN_INT64, b))
    || (a < 0 && b <= 0 && b < Quotient(MAX_INT64, a))
  }

  /** For x > 0: y is more than m / x exactly when the product is more than m. */
  lemma {:induction false} QuotientBound(m: nat, x: nat, y: nat)
    requires x > 0
    ensures y > m / x <==> x * y > m
  {
    var q := m / x;
    assert m == x * q + m % x && 0 <= m % x < x;
    if y > q {
      MulMono(x, q + 1, y);
      assert x * (q + 1) == x * q + x;
    } else {
      MulMono(x, y, q);
    }
  }

  lemma {:induction false} MulMono(x: nat, y: nat, z: nat)
    requires y <= z
    ensures x * y <= x * z
  {
  }

  /** The four guards of MulInt64 refuse exactly the products outside the range. */
  lemma {:induction false} MulExact(a: int, b: int)
    requires InInt64(a) && InInt64(b)
    ensures MulOverflows(a, b) <==> !InInt64(a * b)
  {
    NegatedProduct(a, b);
    if a > 0 && b > 0 {
      QuotientBound(MAX_INT64, b, a);
    } else if a > 0 {
      QuotientBound(-MIN_INT64, a, -b);
    } else if b > 0 {
      QuotientBound(-MIN_INT64, b, -a);
    } else if a < 0 {
      QuotientBound(MAX_INT64, -a, -b);
    }
  }

  function MulInt64(a: int64, b: int64): (r: Option<int64>)
    ensures r.Some? <==> InInt64(a * b)
    ensures r.Some? ==> r.value == a * b
  {
    MulExact(a, b);
    if MulOverflows(a, b) then None else Some(a * b)
  }

  lemma {:induction false} QuotientShrinks(m: nat, x: nat)
    requires x > 0
    ensures 0 <= m / x <= m
    ensures x > 1 && m > 0 ==> m / x < m
  {
    QuotientBound(m, x, m);
    if m > 0 {
      MulMono(m, 1, x);
      if x > 1 { MulMono(m, 2, x); QuotientBound(m, x, m); }
    }
    QuotientBound(m, x, m + 1);
    MulMono(m + 1, 1, x);
  }

  function DivInt64(a: int64, b: int64): (r: Option<int64>)
    ensures r.Some? <==> b != 0 && InInt64(Quotient(a, b))
    ensures r.Some? ==> r.value == Quotient(a, b)
  {
    if b != 0 then
      QuotientShrinks(Abs(a), Abs(b));
      if a == MIN_INT64 && b == -1 then None else Some(Quotient(a, b))
    else None
  }

  function ModInt64(a: int64, b: int64): (r: Option<int64>)
    ensures r.Some? <==> b != 0 && !(a == MIN_INT64 && b == -1)
    ensures r.Some? ==> r.value == Remainder(a, b)
  {
    if b == 0 || (a == MIN_INT64 && b == -1) then None else Some(Remainder(a, b))
  }

  function NegateInt64(a: int64): (r: Option<int64>)
    ensures r.Some? <==> InInt64(0 - a)
    ensures r.Some? ==> r.value == 0 - a
  {
    if a == MIN_INT64 then None else Some(0 - a)
  }

  /** Go's arithmetic shift right of an int64: division by a power of two rounded down. */
  function Rshift(a: int64, b: nat): (r: int64)
    ensures b < 64 ==> r == a / Pow2(b)
  {
    if b >= 64 then if a < 0 then -1 else 0
    else
      ShiftInRange(a, Pow2(b));
      a / Pow2(b)
  }

  lemma {:induction false} ShiftInRange(a: int, p: nat)
    requires InInt64(a) && p > 0
    ensures InInt64(a / p)
  {
    var q := a / p;
    assert a == p * q + a % p && 0 <= a % p < p;
    Scaled(p, q, MAX_INT64);
    Scaled(p, q, -MIN_INT64);
  }

  lemma {:induction false} Scaled(p: nat, q: int, m: nat)
    requires p > 0
    ensures q > m ==> p * q > m
    ensures q < 0 - m ==> p * q + p <= 0 - m
  {
    MulMono(m, 1, p);
    if q > m {
      MulMono(p, m + 1, q);
      assert p * (m + 1) == m * p + p;
    }
    var w: int := 0 - q;
    if w > m {
      MulMono(p, m + 1, w);
      assert p * (m + 1) == m * p + p;
      NegatedProduct(p, w);
      assert p * q == -(p * w);
    }
  }

  /** a is above MAX >> b, or below MIN >> b, exactly when a << b does not fit. */
  lemma {:induction false} LshiftExact(a: int, b: nat)
    requires InInt64(a) && b < 64
    ensures a >= 0 ==> (a > MAX_INT64 / Pow2(b) <==> !InInt64(a * Pow2(b)))
    ensures a < 0 ==> (a < MIN_INT64 / Pow2(b) <==> !InInt64(a * Pow2(b)))
  {
    var p := Pow2(b);
    if a >= 0 {
      QuotientBound(MAX_INT64, p, a);
    } else {
      Pow2Divides(b);
      var k := Pow2(63 - b);
      NegatedProduct(p, k);
      NegatedProduct(a, p);
      ExactQuotient(MIN_INT64, p, -(k as int));
      QuotientBound(-MIN_INT64, p, -a);
      ExactQuotient(-MIN_INT64, p, k);
    }
  }

  lemma {:induction false} ExactQuotient(m: int, p: nat, k: int)
    requires p > 0 && m == p * k
    ensures m / p == k
  {
    var q := m / p;
    assert m == p * q + m % p && 0 <= m % p < p;
    assert p * (k - q) == p * k - p * q;
    Multiple(p, k - q);
  }

  lemma {:induction false} Multiple(p: nat, d: int)
    ensures d >= 1 ==> p * d >= p
    ensures d <= -1 ==> p * d <= 0 - p
  {
    NegatedProduct(p, d);
    if d >= 1 { MulMono(p, 1, d); }
    if d <= -1 { MulMono(p, 1, 0 - d); assert 0 - d == -d; }
  }

  lemma {:induction false} Pow2Sum(i: nat, j: nat)
    ensures Pow2(i + j) == Pow2(i) * Pow2(j)
  {
    if i > 0 {
      Pow2Sum(i - 1, j);
      assert 2 * (Pow2(i - 1) * Pow2(j)) == (2 * Pow2(i - 1)) * Pow2(j);
    }
  }

  lemma {:induction false} Pow2Values()
    ensures Pow2(63) == -MIN_INT64
  {
    assert Pow2(4) == 16;
    assert Pow2(7) == 128 by { assert Pow2(6) == 64; }
    Pow2Sum(4, 4);
    Pow2Sum(8, 8);
    Pow2Sum(16, 16);
    Pow2Sum(32, 16);
    Pow2Sum(48, 8);
    Pow2Sum(56, 7);
  }

  lemma {:induction false} Pow2Divides(b: nat)
    requires b < 64
    ensures Pow2(b) * Pow2(63 - b) == -MIN_INT64
  {
    hide Pow2;
    Pow2Sum(b, 63 - b);
    Pow2Values();
  }

  function LshiftInt64(a: int64, b: int64): (r: Option<int64>)
    ensures r.Some? <==> 0 <= b < 64 && InInt64(a * Pow2(b))
    ensures r.Some? ==> r.value == a * Pow2(b)
  {
    if b < 0 || b >= 64 then None
    else
      LshiftExact(a, b);
      if (a >= 0 && a > MAX_INT64 / Pow2(b)) || (a < 0 && a < MIN_INT64 / Pow2(b)) then None
      else Some(a * Pow2(b))
  }

  function AddUint32(a: nat, b: nat): (r: Option<nat>)
    requires a < TWO_32 && b < TWO_32
    ensures r.Some? <==> a + b < TWO_32
    ensures r.Some? ==> r.value == a + b
  {
    if TWO_32 - 1 - a < b then None else Some(a + b)
  }
}
