/** Integer and real arithmetic as the C and C++ sources perform it. */
module Numbers {

  function Min(a: int, b: int): int {
    if a < b then a else b
  }

  function Max(a: int, b: int): int {
    if a < b then b else a
  }

  function RealMin(a: real, b: real): real {
    if b < a then b else a
  }

  function RealMax(a: real, b: real): real {
    if a < b then b else a
  }

  function Abs(x: real): real {
    if x < 0.0 then -x else x
  }

  /** C's integer division for a positive divisor: the quotient is truncated toward zero. */
  function TruncDiv(n: int, d: int): (q: int)
    requires d > 0
    ensures n >= 0 ==> 0 <= q && q * d <= n < q * d + d
    ensures n <= 0 ==> q <= 0 && q * d - d < n <= q * d
  {
    if n >= 0 then n / d else -((-n) / d)
  }

  /** C's conversion from a floating type to int: the fraction is dropped. */
  function Trunc(x: real): (i: int)
    ensures x >= 0.0 ==> 0 <= i && i as real <= x < i as real + 1.0
    ensures x <= 0.0 ==> i <= 0 && i as real - 1.0 < x <= i as real
  {
    if x >= 0.0 then x.Floor else -((-x).Floor)
  }

  /** roundf: nearest integer, halves away from zero. */
  function RoundHalfAway(x: real): (i: int)
    ensures x >= 0.0 ==> i as real - 0.5 <= x < i as real + 0.5
    ensures x <= 0.0 ==> i as real - 0.5 < x <= i as real + 0.5
  {
    if x >= 0.0 then (x + 0.5).Floor else -((-x + 0.5).Floor)
  }

  lemma RoundOfInteger(i: int)
    ensures RoundHalfAway(i as real) == i
  {
  }

  lemma MultipleAtLeast(k: int, d: int)
    requires d >= 0 && k >= 1
    ensures k * d >= d
  {
  }

  /** The two bounds of a truncated quotient determine it. */
  lemma TruncDivUnique(n: int, d: int, q: int)
    requires d > 0
    requires n >= 0 ==> q * d <= n < q * d + d
    requires n < 0 ==> q * d - d < n <= q * d
    ensures q == TruncDiv(n, d)
  {
    var t := TruncDiv(n, d);
    assert (q - t) * d == q * d - t * d;
    if q > t {
      MultipleAtLeast(q - t, d);
    } else if q < t {
      MultipleAtLeast(t - q, d);
    }
  }

  /** A multiple of the divisor divides exactly. */
  lemma {:induction false} TruncDivExact(q: int, d: int)
    requires d > 0
    ensures TruncDiv(q * d, d) == q
  {
    TruncDivUnique(q * d, d, q);
  }

  /** Dividing an inequality between integers by d gives one between reals. */
  lemma DivideLess(x: real, q: int, p: int, d: int)
    requires d > 0 && x * d as real == p as real
    ensures q * d <= p <==> q as real <= x
    ensures q * d < p <==> (q as real) < x
    ensures p <= q * d <==> x <= q as real
    ensures p < q * d <==> x < q as real
  {
  }

  lemma TruncBounds(x: real, q: int)
    requires x >= 0.0 ==> q as real <= x < (q + 1) as real
    requires x < 0.0 ==> (q - 1) as real < x <= q as real
    ensures Trunc(x) == q
  {
  }

  /** A real times d that equals the integer p truncates to p / d. */
  lemma TruncOfScaled(x: real, p: int, d: int)
    requires d > 0 && x * d as real == p as real
    ensures Trunc(x) == TruncDiv(p, d)
  {
    var q := TruncDiv(p, d);
    assert p >= 0 <==> x >= 0.0 by {
      DivideLess(x, 0, p, d);
    }
    if p >= 0 {
      assert q as real <= x by {
        DivideLess(x, q, p, d);
      }
      assert x < (q + 1) as real by {
        DivideLess(x, q + 1, p, d);
      }
    } else {
      assert x <= q as real by {
        DivideLess(x, q, p, d);
      }
      assert (q - 1) as real < x by {
        DivideLess(x, q - 1, p, d);
      }
    }
    TruncBounds(x, q);
  }

  lemma ProductSign(a: real, b: real)
    requires a >= 0.0
    ensures b >= 0.0 ==> a * b >= 0.0
    ensures b <= 0.0 ==> a * b <= 0.0
  {
  }

  /** A product by name, for proofs that need only what is said about it. */
  function Times(a: real, b: real): real {
    a * b
  }

  lemma PositiveProduct(a: real, b: real)
    requires a > 0.0 && b > 0.0
    ensures Times(a, b) > 0.0
  {
  }

  lemma ProductAsReal(a: int, b: int)
    ensures (a * b) as real == a as real * b as real
  {
  }

  /** Multiplying an exact ratio and truncating is integer multiply-then-divide. */
  lemma TruncOfRatio(n: int, m: int, d: int)
    requires d > 0
    ensures Trunc((n as real / d as real) * m as real) == TruncDiv(m * n, d)
  {
    var r := n as real / d as real;
    calc {
      (r * m as real) * d as real;
      (r * d as real) * m as real;
      { assert r * d as real == n as real; }
      n as real * m as real;
      { ProductAsReal(m, n); }
      (m * n) as real;
    }
    TruncOfScaled(r * m as real, m * n, d);
  }
}
