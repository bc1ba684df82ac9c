/** Weighted means of two reals. */
module Mixes {

  /** u of the way from a to b. */
  function MixOne(a: real, b: real, u: real): real {
    (1.0 - u) * a + u * b
  }

  lemma MixNonNegative(a: real, b: real, u: real)
    requires 0.0 <= u <= 1.0 && a >= 0.0 && b >= 0.0
    ensures MixOne(a, b, u) >= 0.0
  {
    assert (1.0 - u) * a >= 0.0;
    assert u * b >= 0.0;
  }

  lemma MixSame(a: real, u: real)
    ensures MixOne(a, a, u) == a
  {
  }

  lemma MixPositive(a: real, b: real, u: real)
    requires 0.0 <= u <= 1.0 && a > 0.0 && b > 0.0
    ensures MixOne(a, b, u) > 0.0
  {
    if u > 0.0 {
      assert (1.0 - u) * a >= 0.0;
      assert u * b > 0.0;
    }
  }

  /** Taking the mean commutes with any affine combination of two quantities. */
  lemma MixLinear(a: real, b: real, c: real, d: real, f: real, g: real, h: real, x: real, y: real, u: real)
    requires x == f * a + g * c + h && y == f * b + g * d + h
    ensures MixOne(x, y, u) == f * MixOne(a, b, u) + g * MixOne(c, d, u) + h
  {
    var s := 1.0 - u;
    assert s * x == f * (s * a) + g * (s * c) + s * h;
    assert u * y == f * (u * b) + g * (u * d) + u * h;
    assert f * (s * a + u * b) == f * (s * a) + f * (u * b);
    assert g * (s * c + u * d) == g * (s * c) + g * (u * d);
    assert s * h + u * h == h;
  }

  lemma DivideUnit(n: real, d: real)
    requires 0.0 <= n <= d && d > 0.0
    ensures 0.0 <= n / d <= 1.0
  {
  }

  /** A real position between two others, as a mixture of them. */
  lemma MixReaches(a: real, b: real, x: real) returns (u: real)
    requires a <= x <= b || b <= x <= a
    ensures 0.0 <= u <= 1.0 && MixOne(a, b, u) == x
  {
    if a == b {
      u := 0.0;
    } else {
      u := (x - a) / (b - a);
      assert u * (b - a) == x - a;
      if a < b {
        DivideUnit(x - a, b - a);
      } else {
        DivideUnit(a - x, a - b);
        assert (a - x) / (a - b) == u;
      }
    }
  }
}
