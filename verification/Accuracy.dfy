/**
  How the covered pixels relate to the exact triangle of real points: every lattice point of
  the triangle is covered, and every covered pixel is less than one pixel away from it.
 */
module Accuracy {
  import opened Mixes
  import opened Numbers
  import opened Points
  import opened Triangles

  /** Barycentric weights. */
  datatype Weights = Weights(p: real, q: real, r: real)

  /** (x, y) is the convex combination of the corners with these weights. */
  predicate PointAt(t: Triangle, w: Weights, x: real, y: real) {
    && w.p >= 0.0 && w.q >= 0.0 && w.r >= 0.0 && w.p + w.q + w.r == 1.0
    && x == w.p * t.p.x as real + w.q * t.q.x as real + w.r * t.r.x as real
    && y == w.p * t.p.y as real + w.q * t.q.y as real + w.r * t.r.y as real
  }

  /** Which side of the line through a and b the point is on; zero on the line. */
  function Side(a: Point, b: Point, x: int, y: int): int {
    (x - a.x) * (b.y - a.y) - (b.x - a.x) * (y - a.y)
  }

  lemma QuotientDecides(n: int, d: int, z: int)
    requires d > 0
    ensures n <= z * d ==> TruncDiv(n, d) <= z
    ensures n >= z * d ==> TruncDiv(n, d) >= z
  {
    var q := TruncDiv(n, d);
    assert (q - z) * d == q * d - z * d && (z - q) * d == z * d - q * d;
    if q > z {
      MultipleAtLeast(q - z, d);
    } else if q < z {
      MultipleAtLeast(z - q, d);
    }
  }

  /** The truncated edge never passes a lattice point on the other side of the exact edge. */
  lemma SideDecides(a: Point, b: Point, x: int, y: int)
    requires a.y < b.y
    ensures Side(a, b, x, y) >= 0 ==> EdgeDown(a, b, y) <= x
    ensures Side(a, b, x, y) <= 0 ==> x <= EdgeDown(a, b, y)
  {
    QuotientDecides((b.x - a.x) * (y - a.y), b.y - a.y, x - a.x);
  }

  lemma CombinationFrom(a: real, b: real, c: real, l: real, m: real, n: real)
    requires l + m + n == 1.0
    ensures l * a + m * b + n * c - a == m * (b - a) + n * (c - a)
  {
  }

  /** The twice signed area does not depend on the corner one starts from. */
  lemma AreaFromAnyCorner(t: Triangle)
    ensures Side(t.q, t.r, t.p.x, t.p.y) == Side(t.p, t.q, t.r.x, t.r.y)
    ensures Side(t.p, t.r, t.q.x, t.q.y) == -Side(t.p, t.q, t.r.x, t.r.y)
  {
  }

  lemma SideSign(a: Point, b: Point, c: Point, l: real, m: real, n: real, x: int, y: int)
    requires n >= 0.0 && l + m + n == 1.0
    requires x as real == l * a.x as real + m * b.x as real + n * c.x as real
    requires y as real == l * a.y as real + m * b.y as real + n * c.y as real
    ensures Side(a, b, c.x, c.y) >= 0 ==> Side(a, b, x, y) >= 0
    ensures Side(a, b, c.x, c.y) <= 0 ==> Side(a, b, x, y) <= 0
  {
  }

  /** The sides of a lattice point of the triangle, relative to the three edges. */
  lemma SidesOfLatticePoint(t: Triangle, w: Weights, x: int, y: int)
    requires PointAt(t, w, x as real, y as real)
    ensures Side(t.p, t.q, t.r.x, t.r.y) >= 0 ==>
              Side(t.p, t.q, x, y) >= 0 && Side(t.q, t.r, x, y) >= 0 && Side(t.p, t.r, x, y) <= 0
    ensures Side(t.p, t.q, t.r.x, t.r.y) <= 0 ==>
              Side(t.p, t.q, x, y) <= 0 && Side(t.q, t.r, x, y) <= 0 && Side(t.p, t.r, x, y) >= 0
  {
    hide Side;
    AreaFromAnyCorner(t);
    SideSign(t.p, t.q, t.r, w.p, w.q, w.r, x, y);
    SideSign(t.q, t.r, t.p, w.q, w.r, w.p, x, y);
    SideSign(t.p, t.r, t.q, w.p, w.r, w.q, x, y);
  }

  lemma RowsOfLatticePoint(t: Triangle, w: Weights, x: int, y: int)
    requires Sorted(t) && PointAt(t, w, x as real, y as real)
    ensures t.p.y <= y <= t.r.y
  {
    CombinationFrom(t.p.y as real, t.q.y as real, t.r.y as real, w.p, w.q, w.r);
    ProductSign(w.q, (t.q.y - t.p.y) as real);
    ProductSign(w.r, (t.r.y - t.p.y) as real);
    CombinationFrom(t.r.y as real, t.q.y as real, t.p.y as real, w.r, w.q, w.p);
    ProductSign(w.q, (t.q.y - t.r.y) as real);
    ProductSign(w.p, (t.p.y - t.r.y) as real);
  }

  /** On the bottom row of a triangle with a flat bottom the point lies between its two corners. */
  lemma BottomRowOfLatticePoint(t: Triangle, w: Weights, x: int, y: int)
    requires Sorted(t) && t.p.y < t.q.y == t.r.y && y == t.r.y
    requires PointAt(t, w, x as real, y as real)
    ensures Min(t.q.x, t.r.x) <= x <= Max(t.q.x, t.r.x)
  {
    CombinationFrom(t.r.y as real, t.q.y as real, t.p.y as real, w.r, w.q, w.p);
    assert w.p * (t.p.y - t.r.y) as real == 0.0;
    assert w.p == 0.0;
    CombinationFrom(t.q.x as real, t.p.x as real, t.r.x as real, w.q, w.p, w.r);
    CombinationFrom(t.r.x as real, t.p.x as real, t.q.x as real, w.r, w.p, w.q);
    ProductSign(w.r, (t.r.x - t.q.x) as real);
    ProductSign(w.q, (t.q.x - t.r.x) as real);
  }

  lemma SortedTriangleIsFilled(t: Triangle, w: Weights, x: int, y: int)
    requires Sorted(t) && !Flat(t) && PointAt(t, w, x as real, y as real)
    ensures Covers(t, x, y)
  {
    hide Covers, PointAt, Side, EdgeDown;
    RowsOfLatticePoint(t, w, x, y);
    SidesOfLatticePoint(t, w, x, y);
    SideDecides(t.p, t.r, x, y);
    if y < t.q.y {
      SideDecides(t.p, t.q, x, y);
    } else if t.q.y < t.r.y {
      SideDecides(t.q, t.r, x, y);
    } else {
      BottomRowOfLatticePoint(t, w, x, y);
      LongEdgeAtBottom(t);
    }
    CoversIsSpan(t, x, y);
  }

  lemma LongEdgeAtBottom(t: Triangle)
    requires t.p.y < t.r.y
    ensures EdgeDown(t.p, t.r, t.r.y) == t.r.x
  {
    EdgeAtEnds(t.p, t.r);
  }

  /**
    Nothing is missed: every lattice point of a triangle that is not flat, its corners
    included, is covered. The weights are any convex combination of the three corners.
   */
  lemma TriangleIsFilled(t: Triangle, w: Weights, x: int, y: int)
    requires !Flat(t) && PointAt(t, w, x as real, y as real)
    ensures Covers(t, x, y)
  {
    hide Covers;
    var (u, v) :=
      if t.p.y <= t.q.y <= t.r.y then (t, w)
      else if t.p.y <= t.r.y <= t.q.y then (Triangle(t.p, t.r, t.q), Weights(w.p, w.r, w.q))
      else if t.q.y <= t.p.y <= t.r.y then (Triangle(t.q, t.p, t.r), Weights(w.q, w.p, w.r))
      else if t.q.y <= t.r.y <= t.p.y then (Triangle(t.q, t.r, t.p), Weights(w.q, w.r, w.p))
      else if t.r.y <= t.p.y <= t.q.y then (Triangle(t.r, t.p, t.q), Weights(w.r, w.p, w.q))
      else (Triangle(t.r, t.q, t.p), Weights(w.r, w.q, w.p));
    SortedTriangleIsFilled(u, v, x, y);
    CoversIgnoresOrder(t, u, x, y);
  }

  /** The corners of a triangle that is not flat are covered. */
  lemma CornersAreCovered(t: Triangle)
    requires !Flat(t)
    ensures Covers(t, t.p.x, t.p.y) && Covers(t, t.q.x, t.q.y) && Covers(t, t.r.x, t.r.y)
  {
    hide Covers;
    TriangleIsFilled(t, Weights(1.0, 0.0, 0.0), t.p.x, t.p.y);
    TriangleIsFilled(t, Weights(0.0, 1.0, 0.0), t.q.x, t.q.y);
    TriangleIsFilled(t, Weights(0.0, 0.0, 1.0), t.r.x, t.r.y);
  }

  // ---- the other direction ----

  /** How far down the edge from p to q the scan line lies. */
  function Fraction(p: Point, q: Point, y: int): (s: real)
    requires p.y < q.y && p.y <= y <= q.y
    ensures 0.0 <= s <= 1.0
  {
    var d := (q.y - p.y) as real;
    DivideUnit((y - p.y) as real, d);
    (y - p.y) as real / d
  }

  lemma ExactEdgeByFraction(p: Point, q: Point, y: int)
    requires p.y < q.y && p.y <= y <= q.y
    ensures var s := Fraction(p, q, y);
            && (1.0 - s) * p.x as real + s * q.x as real == ExactEdge(p, q, y)
            && (1.0 - s) * p.y as real + s * q.y as real == y as real
  {
  }

  /** The exact edge point is a point of every triangle the edge belongs to. */
  lemma EdgePoint(t: Triangle, p: Point, q: Point, y: int) returns (w: Weights)
    requires IsEdge(t, p, q) && p.y < q.y && p.y <= y <= q.y
    ensures PointAt(t, w, ExactEdge(p, q, y), y as real)
  {
    hide ExactEdge, Fraction;
    var s := Fraction(p, q, y);
    ExactEdgeByFraction(p, q, y);
    assert p in {t.p, t.q, t.r} && q in {t.p, t.q, t.r};
    w := if p == t.p && q == t.q then Weights(1.0 - s, s, 0.0)
         else if p == t.q && q == t.p then Weights(s, 1.0 - s, 0.0)
         else if p == t.q && q == t.r then Weights(0.0, 1.0 - s, s)
         else if p == t.r && q == t.q then Weights(0.0, s, 1.0 - s)
         else if p == t.p then Weights(1.0 - s, 0.0, s)
         else Weights(s, 0.0, 1.0 - s);
  }

  /** One of the two edges that enclose a covered pixel, named from its upper end. */
  lemma EdgeLeftOfCovered(t: Triangle, x: int, y: int) returns (p: Point, q: Point)
    requires Covers(t, x, y)
    ensures IsEdge(t, p, q) && p.y < q.y && p.y <= y <= q.y && EdgeDown(p, q, y) <= x
  {
    p, q := if EdgeLeftOf(t.p, t.q, x, y) then t.p else if EdgeLeftOf(t.q, t.r, x, y) then t.q else t.p,
            if EdgeLeftOf(t.p, t.q, x, y) then t.q else t.r;
    if p.y > q.y {
      p, q := q, p;
    }
  }

  lemma EdgeRightOfCovered(t: Triangle, x: int, y: int) returns (p: Point, q: Point)
    requires Covers(t, x, y)
    ensures IsEdge(t, p, q) && p.y < q.y && p.y <= y <= q.y && x <= EdgeDown(p, q, y)
  {
    p, q := if EdgeRightOf(t.p, t.q, x, y) then t.p else if EdgeRightOf(t.q, t.r, x, y) then t.q else t.p,
            if EdgeRightOf(t.p, t.q, x, y) then t.q else t.r;
    if p.y > q.y {
      p, q := q, p;
    }
  }

  /** A point between two points of the triangle, as a point of it. */
  lemma Mix(t: Triangle, v: Weights, w: Weights, x0: real, x1: real, y: real, u: real)
    returns (m: Weights)
    requires PointAt(t, v, x0, y) && PointAt(t, w, x1, y) && 0.0 <= u <= 1.0
    ensures PointAt(t, m, MixOne(x0, x1, u), y)
  {
    m := Weights(MixOne(v.p, w.p, u), MixOne(v.q, w.q, u), MixOne(v.r, w.r, u));
    MixNonNegative(v.p, w.p, u);
    MixNonNegative(v.q, w.q, u);
    MixNonNegative(v.r, w.r, u);
    MixSum(v, w, u, 1.0, 1.0, 1.0);
    MixSame(1.0, u);
    MixSum(v, w, u, t.p.x as real, t.q.x as real, t.r.x as real);
    MixSum(v, w, u, t.p.y as real, t.q.y as real, t.r.y as real);
    MixSame(y, u);
  }

  lemma MixSum(v: Weights, w: Weights, u: real, p: real, q: real, r: real)
    ensures MixOne(v.p, w.p, u) * p + MixOne(v.q, w.q, u) * q + MixOne(v.r, w.r, u) * r
            == MixOne(v.p * p + v.q * q + v.r * r, w.p * p + w.q * q + w.r * r, u)
  {
  }

  /**
    Nothing is invented: on the scan line of every covered pixel there is a real point of
    the triangle less than one pixel away.
   */
  lemma CoveredIsNear(t: Triangle, x: int, y: int) returns (w: Weights, e: real)
    requires Covers(t, x, y)
    ensures PointAt(t, w, e, y as real) && Abs(x as real - e) < 1.0
  {
    hide Covers, PointAt, IsEdge, EdgeDown, ExactEdge, MixOne;
    var p, q := EdgeLeftOfCovered(t, x, y);
    var a := ExactEdge(p, q, y);
    EdgeErrorBelowOnePixel(p, q, y);
    var v := EdgePoint(t, p, q, y);
    p, q := EdgeRightOfCovered(t, x, y);
    var b := ExactEdge(p, q, y);
    EdgeErrorBelowOnePixel(p, q, y);
    w := EdgePoint(t, p, q, y);
    var r := x as real;
    if a <= r <= b || b <= r <= a {
      var u := MixReaches(a, b, r);
      w := Mix(t, v, w, a, b, y as real, u);
      e := r;
    } else if r < a {
      w, e := v, a;
    } else {
      e := b;
    }
  }

  /** The covered pixels stay inside the triangle's bounding box. */
  lemma CoveredInBoundingBox(t: Triangle, x: int, y: int)
    requires Covers(t, x, y)
    ensures Min(t.p.x, Min(t.q.x, t.r.x)) <= x <= Max(t.p.x, Max(t.q.x, t.r.x))
    ensures Min(t.p.y, Min(t.q.y, t.r.y)) <= y <= Max(t.p.y, Max(t.q.y, t.r.y))
  {
    hide Covers, EdgeDown;
    var p, q := EdgeLeftOfCovered(t, x, y);
    EdgeDownWithinEnds(p, q, y);
    CornersOfEdge(t, p, q);
    p, q := EdgeRightOfCovered(t, x, y);
    EdgeDownWithinEnds(p, q, y);
    CornersOfEdge(t, p, q);
  }

  lemma CornersOfEdge(t: Triangle, p: Point, q: Point)
    requires IsEdge(t, p, q)
    ensures (p == t.p || p == t.q || p == t.r) && (q == t.p || q == t.q || q == t.r)
  {
  }
}
