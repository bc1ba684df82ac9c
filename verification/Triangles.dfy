/**
  The meaning of a rasterised triangle, independent of how a scan-line loop computes it:
  which pixels it covers, how far they are from the exact triangle, and why two triangles
  with a common edge leave no gap.
 */
module Triangles {
  import opened Numbers
  import opened Points
  import opened Canvases

  datatype Triangle = Triangle(p: Point, q: Point, r: Point)

  // ---- the pixel an edge occupies on a scan line ----

  /** The edge's column on scan line y, interpolated from its upper end and truncated. */
  function EdgeDown(p: Point, q: Point, y: int): int
    requires p.y < q.y
  {
    p.x + TruncDiv((q.x - p.x) * (y - p.y), q.y - p.y)
  }

  predicate Crosses(p: Point, q: Point, y: int) {
    p.y != q.y && Min(p.y, q.y) <= y <= Max(p.y, q.y)
  }

  /** The same column whichever end is named first. */
  function EdgeAt(p: Point, q: Point, y: int): int
    requires p.y != q.y
  {
    if p.y < q.y then EdgeDown(p, q, y) else EdgeDown(q, p, y)
  }

  predicate EdgeLeftOf(p: Point, q: Point, x: int, y: int) {
    Crosses(p, q, y) && EdgeAt(p, q, y) <= x
  }

  predicate EdgeRightOf(p: Point, q: Point, x: int, y: int) {
    Crosses(p, q, y) && x <= EdgeAt(p, q, y)
  }

  /** On scan line y the pixel lies between two edges of the triangle, both included. */
  predicate Covers(t: Triangle, x: int, y: int) {
    && (EdgeLeftOf(t.p, t.q, x, y) || EdgeLeftOf(t.q, t.r, x, y) || EdgeLeftOf(t.p, t.r, x, y))
    && (EdgeRightOf(t.p, t.q, x, y) || EdgeRightOf(t.q, t.r, x, y) || EdgeRightOf(t.p, t.r, x, y))
  }

  /** The pixels of a triangle on a canvas of the given size. */
  function TrianglePixels(t: Triangle, width: int, height: int): set<Pixel> {
    set x, y | 0 <= x < width && 0 <= y < height && Covers(t, x, y) :: (x, y)
  }

  predicate IsEdge(t: Triangle, p: Point, q: Point) {
    {p, q} == {t.p, t.q} || {p, q} == {t.q, t.r} || {p, q} == {t.p, t.r}
  }

  /** The six ways of naming the same corners. */
  predicate SameCorners(t: Triangle, u: Triangle) {
    || u == Triangle(t.p, t.q, t.r) || u == Triangle(t.p, t.r, t.q)
    || u == Triangle(t.q, t.p, t.r) || u == Triangle(t.q, t.r, t.p)
    || u == Triangle(t.r, t.p, t.q) || u == Triangle(t.r, t.q, t.p)
  }

  // ---- elementary geometry of one edge ----

  lemma ProductBetween(m: int, k: int, d: int)
    requires 0 <= k <= d
    ensures m >= 0 ==> 0 <= m * k <= m * d
    ensures m <= 0 ==> m * d <= m * k <= 0
  {
  }

  lemma EdgeDownWithinEnds(p: Point, q: Point, y: int)
    requires p.y < q.y && p.y <= y <= q.y
    ensures Min(p.x, q.x) <= EdgeDown(p, q, y) <= Max(p.x, q.x)
  {
    var m, k, d := q.x - p.x, y - p.y, q.y - p.y;
    ProductBetween(m, k, d);
    QuotientBetween(m, m * k, d);
  }

  lemma QuotientBetween(m: int, n: int, d: int)
    requires d > 0
    requires m >= 0 ==> 0 <= n <= m * d
    requires m <= 0 ==> m * d <= n <= 0
    ensures m >= 0 ==> 0 <= TruncDiv(n, d) <= m
    ensures m <= 0 ==> m <= TruncDiv(n, d) <= 0
  {
  }

  lemma EdgeDownAtEnds(p: Point, q: Point)
    requires p.y < q.y
    ensures EdgeDown(p, q, p.y) == p.x && EdgeDown(p, q, q.y) == q.x
  {
    var m, d := q.x - p.x, q.y - p.y;
    TruncDivExact(m, d);
    assert m * (p.y - p.y) == 0;
  }

  /** At its two ends the edge pixel is the end itself. */
  lemma EdgeAtEnds(p: Point, q: Point)
    requires p.y != q.y
    ensures EdgeAt(p, q, p.y) == p.x && EdgeAt(p, q, q.y) == q.x
  {
    hide EdgeDown;
    if p.y < q.y {
      EdgeDownAtEnds(p, q);
    } else {
      EdgeDownAtEnds(q, p);
    }
  }

  // ---- the exact edge and the truncation error ----

  /** The edge's exact column on scan line y. */
  function ExactEdge(p: Point, q: Point, y: int): real
    requires p.y != q.y
  {
    p.x as real + (q.x - p.x) as real * (y - p.y) as real / (q.y - p.y) as real
  }

  lemma ExactEdgeTimesHeight(p: Point, q: Point, y: int)
    requires p.y != q.y
    ensures (ExactEdge(p, q, y) - p.x as real) * (q.y - p.y) as real
            == ((q.x - p.x) * (y - p.y)) as real
  {
  }

  /** Truncating the quotient moves the edge by less than one pixel. */
  lemma EdgeErrorBelowOnePixel(p: Point, q: Point, y: int)
    requires p.y < q.y
    ensures Abs(EdgeDown(p, q, y) as real - ExactEdge(p, q, y)) < 1.0
  {
    var d := q.y - p.y;
    var n := (q.x - p.x) * (y - p.y);
    var e := ExactEdge(p, q, y) - p.x as real;
    ExactEdgeTimesHeight(p, q, y);
    TruncOfScaled(e, n, d);
  }

  // ---- the covered set, seen as a scan-line span ----

  lemma EdgesIgnoreDirection(p: Point, q: Point, x: int, y: int)
    ensures EdgeLeftOf(p, q, x, y) == EdgeLeftOf(q, p, x, y)
    ensures EdgeRightOf(p, q, x, y) == EdgeRightOf(q, p, x, y)
  {
  }

  /** Order of the corners does not matter. */
  lemma CoversIgnoresOrder(t: Triangle, u: Triangle, x: int, y: int)
    requires SameCorners(t, u)
    ensures Covers(t, x, y) == Covers(u, x, y)
  {
    EdgesIgnoreDirection(t.p, t.q, x, y);
    EdgesIgnoreDirection(t.q, t.r, x, y);
    EdgesIgnoreDirection(t.p, t.r, x, y);
  }

  predicate Sorted(t: Triangle) {
    t.p.y <= t.q.y <= t.r.y
  }

  predicate Flat(t: Triangle) {
    t.p.y == t.q.y == t.r.y
  }

  /** In a sorted triangle: the end of the span on the side of the middle corner. */
  function BentEnd(t: Triangle, y: int): int
    requires Sorted(t) && t.p.y <= y <= t.r.y
  {
    if y < t.q.y then EdgeDown(t.p, t.q, y)
    else if t.q.y < t.r.y then EdgeDown(t.q, t.r, y)
    else t.q.x
  }

  /** The end on the long edge. */
  function LongEnd(t: Triangle, y: int): int
    requires Sorted(t) && t.p.y < t.r.y
  {
    EdgeDown(t.p, t.r, y)
  }

  /** Two edges suffice: on each scan line the covered pixels are one closed span. */
  lemma CoversIsSpan(t: Triangle, x: int, y: int)
    requires Sorted(t) && !Flat(t)
    ensures Covers(t, x, y) <==>
            t.p.y <= y <= t.r.y &&
            Min(BentEnd(t, y), LongEnd(t, y)) <= x <= Max(BentEnd(t, y), LongEnd(t, y))
  {
    if t.p.y < t.q.y {
      EdgeAtEnds(t.p, t.q);
    }
    if t.q.y < t.r.y {
      EdgeAtEnds(t.q, t.r);
    }
    EdgeAtEnds(t.p, t.r);
  }

  // ---- no cracks ----

  /** An edge crossing a scan line lies inside the span of every triangle it belongs to. */
  lemma EdgePixelIsCovered(t: Triangle, p: Point, q: Point, y: int)
    requires IsEdge(t, p, q) && Crosses(p, q, y)
    ensures Covers(t, EdgeAt(p, q, y), y)
  {
  }

  predicate ShareEdge(t: Triangle, u: Triangle, p: Point, q: Point) {
    IsEdge(t, p, q) && IsEdge(u, p, q)
  }

  ghost predicate LinkedAt(ts: seq<Triangle>, i: int, y: int) {
    0 <= i < |ts| - 1 ==>
      exists p, q :: ShareEdge(ts[i], ts[i + 1], p, q) && Crosses(p, q, y)
  }

  /** Consecutive triangles are joined by an edge that crosses the scan line. */
  ghost predicate Joined(ts: seq<Triangle>, y: int) {
    forall i :: LinkedAt(ts, i, y)
  }

  /** Intervals, each meeting the next, leave no gap between any two of their members. */
  lemma {:induction false} MeetingIntervals(n: nat, inside: (int, int) -> bool, meet: int -> int,
                                            i: int, j: int, x0: int, x: int, x1: int)
    requires forall k, a, b, c :: 0 <= k < n && inside(k, a) && inside(k, c) && a <= b <= c ==> inside(k, b)
    requires forall k :: 0 <= k < n - 1 ==> inside(k, meet(k)) && inside(k + 1, meet(k))
    requires 0 <= i < n && 0 <= j < n && inside(i, x0) && inside(j, x1)
    requires x0 <= x <= x1 || x1 <= x <= x0
    ensures exists k :: 0 <= k < n && inside(k, x)
    decreases if i < j then j - i else i - j
  {
    if i == j {
      assert inside(i, x);
    } else if !inside(i, x) {
      var e := meet(if i < j then i else i - 1);
      MeetingIntervals(n, inside, meet, if i < j then i + 1 else i - 1, j, e, x, x1);
    }
  }

  predicate CoversNth(ts: seq<Triangle>, k: int, x: int, y: int) {
    0 <= k < |ts| && Covers(ts[k], x, y)
  }

  /** A pixel that neighbours in a chain have in common. */
  ghost function MeetingPixel(ts: seq<Triangle>, k: int, y: int): (e: int)
    requires Joined(ts, y)
    ensures 0 <= k < |ts| - 1 ==> CoversNth(ts, k, e, y) && CoversNth(ts, k + 1, e, y)
  {
    if 0 <= k < |ts| - 1 then
      assert LinkedAt(ts, k, y);
      var p, q :| ShareEdge(ts[k], ts[k + 1], p, q) && Crosses(p, q, y);
      EdgePixelIsCovered(ts[k], p, q, y);
      EdgePixelIsCovered(ts[k + 1], p, q, y);
      EdgeAt(p, q, y)
    else 0
  }

  lemma NthIsConvex(ts: seq<Triangle>, k: int, a: int, b: int, c: int, y: int)
    requires CoversNth(ts, k, a, y) && CoversNth(ts, k, c, y) && a <= b <= c
    ensures CoversNth(ts, k, b, y)
  {
  }

  /**
    A chain of triangles, each sharing with the next an edge that crosses scan line y,
    leaves no gap on that line: whatever lies between two covered pixels is covered.
   */
  lemma ChainHasNoCracks(ts: seq<Triangle>, i: nat, j: nat, x0: int, x: int, x1: int, y: int)
    requires Joined(ts, y) && 0 <= i < |ts| && 0 <= j < |ts|
    requires CoversNth(ts, i, x0, y) && CoversNth(ts, j, x1, y) && x0 <= x <= x1
    ensures exists k :: CoversNth(ts, k, x, y)
  {
    hide *;
    var inside := (k: int, c: int) => CoversNth(ts, k, c, y);
    var meet: int -> int := k => MeetingPixel(ts, k, y);
    forall k, a, b, c | inside(k, a) && inside(k, c) && a <= b <= c ensures inside(k, b) {
      NthIsConvex(ts, k, a, b, c, y);
    }
    MeetingIntervals(|ts|, inside, meet, i, j, x0, x, x1);
  }
}
