/** How far the painted gradient is from the exact interpolation of the vertex colours. */
module ShadeAccuracy {
  import opened Mixes
  import opened Numbers
  import opened Points
  import opened Canvases
  import opened Triangles
  import opened Shading

  /** The red, green or blue channel. */
  function Part(c: Color, i: int): Channel
    requires 0 <= i < 3
  {
    if i == 0 then c.r else if i == 1 then c.g else c.b
  }

  // ---- one channel ----

  /** An interpolated channel is less than one away from the exact value, on the side of a. */
  lemma LerpIsNear(a: Channel, b: Channel, t: real)
    requires 0.0 <= t <= 1.0
    ensures Abs(LerpChannel(a, b, t) as real - MixOne(a as real, b as real, t)) < 1.0
    ensures a <= b ==> LerpChannel(a, b, t) as real <= MixOne(a as real, b as real, t)
    ensures a >= b ==> LerpChannel(a, b, t) as real >= MixOne(a as real, b as real, t)
    ensures LerpChannel(a, b, 0.0) == a && LerpChannel(a, b, 1.0) == b
  {
    ProductSign(t, (b - a) as real);
    assert MixOne(a as real, b as real, t) == a as real + t * (b - a) as real;
  }

  lemma PartOfLerp(a: Color, b: Color, t: real, i: int)
    requires 0.0 <= t <= 1.0 && 0 <= i < 3
    ensures Part(LerpColor(a, b, t), i) == LerpChannel(Part(a, i), Part(b, i), t)
  {
  }

  // ---- along an edge ----

  /** The exact channel where the edge from p down to q crosses scan line y. */
  function ExactOnEdge(p: Vertex, q: Vertex, y: int, i: int): real
    requires p.at.y < q.at.y && 0 <= i < 3
  {
    MixOne(Part(p.color, i) as real, Part(q.color, i) as real, (y - p.at.y) as real / (q.at.y - p.at.y) as real)
  }

  /** The edge starts in the colour of its upper end and ends in that of its lower end. */
  lemma EdgeColorAtEnds(p: Vertex, q: Vertex)
    requires p.at.y < q.at.y
    ensures EdgeColor(p, q, p.at.y) == p.color && EdgeColor(p, q, q.at.y) == q.color
  {
    hide LerpChannel;
    var d := (q.at.y - p.at.y) as real;
    assert 0.0 / d == 0.0 && d / d == 1.0;
    LerpIsNear(p.color.r, q.color.r, 0.0);
    LerpIsNear(p.color.g, q.color.g, 0.0);
    LerpIsNear(p.color.b, q.color.b, 0.0);
  }

  lemma EdgeColorIsNear(p: Vertex, q: Vertex, y: int, i: int)
    requires p.at.y < q.at.y && p.at.y <= y <= q.at.y && 0 <= i < 3
    ensures Abs(Part(EdgeColor(p, q, y), i) as real - ExactOnEdge(p, q, y, i)) < 1.0
  {
    hide LerpChannel, MixOne, LerpColor, Part;
    UnitQuotient(y - p.at.y, q.at.y - p.at.y);
    var t := (y - p.at.y) as real / (q.at.y - p.at.y) as real;
    PartOfLerp(p.color, q.color, t, i);
    LerpIsNear(Part(p.color, i), Part(q.color, i), t);
  }

  // ---- along a row ----

  /** Half a segment of a row of n pixels: at most 4 pixels, or half of a sixth of the row and one. */
  function HalfSegment(n: int): real {
    if n < 24 then 4.0 else (n / 6 + 1) as real / 2.0
  }

  /**
    Channel c at column x of the row from left to right, whose ends have the exact channels a
    and b: on at most three canvas pixels it is within 1.5 of their mean; on a longer row it is
    within 2 plus half a segment's share of their difference of the exact interpolation.
   */
  predicate IsNear(c: int, a: real, b: real, left: int, right: int, x: int, width: int) {
    var n := Min(width - 1, right) - Max(0, left) + 1;
    if n <= 3 then Abs(c as real - (a + b) / 2.0) < 1.5
    else
      Abs(c as real - MixOne(a, b, (x - left) as real / (right - left) as real))
        < 2.0 + HalfSegment(n) / (right - left) as real * Abs(b - a)
  }

  lemma NearColumnIsNear(n: int, x: int, z: int)
    requires n > 3 && NearColumn(n, x, z)
    ensures Abs((x - z) as real) <= HalfSegment(n)
  {
    if n < 24 {
      assert TruncDiv(n, SegmentCount(n)) <= 7;
    }
  }

  lemma AverageIsNear(a: Channel, b: Channel, ea: real, eb: real)
    requires Abs(a as real - ea) < 1.0 && Abs(b as real - eb) < 1.0
    ensures Abs(((a + b) / 2) as real - (ea + eb) / 2.0) < 1.5
  {
  }

  lemma MixIsNear(a: real, b: real, ea: real, eb: real, t: real)
    requires 0.0 <= t <= 1.0 && Abs(a - ea) < 1.0 && Abs(b - eb) < 1.0
    ensures Abs(MixOne(a, b, t) - MixOne(ea, eb, t)) < 1.0
  {
    MixPositive(1.0 - (a - ea), 1.0 - (b - eb), t);
    MixPositive(1.0 + (a - ea), 1.0 + (b - eb), t);
    assert MixOne(1.0 - (a - ea), 1.0 - (b - eb), t) == 1.0 - MixOne(a, b, t) + MixOne(ea, eb, t);
    assert MixOne(1.0 + (a - ea), 1.0 + (b - eb), t) == 1.0 + MixOne(a, b, t) - MixOne(ea, eb, t);
  }

  /** Moving by at most h columns of n changes the interpolation by at most that share. */
  lemma MixMoves(a: real, b: real, x: real, z: real, n: real, h: real)
    requires n > 0.0 && Abs(x - z) <= h
    ensures Abs(MixOne(a, b, z / n) - MixOne(a, b, x / n)) <= h / n * Abs(b - a)
  {
    var s, t, k := z / n, x / n, h / n;
    assert s * n == z && t * n == x && k * n == h;
    assert MixOne(a, b, s) - MixOne(a, b, t) == (s - t) * (b - a);
    assert (k - (s - t)) * n == h - (z - x) && (k + (s - t)) * n == h + (z - x);
    QuotientSign(k - (s - t), n);
    QuotientSign(k + (s - t), n);
    ScaledBound(s - t, k, b - a);
  }

  lemma QuotientSign(q: real, n: real)
    requires n > 0.0 && q * n >= 0.0
    ensures q >= 0.0
  {
    if q < 0.0 {
      PositiveProduct(-q, n);
    }
  }

  lemma ScaledBound(d: real, k: real, m: real)
    requires -k <= d <= k
    ensures Abs(d * m) <= k * Abs(m)
  {
    ProductSign(k - d, Abs(m));
    ProductSign(k + d, Abs(m));
    assert (k - d) * Abs(m) == k * Abs(m) - d * Abs(m) && (k + d) * Abs(m) == k * Abs(m) + d * Abs(m);
  }

  /** A pixel of a row against the exact channels of the row's ends. */
  lemma RowShadeIsNear(left: int, a: Color, right: int, b: Color, width: int, x: int, c: Color, i: int,
                       ea: real, eb: real)
    requires RowShade(left, a, right, b, width, x, c) && left <= x <= right && 0 <= i < 3
    requires Abs(Part(a, i) as real - ea) < 1.0 && Abs(Part(b, i) as real - eb) < 1.0
    ensures IsNear(Part(c, i), ea, eb, left, right, x, width)
  {
    hide LerpChannel, MixOne, LerpColor, Part, HalfSegment, NearColumn, Abs, Average;
    var s, e := RowStart(left), RowEnd(right, width);
    if e - s + 1 <= 3 {
      PartOfAverage(a, b, i);
      AverageIsNear(Part(a, i), Part(b, i), ea, eb);
    } else {
      var z :| left <= s <= z <= e <= right && NearColumn(e - s + 1, x, z)
               && c == LerpColor(a, b, RowFraction(left, right, z));
      var t := RowFraction(left, right, z);
      PartOfLerp(a, b, t, i);
      LerpIsNear(Part(a, i), Part(b, i), t);
      MixIsNear(Part(a, i) as real, Part(b, i) as real, ea, eb, t);
      NearColumnIsNear(e - s + 1, x, z);
      ColumnsApart(left, x, z);
      MixMoves(ea, eb, (x - left) as real, (z - left) as real, (right - left) as real, HalfSegment(e - s + 1));
      SumOfErrors(Part(c, i) as real, MixOne(Part(a, i) as real, Part(b, i) as real, t), MixOne(ea, eb, t),
                  MixOne(ea, eb, (x - left) as real / (right - left) as real),
                  HalfSegment(e - s + 1) / (right - left) as real * Abs(eb - ea));
    }
  }

  lemma PartOfAverage(a: Color, b: Color, i: int)
    requires 0 <= i < 3
    ensures Part(Average(a, b), i) == (Part(a, i) + Part(b, i)) / 2
  {
  }

  lemma ColumnsApart(left: int, x: int, z: int)
    ensures Abs((x - left) as real - (z - left) as real) == Abs((x - z) as real)
  {
  }

  lemma SumOfErrors(p: real, q: real, r: real, s: real, bound: real)
    requires Abs(p - q) < 1.0 && Abs(q - r) < 1.0 && Abs(r - s) <= bound
    ensures Abs(p - s) < 2.0 + bound
  {
  }
}
