/** The colours of a gradient-filled triangle. */
module Shading {
  import opened Numbers
  import opened Points
  import opened Canvases
  import opened Triangles

  datatype Vertex = Vertex(at: Point, color: Color)

  // ---- channel and colour interpolation ----

  /** A fraction t of the step m, truncated. */
  function ScaledStep(m: int, t: real): (d: int)
    requires 0.0 <= t <= 1.0
    ensures m >= 0 ==> 0 <= d <= m
    ensures m <= 0 ==> m <= d <= 0
  {
    ScaledWithin(m, m as real, t);
    Trunc(t * m as real)
  }

  lemma ScaledWithin(m: int, r: real, t: real)
    requires 0.0 <= t <= 1.0 && r == m as real
    ensures m >= 0 ==> 0 <= Trunc(t * r) <= m
    ensures m <= 0 ==> m <= Trunc(t * r) <= 0
  {
    ProductSign(t, r);
    ProductSign(1.0 - t, r);
    assert (1.0 - t) * r == r - t * r;
  }

  function LerpChannel(a: Channel, b: Channel, t: real): (c: Channel)
    requires 0.0 <= t <= 1.0
    ensures Min(a, b) <= c <= Max(a, b)
  {
    a + ScaledStep(b - a, t)
  }

  function LerpColor(a: Color, b: Color, t: real): Color
    requires 0.0 <= t <= 1.0
  {
    Color(LerpChannel(a.r, b.r, t), LerpChannel(a.g, b.g, t), LerpChannel(a.b, b.b, t))
  }

  function Average(a: Color, b: Color): Color {
    Color((a.r + b.r) / 2, (a.g + b.g) / 2, (a.b + b.b) / 2)
  }

  /** Every channel lies between the two given colours. */
  predicate Between(c: Color, a: Color, b: Color) {
    && Min(a.r, b.r) <= c.r <= Max(a.r, b.r)
    && Min(a.g, b.g) <= c.g <= Max(a.g, b.g)
    && Min(a.b, b.b) <= c.b <= Max(a.b, b.b)
  }

  // ---- one gradient row ----

  const GRADIENT_MAX_SEGMENTS := 6
  const GRADIENT_MIN_LINE_WIDTH := 3

  function SegmentCount(width: int): (n: int)
    ensures 1 <= n <= GRADIENT_MAX_SEGMENTS
  {
    Max(1, Min(GRADIENT_MAX_SEGMENTS, TruncDiv(width, 4)))
  }

  /** Where segment number seg of a row starts, relative to the row. */
  function SegmentStart(seg: int, width: int): int {
    TruncDiv(seg * width, SegmentCount(width))
  }

  /** The first segment starts at the row's start and the last ends at the row's end. */
  lemma SegmentsSpanRow(width: int)
    requires width > GRADIENT_MIN_LINE_WIDTH
    ensures SegmentStart(0, width) == 0
    ensures SegmentStart(SegmentCount(width), width) == width
  {
    var n := SegmentCount(width);
    TruncDivExact(0, n);
    TruncDivExact(width, n);
    assert n * width == width * n;
  }

  /** Segments follow each other, at least four pixels wide and at most one above an even share. */
  lemma SegmentWidth(seg: int, width: int)
    requires width > GRADIENT_MIN_LINE_WIDTH && 0 <= seg
    ensures SegmentStart(seg, width) + 4 <= SegmentStart(seg + 1, width)
    ensures SegmentStart(seg + 1, width) - SegmentStart(seg, width) <= TruncDiv(width, SegmentCount(width)) + 1
  {
    var n := SegmentCount(width);
    assert 0 <= seg * width;
    assert (seg + 1) * width == seg * width + width;
    StepOfQuotient(seg * width, width, n, 4);
  }

  lemma {:induction false} SegmentStartsGrow(lo: int, hi: int, width: int)
    requires width > GRADIENT_MIN_LINE_WIDTH && 0 <= lo <= hi
    ensures SegmentStart(lo, width) <= SegmentStart(hi, width)
    decreases hi - lo
  {
    if lo < hi {
      SegmentStartsGrow(lo, hi - 1, width);
      SegmentWidth(hi - 1, width);
    }
  }

  /**
    The segments of a row longer than three pixels tile it: they are never empty, each one
    starts where the one before it ends, and together they cover the row exactly.
   */
  lemma SegmentsTile(seg: int, width: int)
    requires width > GRADIENT_MIN_LINE_WIDTH && 0 <= seg < SegmentCount(width)
    ensures SegmentCount(width) == if width < 24 then width / 4 else 6
    ensures SegmentStart(0, width) == 0 && SegmentStart(SegmentCount(width), width) == width
    ensures 0 <= SegmentStart(seg, width) < SegmentStart(seg + 1, width) <= width
    ensures 4 <= SegmentStart(seg + 1, width) - SegmentStart(seg, width) <= TruncDiv(width, SegmentCount(width)) + 1
  {
    SegmentsSpanRow(width);
    SegmentWidth(seg, width);
    SegmentStartsGrow(0, seg, width);
    SegmentStartsGrow(seg + 1, SegmentCount(width), width);
  }

  lemma StepOfQuotient(p: int, step: int, n: int, k: int)
    requires n > 0 && p >= 0 && step >= k * n && k >= 0
    ensures TruncDiv(p, n) + k <= TruncDiv(p + step, n) <= TruncDiv(p, n) + TruncDiv(step, n) + 1
  {
    var a, b, c := TruncDiv(p, n), TruncDiv(p + step, n), TruncDiv(step, n);
    assert k * n >= 0;
    assert (a + k - b) * n == a * n + k * n - b * n;
    assert (b - a - c - 1) * n == b * n - a * n - c * n - n;
    if b < a + k {
      MultipleAtLeast(a + k - b, n);
    }
    if b > a + c + 1 {
      MultipleAtLeast(b - a - c - 1, n);
    }
  }

  /** Where between the two ends of a row a column lies. */
  function RowFraction(left: int, right: int, z: int): (t: real)
    requires left <= z <= right
    ensures 0.0 <= t <= 1.0
  {
    if left == right then 0.0
    else
      UnitQuotient(z - left, right - left);
      (z - left) as real / (right - left) as real
  }

  lemma UnitQuotient(n: int, d: int)
    requires 0 <= n <= d && d > 0
    ensures 0.0 <= n as real / d as real <= 1.0
  {
  }

  /** The clipped part of a row. */
  function RowStart(left: int): int {
    Max(0, left)
  }

  function RowEnd(right: int, width: int): int {
    Min(width - 1, right)
  }

  /**
    The colour a pixel of a row may have: a row of at most three pixels takes the average of
    its end colours; in a longer one a pixel takes the interpolated colour of some column no
    further away than half a segment.
   */
  ghost predicate RowShade(left: int, a: Color, right: int, b: Color, width: int, x: int, c: Color) {
    var s, e := RowStart(left), RowEnd(right, width);
    if e - s + 1 <= GRADIENT_MIN_LINE_WIDTH then c == Average(a, b)
    else exists z :: left <= s <= z <= e <= right && NearColumn(e - s + 1, x, z)
                     && c == LerpColor(a, b, RowFraction(left, right, z))
  }

  predicate NearColumn(width: int, x: int, z: int) {
    -TruncDiv(width, SegmentCount(width)) - 1 <= 2 * (x - z) <= TruncDiv(width, SegmentCount(width)) + 1
  }

  lemma RowShadeIsBetween(left: int, a: Color, right: int, b: Color, width: int, x: int, c: Color)
    requires RowShade(left, a, right, b, width, x, c)
    ensures Between(c, a, b)
  {
  }

  // ---- the triangle ----

  /** The colour at the point where an edge crosses scan line y. */
  function EdgeColor(p: Vertex, q: Vertex, y: int): Color
    requires p.at.y < q.at.y && p.at.y <= y <= q.at.y
  {
    UnitQuotient(y - p.at.y, q.at.y - p.at.y);
    LerpColor(p.color, q.color, (y - p.at.y) as real / (q.at.y - p.at.y) as real)
  }

  function Outline(u: Vertex, v: Vertex, w: Vertex): Triangle {
    Triangle(u.at, v.at, w.at)
  }

  function BentColor(u: Vertex, v: Vertex, w: Vertex, y: int): Color
    requires Sorted(Outline(u, v, w)) && u.at.y <= y <= w.at.y
  {
    if y < v.at.y then EdgeColor(u, v, y)
    else if v.at.y < w.at.y then EdgeColor(v, w, y)
    else v.color
  }

  function LongColor(u: Vertex, v: Vertex, w: Vertex, y: int): Color
    requires Sorted(Outline(u, v, w)) && u.at.y < w.at.y && u.at.y <= y <= w.at.y
  {
    EdgeColor(u, w, y)
  }

  /** The colour a covered pixel of a sorted triangle may have, from the ends of its row. */
  ghost predicate ShadeAt(u: Vertex, v: Vertex, w: Vertex, width: int, x: int, y: int, c: Color)
    requires Sorted(Outline(u, v, w))
  {
    && u.at.y < w.at.y && u.at.y <= y <= w.at.y
    && var bent, long := BentEnd(Outline(u, v, w), y), LongEnd(Outline(u, v, w), y);
       if bent <= long
       then RowShade(bent, BentColor(u, v, w, y), long, LongColor(u, v, w, y), width, x, c)
       else RowShade(long, LongColor(u, v, w, y), bent, BentColor(u, v, w, y), width, x, c)
  }

  /** Every channel lies between the extremes of the three corner colours. */
  predicate InHull(c: Color, a: Color, b: Color, d: Color) {
    && Min(a.r, Min(b.r, d.r)) <= c.r <= Max(a.r, Max(b.r, d.r))
    && Min(a.g, Min(b.g, d.g)) <= c.g <= Max(a.g, Max(b.g, d.g))
    && Min(a.b, Min(b.b, d.b)) <= c.b <= Max(a.b, Max(b.b, d.b))
  }

  lemma EndColorsInHull(u: Vertex, v: Vertex, w: Vertex, y: int)
    requires u.at.y <= v.at.y <= w.at.y && u.at.y < w.at.y && u.at.y <= y <= w.at.y
    ensures InHull(BentColor(u, v, w, y), u.color, v.color, w.color)
    ensures InHull(LongColor(u, v, w, y), u.color, v.color, w.color)
  {
  }

  lemma BetweenInHull(c: Color, l: Color, r: Color, a: Color, b: Color, d: Color)
    requires Between(c, l, r) && InHull(l, a, b, d) && InHull(r, a, b, d)
    ensures InHull(c, a, b, d)
  {
  }

  /** No pixel gets a channel outside the range of the corner colours. */
  lemma ShadeInHull(u: Vertex, v: Vertex, w: Vertex, width: int, x: int, y: int, c: Color)
    requires Sorted(Outline(u, v, w)) && ShadeAt(u, v, w, width, x, y, c)
    ensures InHull(c, u.color, v.color, w.color)
  {
    hide RowShade, BentColor, LongColor, BentEnd, LongEnd, InHull, Between;
    var bent, long := BentEnd(Outline(u, v, w), y), LongEnd(Outline(u, v, w), y);
    var a, b := BentColor(u, v, w, y), LongColor(u, v, w, y);
    EndColorsInHull(u, v, w, y);
    if bent <= long {
      RowShadeIsBetween(bent, a, long, b, width, x, c);
      BetweenInHull(c, a, b, u.color, v.color, w.color);
    } else {
      RowShadeIsBetween(long, b, bent, a, width, x, c);
      BetweenInHull(c, b, a, u.color, v.color, w.color);
    }
  }
}
