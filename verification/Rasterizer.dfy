/** The two scan-line triangle fills: one solid colour while dragging, a gradient otherwise. */
module Rasterizer {
  import opened Numbers
  import opened Points
  import opened Canvases
  import opened Triangles
  import opened Shading
  import opened ShadeAccuracy

  // ---- rows of a triangle ----

  /** The triangle's pixels above scan line y. */
  function PixelsAbove(t: Triangle, width: int, height: int, y: int): set<Pixel> {
    set p | p in TrianglePixels(t, width, height) && p.1 < y
  }

  /** The clipped row [left, right] of a scan line. */
  function ClippedRow(left: int, right: int, width: int, y: int): set<Pixel> {
    RowPixels(RowStart(left), y, RowEnd(right, width) - RowStart(left) + 1)
  }

  lemma InTrianglePixels(t: Triangle, width: int, height: int, p: Pixel)
    ensures p in TrianglePixels(t, width, height) <==>
            0 <= p.0 < width && 0 <= p.1 < height && Covers(t, p.0, p.1)
  {
  }

  /** One more scan line: the span between its two ends, cut to the canvas. */
  lemma NextRow(t: Triangle, u: Triangle, width: int, height: int, y: int, left: int, right: int)
    requires SameCorners(t, u) && Sorted(u) && !Flat(u) && 0 <= y < height && u.p.y <= y <= u.r.y
    requires left == Min(BentEnd(u, y), LongEnd(u, y)) && right == Max(BentEnd(u, y), LongEnd(u, y))
    ensures PixelsAbove(t, width, height, y + 1)
            == PixelsAbove(t, width, height, y) + ClippedRow(left, right, width, y)
  {
    hide Covers, BentEnd, LongEnd, TrianglePixels, SameCorners;
    forall p: Pixel
      ensures p in PixelsAbove(t, width, height, y + 1) <==>
              p in PixelsAbove(t, width, height, y) + ClippedRow(left, right, width, y)
    {
      InTrianglePixels(t, width, height, p);
      if p.1 == y {
        CoversIgnoresOrder(t, u, p.0, y);
        CoversIsSpan(u, p.0, y);
      }
    }
  }

  /** Before the first scan line nothing is painted, after the last one everything is. */
  lemma FirstAndLastRow(t: Triangle, u: Triangle, width: int, height: int)
    requires SameCorners(t, u) && Sorted(u) && !Flat(u)
    ensures PixelsAbove(t, width, height, Max(0, u.p.y)) == {}
    ensures forall y :: y >= Max(0, u.p.y) && y > Min(height - 1, u.r.y)
                        ==> PixelsAbove(t, width, height, y) == TrianglePixels(t, width, height)
  {
  }

  lemma FlatHasNoPixels(t: Triangle, width: int, height: int)
    requires Flat(t)
    ensures TrianglePixels(t, width, height) == {}
  {
  }

  // ---- solid fill ----

  /** The two ends of a scan line of a sorted triangle, the smaller one first. */
  method RowEnds(x1: int, y1: int, x2: int, y2: int, x3: int, y3: int, y: int) returns (left: int, right: int)
    requires y1 <= y2 <= y3 && y1 < y3 && y1 <= y <= y3
    ensures var u := Triangle(Point(x1, y1), Point(x2, y2), Point(x3, y3));
            left == Min(BentEnd(u, y), LongEnd(u, y)) && right == Max(BentEnd(u, y), LongEnd(u, y))
  {
    if y < y2 {
      if y2 != y1 {
        left := x1 + TruncDiv((x2 - x1) * (y - y1), y2 - y1);
      } else {
        left := x1;
      }
      if y3 != y1 {
        right := x1 + TruncDiv((x3 - x1) * (y - y1), y3 - y1);
      } else {
        right := x1;
      }
    } else {
      if y3 != y2 {
        left := x2 + TruncDiv((x3 - x2) * (y - y2), y3 - y2);
      } else {
        left := x2;
      }
      if y3 != y1 {
        right := x1 + TruncDiv((x3 - x1) * (y - y1), y3 - y1);
      } else {
        right := x1;
      }
    }
    if left > right {
      left, right := right, left;
    }
  }

  /** fill_triangle: paints exactly the triangle's pixels, in one colour. */
  method FillTriangle(canvas: Canvas, a1: int, b1: int, a2: int, b2: int, a3: int, b3: int, color: Color)
    modifies canvas
    ensures canvas.pixels
            == Paint(old(canvas.pixels),
                     TrianglePixels(Triangle(Point(a1, b1), Point(a2, b2), Point(a3, b3)), canvas.width, canvas.height),
                     color)
  {
    hide Covers, TrianglePixels, PixelsAbove, Paint, RowPixels, EdgeDown;
    ghost var t := Triangle(Point(a1, b1), Point(a2, b2), Point(a3, b3));
    ghost var before := canvas.pixels;
    var x1, y1, x2, y2, x3, y3 := a1, b1, a2, b2, a3, b3;
    if y1 > y2 {
      x1, x2 := x2, x1;
      y1, y2 := y2, y1;
    }
    if y2 > y3 {
      x2, x3 := x3, x2;
      y2, y3 := y3, y2;
    }
    if y1 > y2 {
      x1, x2 := x2, x1;
      y1, y2 := y2, y1;
    }
    ghost var u := Triangle(Point(x1, y1), Point(x2, y2), Point(x3, y3));
    assert SameCorners(t, u) && Sorted(u);
    if y1 == y3 {
      FlatHasNoPixels(t, canvas.width, canvas.height);
      PaintNothing(before, color);
      return;
    }
    FirstAndLastRow(t, u, canvas.width, canvas.height);
    PaintNothing(before, color);
    var y := Max(0, y1);
    while y <= Min(canvas.height - 1, y3)
      invariant Max(0, y1) <= y
      invariant canvas.pixels == Paint(before, PixelsAbove(t, canvas.width, canvas.height, y), color)
    {
      var left, right := RowEnds(x1, y1, x2, y2, x3, y3, y);
      NextRow(t, u, canvas.width, canvas.height, y, left, right);
      PaintMore(before, PixelsAbove(t, canvas.width, canvas.height, y), left, right, canvas.width, y, color);
      left := Max(0, left);
      right := Min(canvas.width - 1, right);
      if left <= right {
        canvas.DrawRow(left, y, right - left + 1, color);
      }
      y := y + 1;
    }
  }

  lemma PaintMore(m: map<Pixel, Color>, s: set<Pixel>, left: int, right: int, width: int, y: int, c: Color)
    ensures var row := ClippedRow(left, right, width, y);
            && Paint(Paint(m, s, c), row, c) == Paint(m, s + row, c)
            && (RowEnd(right, width) < RowStart(left) ==> Paint(m, s + row, c) == Paint(m, s, c))
  {
  }

  lemma PaintNothing(m: map<Pixel, Color>, c: Color)
    ensures Paint(m, {}, c) == m
  {
  }

  // ---- gradient fill ----

  /** s was painted, each pixel in a colour the predicate allows; nothing else changed. */
  ghost predicate Repainted(m: map<Pixel, Color>, n: map<Pixel, Color>, s: set<Pixel>,
                            allowed: (Pixel, Color) -> bool)
  {
    && n.Keys == m.Keys + s
    && (forall p :: p in m && p !in s ==> n[p] == m[p])
    && (forall p :: p in s ==> allowed(p, n[p]))
  }

  lemma RepaintMore(m: map<Pixel, Color>, n: map<Pixel, Color>, k: map<Pixel, Color>,
                    s: set<Pixel>, r: set<Pixel>, allowed: (Pixel, Color) -> bool)
    requires Repainted(m, n, s, allowed) && Repainted(n, k, r, allowed)
    ensures Repainted(m, k, s + r, allowed)
  {
  }

  lemma PaintRepaints(m: map<Pixel, Color>, s: set<Pixel>, c: Color, allowed: (Pixel, Color) -> bool)
    requires forall p :: p in s ==> allowed(p, c)
    ensures Repainted(m, Paint(m, s, c), s, allowed)
  {
  }

  ghost function RowAllows(left: int, a: Color, right: int, b: Color, width: int): (Pixel, Color) -> bool {
    (p: Pixel, c: Color) => RowShade(left, a, right, b, width, p.0, c)
  }

  method ClampChannel(v: int) returns (c: Channel)
    ensures 0 <= v < 256 ==> c == v
    ensures v < 0 ==> c == 0
    ensures v > 255 ==> c == 255
  {
    c := Max(0, Min(255, v));
  }

  function SegmentPixels(start: int, lineWidth: int, y: int, seg: int): set<Pixel> {
    RowPixels(start + SegmentStart(seg, lineWidth), y, SegmentStart(seg + 1, lineWidth) - SegmentStart(seg, lineWidth))
  }

  lemma SegmentJoins(start: int, lineWidth: int, y: int, seg: int)
    requires lineWidth > GRADIENT_MIN_LINE_WIDTH && 0 <= seg < SegmentCount(lineWidth)
    ensures RowPixels(start, y, SegmentStart(seg, lineWidth)) + SegmentPixels(start, lineWidth, y, seg)
            == RowPixels(start, y, SegmentStart(seg + 1, lineWidth))
  {
    hide SegmentStart, SegmentCount;
    SegmentsTile(seg, lineWidth);
  }

  /** A segment takes the colour interpolated at its middle column. */
  lemma SegmentIsAllowed(left: int, a: Color, right: int, b: Color, width: int, y: int, seg: int, z: int)
    requires left <= right
    requires var start, lineWidth := RowStart(left), RowEnd(right, width) - RowStart(left) + 1;
             && lineWidth > GRADIENT_MIN_LINE_WIDTH && 0 <= seg < SegmentCount(lineWidth)
             && var here, next := SegmentStart(seg, lineWidth), SegmentStart(seg + 1, lineWidth);
                z == start + here + (next - here) / 2
    ensures left <= z <= right
    ensures var start, lineWidth := RowStart(left), RowEnd(right, width) - RowStart(left) + 1;
            forall p :: p in SegmentPixels(start, lineWidth, y, seg) ==>
                          RowAllows(left, a, right, b, width)(p, LerpColor(a, b, RowFraction(left, right, z)))
  {
    hide SegmentStart, SegmentCount, LerpColor, RowFraction;
    var start, lineWidth := RowStart(left), RowEnd(right, width) - RowStart(left) + 1;
    SegmentsTile(seg, lineWidth);
    forall p | p in SegmentPixels(start, lineWidth, y, seg) ensures NearColumn(lineWidth, p.0, z) {
    }
  }

  method BlendAt(left: int, a: Color, right: int, b: Color, z: int) returns (color: Color)
    requires left <= z <= right
    ensures color == LerpColor(a, b, RowFraction(left, right, z))
  {
    hide LerpChannel;
    var t := if right != left then (z - left) as real / (right - left) as real else 0.0;
    assert t == RowFraction(left, right, z);
    var r := BlendChannel(a.r, b.r, t);
    var g := BlendChannel(a.g, b.g, t);
    var bl := BlendChannel(a.b, b.b, t);
    color := Color(r, g, bl);
  }

  method BlendChannel(a: Channel, b: Channel, t: real) returns (c: Channel)
    requires 0.0 <= t <= 1.0
    ensures c == LerpChannel(a, b, t)
  {
    c := ClampChannel(a + Trunc(t * (b - a) as real));
  }

  method DrawSegment(canvas: Canvas, y: int, left: int, a: Color, right: int, b: Color, seg: int)
    requires left <= right && 0 <= y < canvas.height
    requires var lineWidth := RowEnd(right, canvas.width) - RowStart(left) + 1;
             lineWidth > GRADIENT_MIN_LINE_WIDTH && 0 <= seg < SegmentCount(lineWidth)
    modifies canvas
    ensures var start, lineWidth := RowStart(left), RowEnd(right, canvas.width) - RowStart(left) + 1;
            Repainted(old(canvas.pixels), canvas.pixels, SegmentPixels(start, lineWidth, y, seg),
                      RowAllows(left, a, right, b, canvas.width))
  {
    hide RowShade, Repainted, Paint, RowPixels, SegmentCount, LerpColor, RowFraction, RowAllows;
    var start, lineWidth := RowStart(left), RowEnd(right, canvas.width) - RowStart(left) + 1;
    var segments := SegmentCount(lineWidth);
    SegmentsTile(seg, lineWidth);
    var segStart := start + TruncDiv(seg * lineWidth, segments);
    var segEnd := start + TruncDiv((seg + 1) * lineWidth, segments) - 1;
    var segWidth := segEnd - segStart + 1;
    assert segWidth > 0;  // the source skips empty segments; there are none
    var z := segStart + segWidth / 2;
    SegmentIsAllowed(left, a, right, b, canvas.width, y, seg, z);
    var color := BlendAt(left, a, right, b, z);
    PaintRepaints(canvas.pixels, SegmentPixels(start, lineWidth, y, seg), color,
                  RowAllows(left, a, right, b, canvas.width));
    canvas.DrawRow(segStart, y, segWidth, color);
  }

  /** One clipped scan line of the gradient: a solid short row, or up to six tiling segments. */
  method DrawGradientRow(canvas: Canvas, y: int, left: int, a: Color, right: int, b: Color)
    requires left <= right && 0 <= y < canvas.height
    modifies canvas
    ensures Repainted(old(canvas.pixels), canvas.pixels, ClippedRow(left, right, canvas.width, y),
                      RowAllows(left, a, right, b, canvas.width))
  {
    hide RowShade, LerpColor, SegmentStart, SegmentCount, Repainted, Paint, RowPixels;
    ghost var before := canvas.pixels;
    ghost var allowed := RowAllows(left, a, right, b, canvas.width);
    var start := Max(0, left);
    var end := Min(canvas.width - 1, right);
    if start > end {
      NothingRepainted(before, start, y, end - start + 1, allowed);
      return;
    }
    var lineWidth := end - start + 1;
    if lineWidth <= GRADIENT_MIN_LINE_WIDTH {
      var r := ClampChannel((a.r + b.r) / 2);
      var g := ClampChannel((a.g + b.g) / 2);
      var bl := ClampChannel((a.b + b.b) / 2);
      assert Color(r, g, bl) == Average(a, b);
      canvas.DrawRow(start, y, lineWidth, Color(r, g, bl));
      AverageIsAllowed(left, a, right, b, canvas.width, y);
      PaintRepaints(before, RowPixels(start, y, lineWidth), Color(r, g, bl), allowed);
    } else {
      var segments := SegmentCount(lineWidth);
      SegmentsSpanRow(lineWidth);
      NothingRepainted(before, start, y, 0, allowed);
      var seg := 0;
      while seg < segments
        invariant 0 <= seg <= segments && segments == SegmentCount(lineWidth)
        invariant Repainted(before, canvas.pixels, RowPixels(start, y, SegmentStart(seg, lineWidth)), allowed)
      {
        ghost var drawn := canvas.pixels;
        DrawSegment(canvas, y, left, a, right, b, seg);
        RepaintMore(before, drawn, canvas.pixels, RowPixels(start, y, SegmentStart(seg, lineWidth)),
                    SegmentPixels(start, lineWidth, y, seg), allowed);
        SegmentJoins(start, lineWidth, y, seg);
        seg := seg + 1;
      }
    }
  }

  lemma NothingRepainted(m: map<Pixel, Color>, x: int, y: int, w: int, allowed: (Pixel, Color) -> bool)
    requires w <= 0
    ensures Repainted(m, m, RowPixels(x, y, w), allowed) && Repainted(m, m, {}, allowed)
  {
  }

  lemma AverageIsAllowed(left: int, a: Color, right: int, b: Color, width: int, y: int)
    requires RowEnd(right, width) - RowStart(left) + 1 <= GRADIENT_MIN_LINE_WIDTH
    ensures forall p: Pixel :: RowAllows(left, a, right, b, width)(p, Average(a, b))
  {
  }

  // ---- the gradient triangle ----

  /** The three conditional swaps, as a function. */
  function SortVertices(v1: Vertex, v2: Vertex, v3: Vertex): (s: (Vertex, Vertex, Vertex))
    ensures Sorted(Outline(s.0, s.1, s.2)) && SameCorners(Outline(v1, v2, v3), Outline(s.0, s.1, s.2))
  {
    var (a, b) := if v1.at.y > v2.at.y then (v2, v1) else (v1, v2);
    var (c, d) := if b.at.y > v3.at.y then (v3, b) else (b, v3);
    if a.at.y > c.at.y then (c, a, d) else (a, c, d)
  }

  /** The colours the gradient fill may leave on a pixel of the triangle. */
  ghost function TriangleAllows(v1: Vertex, v2: Vertex, v3: Vertex, width: int): (Pixel, Color) -> bool {
    var s := SortVertices(v1, v2, v3);
    (p: Pixel, c: Color) => ShadeAt(s.0, s.1, s.2, width, p.0, p.1, c)
  }

  /** The two ends of a scan line with their colours, the smaller column first. */
  method GradientEnds(u: Vertex, v: Vertex, w: Vertex, y: int)
    returns (left: int, a: Color, right: int, b: Color)
    requires u.at.y <= v.at.y <= w.at.y && u.at.y < w.at.y && u.at.y <= y <= w.at.y
    ensures var bent, long := BentEnd(Outline(u, v, w), y), LongEnd(Outline(u, v, w), y);
            if bent <= long
            then left == bent && a == BentColor(u, v, w, y) && right == long && b == LongColor(u, v, w, y)
            else left == long && a == LongColor(u, v, w, y) && right == bent && b == BentColor(u, v, w, y)
  {
    hide EdgeDown, EdgeColor;
    if y < v.at.y {
      left, a := InterpolateEdge(u, v, y);
      right, b := InterpolateEdge(u, w, y);
    } else {
      if w.at.y != v.at.y {
        left, a := InterpolateEdge(v, w, y);
      } else {
        left, a := v.at.x, v.color;
      }
      right, b := InterpolateEdge(u, w, y);
    }
    if left > right {
      left, right := right, left;
      a, b := b, a;
    }
  }

  lemma EdgeByFraction(p: Point, q: Point, y: int, t: real)
    requires p.y < q.y && p.y <= y <= q.y && t == (y - p.y) as real / (q.y - p.y) as real
    ensures 0.0 <= t <= 1.0 && p.x + Trunc(t * (q.x - p.x) as real) == EdgeDown(p, q, y)
  {
    hide TruncDiv, Trunc;
    UnitQuotient(y - p.y, q.y - p.y);
    TruncOfRatio(y - p.y, q.x - p.x, q.y - p.y);
  }

  /** Column and colour of an edge on a scan line, through the real fraction t as the source does. */
  method InterpolateEdge(p: Vertex, q: Vertex, y: int) returns (x: int, c: Color)
    requires p.at.y < q.at.y && p.at.y <= y <= q.at.y
    ensures x == EdgeDown(p.at, q.at, y) && c == EdgeColor(p, q, y)
  {
    hide LerpChannel, TruncDiv, Trunc, EdgeDown;
    var t := (y - p.at.y) as real / (q.at.y - p.at.y) as real;
    EdgeByFraction(p.at, q.at, y, t);
    x := p.at.x + Trunc(t * (q.at.x - p.at.x) as real);
    var r := BlendChannel(p.color.r, q.color.r, t);
    var g := BlendChannel(p.color.g, q.color.g, t);
    var b := BlendChannel(p.color.b, q.color.b, t);
    c := Color(r, g, b);
  }

  /**
    fill_triangle_gradient: paints exactly the pixels fill_triangle paints, each in a colour
    interpolated from the two ends of its row.
   */
  method FillTriangleGradient(canvas: Canvas, v1: Vertex, v2: Vertex, v3: Vertex)
    modifies canvas
    ensures Repainted(old(canvas.pixels), canvas.pixels,
                      TrianglePixels(Outline(v1, v2, v3), canvas.width, canvas.height),
                      TriangleAllows(v1, v2, v3, canvas.width))
  {
    hide Covers, TrianglePixels, PixelsAbove, Repainted, RowShade, ShadeAt;
    ghost var t := Outline(v1, v2, v3);
    ghost var before := canvas.pixels;
    ghost var allowed := TriangleAllows(v1, v2, v3, canvas.width);
    var u, v, w := v1, v2, v3;
    if u.at.y > v.at.y {
      u, v := v, u;
    }
    if v.at.y > w.at.y {
      v, w := w, v;
    }
    if u.at.y > v.at.y {
      u, v := v, u;
    }
    assert (u, v, w) == SortVertices(v1, v2, v3);
    ghost var o := Outline(u, v, w);
    if u.at.y == w.at.y {
      FlatHasNoPixels(t, canvas.width, canvas.height);
      NothingRepainted(before, 0, 0, 0, allowed);
      return;
    }
    FirstAndLastRow(t, o, canvas.width, canvas.height);
    NothingRepainted(before, 0, 0, 0, allowed);
    var y := Max(0, u.at.y);
    while y <= Min(canvas.height - 1, w.at.y)
      invariant Max(0, u.at.y) <= y
      invariant Repainted(before, canvas.pixels, PixelsAbove(t, canvas.width, canvas.height, y), allowed)
    {
      ghost var drawn := canvas.pixels;
      var left, a, right, b := GradientEnds(u, v, w, y);
      NextRow(t, o, canvas.width, canvas.height, y, left, right);
      DrawGradientRow(canvas, y, left, a, right, b);
      RowIsAllowed(v1, v2, v3, u, v, w, drawn, canvas.pixels, left, a, right, b, canvas.width, y);
      RepaintMore(before, drawn, canvas.pixels, PixelsAbove(t, canvas.width, canvas.height, y),
                  ClippedRow(left, right, canvas.width, y), allowed);
      y := y + 1;
    }
  }

  /** What a row may show is what the triangle may show on that row. */
  lemma RowIsAllowed(v1: Vertex, v2: Vertex, v3: Vertex, u: Vertex, v: Vertex, w: Vertex,
                     m: map<Pixel, Color>, n: map<Pixel, Color>,
                     left: int, a: Color, right: int, b: Color, width: int, y: int)
    requires (u, v, w) == SortVertices(v1, v2, v3) && u.at.y < w.at.y && u.at.y <= y <= w.at.y
    requires var bent, long := BentEnd(Outline(u, v, w), y), LongEnd(Outline(u, v, w), y);
             if bent <= long
             then left == bent && a == BentColor(u, v, w, y) && right == long && b == LongColor(u, v, w, y)
             else left == long && a == LongColor(u, v, w, y) && right == bent && b == BentColor(u, v, w, y)
    requires Repainted(m, n, ClippedRow(left, right, width, y), RowAllows(left, a, right, b, width))
    ensures Repainted(m, n, ClippedRow(left, right, width, y), TriangleAllows(v1, v2, v3, width))
  {
    hide RowShade, BentEnd, LongEnd, BentColor, LongColor, SortVertices;
    var allowed := TriangleAllows(v1, v2, v3, width);
    forall p | p in ClippedRow(left, right, width, y) ensures allowed(p, n[p]) {
      assert RowAllows(left, a, right, b, width)(p, n[p]);
      assert ShadeAt(u, v, w, width, p.0, p.1, n[p]);
    }
  }

  // ---- what the two fills have in common ----

  /** Reordering the corners does not change the painted set. */
  lemma PixelsIgnoreOrder(t: Triangle, u: Triangle, width: int, height: int)
    requires SameCorners(t, u)
    ensures TrianglePixels(t, width, height) == TrianglePixels(u, width, height)
  {
    hide Covers, TrianglePixels, SameCorners;
    forall p: Pixel ensures p in TrianglePixels(t, width, height) <==> p in TrianglePixels(u, width, height) {
      InTrianglePixels(t, width, height, p);
      InTrianglePixels(u, width, height, p);
      CoversIgnoresOrder(t, u, p.0, p.1);
    }
  }

  lemma HullSwaps(c: Color, a: Color, b: Color, d: Color)
    ensures InHull(c, a, b, d) <==> InHull(c, b, a, d)
    ensures InHull(c, a, b, d) <==> InHull(c, a, d, b)
  {
  }

  lemma HullIgnoresOrder(v1: Vertex, v2: Vertex, v3: Vertex, c: Color)
    ensures var s := SortVertices(v1, v2, v3);
            InHull(c, s.0.color, s.1.color, s.2.color) <==> InHull(c, v1.color, v2.color, v3.color)
  {
    hide InHull;
    var (a, b) := if v1.at.y > v2.at.y then (v2, v1) else (v1, v2);
    var (d, e) := if b.at.y > v3.at.y then (v3, b) else (b, v3);
    HullSwaps(c, v1.color, v2.color, v3.color);
    HullSwaps(c, a.color, b.color, v3.color);
    HullSwaps(c, a.color, d.color, e.color);
  }

  /** The gradient never leaves the range of the three corner colours. */
  lemma GradientStaysInHull(v1: Vertex, v2: Vertex, v3: Vertex, width: int, p: Pixel, c: Color)
    requires TriangleAllows(v1, v2, v3, width)(p, c)
    ensures InHull(c, v1.color, v2.color, v3.color)
  {
    hide ShadeAt, InHull, SortVertices;
    var s := SortVertices(v1, v2, v3);
    ShadeInHull(s.0, s.1, s.2, width, p.0, p.1, c);
    HullIgnoresOrder(v1, v2, v3, c);
  }

  // ---- how accurate the gradient is ----

  /** The edge from p down to q is a side of the triangle and meets scan line y. */
  predicate IsSide(v1: Vertex, v2: Vertex, v3: Vertex, p: Vertex, q: Vertex, y: int) {
    p in {v1, v2, v3} && q in {v1, v2, v3} && p.at.y < q.at.y && p.at.y <= y <= q.at.y
  }

  /** The bent end of a row lies on a side and has that side's colour. */
  lemma BentSide(u: Vertex, v: Vertex, w: Vertex, y: int) returns (p: Vertex, q: Vertex)
    requires Sorted(Outline(u, v, w)) && u.at.y < w.at.y && u.at.y <= y <= w.at.y
    ensures IsSide(u, v, w, p, q, y)
    ensures EdgeDown(p.at, q.at, y) == BentEnd(Outline(u, v, w), y) && EdgeColor(p, q, y) == BentColor(u, v, w, y)
  {
    hide EdgeDown, EdgeColor;
    if y < v.at.y {
      p, q := u, v;
    } else if v.at.y < w.at.y {
      p, q := v, w;
    } else {
      p, q := u, v;
      EdgeDownAtEnds(u.at, v.at);
      EdgeColorAtEnds(u, v);
    }
  }

  lemma SortedCorners(v1: Vertex, v2: Vertex, v3: Vertex)
    ensures var s := SortVertices(v1, v2, v3); s.0 in {v1, v2, v3} && s.1 in {v1, v2, v3} && s.2 in {v1, v2, v3}
  {
  }

  /** The colour c at column x of scan line y fits the exact colours of two sides that enclose it. */
  ghost predicate FitsSides(p: Vertex, q: Vertex, p2: Vertex, q2: Vertex, width: int, x: int, y: int, c: Color)
    requires p.at.y < q.at.y && p2.at.y < q2.at.y
  {
    var left, right := EdgeDown(p.at, q.at, y), EdgeDown(p2.at, q2.at, y);
    && left <= x <= right
    && forall i :: 0 <= i < 3 ==>
         IsNear(Part(c, i), ExactOnEdge(p, q, y, i), ExactOnEdge(p2, q2, y, i), left, right, x, width)
  }

  /** A row whose ends lie on two sides. */
  lemma RowFitsSides(p: Vertex, q: Vertex, p2: Vertex, q2: Vertex, width: int, x: int, y: int, c: Color)
    requires p.at.y < q.at.y && p.at.y <= y <= q.at.y && p2.at.y < q2.at.y && p2.at.y <= y <= q2.at.y
    requires EdgeDown(p.at, q.at, y) <= x <= EdgeDown(p2.at, q2.at, y)
    requires RowShade(EdgeDown(p.at, q.at, y), EdgeColor(p, q, y), EdgeDown(p2.at, q2.at, y), EdgeColor(p2, q2, y),
                      width, x, c)
    ensures FitsSides(p, q, p2, q2, width, x, y, c)
  {
    hide RowShade, EdgeDown, EdgeColor, Part, ExactOnEdge, IsNear;
    forall i | 0 <= i < 3
      ensures IsNear(Part(c, i), ExactOnEdge(p, q, y, i), ExactOnEdge(p2, q2, y, i),
                     EdgeDown(p.at, q.at, y), EdgeDown(p2.at, q2.at, y), x, width)
    {
      EdgeColorIsNear(p, q, y, i);
      EdgeColorIsNear(p2, q2, y, i);
      RowShadeIsNear(EdgeDown(p.at, q.at, y), EdgeColor(p, q, y), EdgeDown(p2.at, q2.at, y), EdgeColor(p2, q2, y),
                     width, x, c, i, ExactOnEdge(p, q, y, i), ExactOnEdge(p2, q2, y, i));
    }
  }

  /**
    Whatever the vertex order: each pixel the gradient fill paints lies between two sides of
    the triangle, and each of its channels is within the stated bound of the exact
    interpolation between the exact colours of those two sides on its scan line.
   */
  lemma GradientIsAccurate(v1: Vertex, v2: Vertex, v3: Vertex, width: int, height: int, pixel: Pixel, c: Color)
    returns (p: Vertex, q: Vertex, p2: Vertex, q2: Vertex)
    requires pixel in TrianglePixels(Outline(v1, v2, v3), width, height)
    requires TriangleAllows(v1, v2, v3, width)(pixel, c)
    ensures IsSide(v1, v2, v3, p, q, pixel.1) && IsSide(v1, v2, v3, p2, q2, pixel.1)
    ensures FitsSides(p, q, p2, q2, width, pixel.0, pixel.1, c)
  {
    hide TrianglePixels, Covers, SortVertices, RowShade, EdgeDown, EdgeColor, BentEnd, BentColor, FitsSides;
    hide SameCorners;
    var (u, v, w) := SortVertices(v1, v2, v3);
    SortedCorners(v1, v2, v3);
    InTrianglePixels(Outline(v1, v2, v3), width, height, pixel);
    CoversIgnoresOrder(Outline(v1, v2, v3), Outline(u, v, w), pixel.0, pixel.1);
    CoversIsSpan(Outline(u, v, w), pixel.0, pixel.1);
    var a, b := BentSide(u, v, w, pixel.1);
    if BentEnd(Outline(u, v, w), pixel.1) <= LongEnd(Outline(u, v, w), pixel.1) {
      p, q, p2, q2 := a, b, u, w;
    } else {
      p, q, p2, q2 := u, w, a, b;
    }
    RowFitsSides(p, q, p2, q2, width, pixel.0, pixel.1, c);
  }

  /** On a triangle of one colour the gradient fill leaves exactly what the solid fill leaves. */
  lemma UniformGradientIsSolid(v1: Vertex, v2: Vertex, v3: Vertex, width: int, height: int,
                               m: map<Pixel, Color>, n: map<Pixel, Color>)
    requires v1.color == v2.color == v3.color
    requires Repainted(m, n, TrianglePixels(Outline(v1, v2, v3), width, height), TriangleAllows(v1, v2, v3, width))
    ensures n == Paint(m, TrianglePixels(Outline(v1, v2, v3), width, height), v1.color)
  {
    hide TrianglePixels, TriangleAllows;
    var s := TrianglePixels(Outline(v1, v2, v3), width, height);
    forall p | p in s ensures n[p] == v1.color {
      GradientStaysInHull(v1, v2, v3, width, p, n[p]);
    }
  }
}
