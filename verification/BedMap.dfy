/** The bed frame and what the index-to-bed transform is meant to achieve. */
module BedMap {
  import opened Numbers
  import opened Options

  const MESH_SCALE := 50.0
  const BED_WORLD_SPAN := 300.0

  /** A rectangle in bed coordinates, in millimetres. */
  datatype Extent = Extent(x0: real, x1: real, y0: real, y1: real) {
    predicate Usable() {
      x0 < x1 && y0 < y1
    }

    function CenterX(): real {
      (x0 + x1) / 2.0
    }

    function CenterY(): real {
      (y0 + y1) / 2.0
    }

    predicate Inside(frame: Extent) {
      frame.x0 <= x0 && x1 <= frame.x1 && frame.y0 <= y0 && y1 <= frame.y1
    }
  }

  predicate HaveFrame(config: Option<Extent>) {
    config.Some? && config.value.Usable()
  }

  /** The configured probe area when it is usable, else the mesh's own extent. */
  function BedOf(mesh: Extent, config: Option<Extent>): Extent {
    if HaveFrame(config) then config.value else mesh
  }

  /** World units per millimetre, the same on both axes. */
  function WorldScale(bed: Extent): (s: real)
    requires bed.Usable()
    ensures s > 0.0
  {
    BED_WORLD_SPAN / RealMax(bed.x1 - bed.x0, bed.y1 - bed.y0)
  }

  /** Index-space coordinate of mesh column (or mirrored row) i out of n. */
  function IndexCoord(i: int, n: int): real {
    (i as real - n as real / 2.0) * MESH_SCALE
  }

  /** Where the i-th of n evenly spaced probe points lies on the bed. */
  function Position(lo: real, hi: real, n: int, i: int): real
    requires n > 1
  {
    lo + i as real * ((hi - lo) / (n - 1) as real)
  }

  /** The first one lies at the lower end, the last one at the upper, and they are evenly spaced. */
  lemma PositionsSpanExtent(lo: real, hi: real, n: int, i: int)
    requires n > 1
    ensures Position(lo, hi, n, 0) == lo && Position(lo, hi, n, n - 1) == hi
    ensures Position(lo, hi, n, i + 1) - Position(lo, hi, n, i) == Position(lo, hi, n, 1) - Position(lo, hi, n, 0)
  {
    var step := (hi - lo) / (n - 1) as real;
    assert (n - 1) as real * step == hi - lo;
    assert (i + 1) as real * step == i as real * step + step;
  }

  /** Index coordinates are 50 units apart, and n/2 is in the middle. */
  lemma IndexCoordSteps(i: int, n: int)
    ensures IndexCoord(i + 1, n) - IndexCoord(i, n) == 50.0 && IndexCoord(i, n) + IndexCoord(n - i, n) == 0.0
  {
  }

  function Apply(scale: real, offset: real, x: real): real {
    scale * x + offset
  }

  /** The scale and offset the source derives for one axis. */
  function AxisScale(lo: real, hi: real, n: int, ws: real): real {
    if n > 1 then (hi - lo) / (n - 1) as real * ws / MESH_SCALE else 1.0
  }

  function AxisOffset(lo: real, hi: real, n: int, ws: real, center: real): real {
    var d := if n > 1 then (hi - lo) / (n - 1) as real else hi - lo;
    ws * (lo + n as real / 2.0 * d - center)
  }

  /** The transform sends index coordinates to scaled distances from the bed centre. */
  lemma AxisMapsIndices(lo: real, hi: real, n: int, ws: real, center: real, i: int)
    requires n > 1
    ensures Apply(AxisScale(lo, hi, n, ws), AxisOffset(lo, hi, n, ws, center), IndexCoord(i, n))
            == ws * (Position(lo, hi, n, i) - center)
  {
  }

  /** With a single column the transform meets the same goal only for one particular extent. */
  lemma SingleColumnMapsIndex(lo: real, hi: real, ws: real, center: real)
    ensures Apply(AxisScale(lo, hi, 1, ws), AxisOffset(lo, hi, 1, ws, center), IndexCoord(0, 1))
            == ws * (lo - center)
            <==> ws * (hi - lo) == MESH_SCALE
  {
  }

  /** Every scale is positive, so the division in the inverse map is always defined. */
  lemma AxisScalePositive(lo: real, hi: real, n: int, ws: real)
    requires lo < hi && ws > 0.0
    ensures AxisScale(lo, hi, n, ws) > 0.0
  {
  }

  /** The longer side of the bed becomes exactly 300 world units and the aspect is kept. */
  lemma LongerSideFillsSpan(bed: Extent)
    requires bed.Usable()
    ensures var ws := WorldScale(bed);
            && RealMax((bed.x1 - bed.x0) * ws, (bed.y1 - bed.y0) * ws) == BED_WORLD_SPAN
            && ((bed.x1 - bed.x0) * ws) * (bed.y1 - bed.y0) == ((bed.y1 - bed.y0) * ws) * (bed.x1 - bed.x0)
  {
  }

  lemma PositionWithin(lo: real, hi: real, n: int, i: int)
    requires lo <= hi && n > 1 && 0 <= i < n
    ensures lo <= Position(lo, hi, n, i) <= hi
    ensures Position(lo, hi, n, 0) == lo && Position(lo, hi, n, n - 1) == hi
  {
    var d := (hi - lo) / (n - 1) as real;
    assert d * (n - 1) as real == hi - lo;
    assert d >= 0.0;
    ProductSign(d, i as real);
    ProductSign(d, (n - 1 - i) as real);
    assert d * i as real + d * (n - 1 - i) as real == d * (n - 1) as real;
  }

  /** A point of the frame stays within half the frame's world size of the centre. */
  lemma WithinHalf(lo: real, hi: real, x: real, ws: real)
    requires lo <= x <= hi && ws > 0.0
    ensures -((hi - lo) * ws) / 2.0 <= ws * (x - (lo + hi) / 2.0) <= (hi - lo) * ws / 2.0
  {
  }

  /** The hand-written inverse used by the outline and the fit undoes the transform. */
  lemma InverseUndoesApply(scale: real, offset: real, target: real)
    requires scale != 0.0
    ensures Apply(scale, offset, (target - offset) / scale) == target
  {
  }

  /**
    Along one axis of a mesh that lies inside the bed frame, every probe point is drawn inside
    the bed outline, whose ends are half the bed's world size away from the centre.
   */
  lemma MeshStaysInsideOutline(lo: real, hi: real, frameLo: real, frameHi: real, n: int, i: int, ws: real)
    requires frameLo <= lo < hi <= frameHi && n > 1 && 0 <= i < n && ws > 0.0
    ensures var center := (frameLo + frameHi) / 2.0;
            var x := Apply(AxisScale(lo, hi, n, ws), AxisOffset(lo, hi, n, ws, center), IndexCoord(i, n));
            -((frameHi - frameLo) * ws) / 2.0 <= x <= (frameHi - frameLo) * ws / 2.0
  {
    hide AxisScale, AxisOffset, Apply, Position;
    AxisMapsIndices(lo, hi, n, ws, (frameLo + frameHi) / 2.0, i);
    PositionWithin(lo, hi, n, i);
    WithinHalf(frameLo, frameHi, Position(lo, hi, n, i), ws);
  }

  /**
    Rows are fed to the transform mirrored, as n-1-r. Row r is therefore drawn at the position
    of row n-1-r: at its own physical place exactly when it is the middle row.
   */
  lemma RowsAreMirrored(lo: real, hi: real, n: int, ws: real, center: real, r: int)
    requires lo < hi && n > 1 && ws > 0.0
    ensures Apply(AxisScale(lo, hi, n, ws), AxisOffset(lo, hi, n, ws, center), IndexCoord(n - 1 - r, n))
            == ws * (Position(lo, hi, n, r) - center)
            <==> 2 * r == n - 1
  {
  }

}
