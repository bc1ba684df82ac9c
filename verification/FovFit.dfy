/** The search for the largest zoom that keeps the projected bed box inside the padded canvas. */
module FovFit {
  import opened Numbers
  import opened Projection

  const CANVAS_PADDING_RATIO := 0.05
  const MAX_FIT := 5.0
  const MIN_FIT := 0.2
  const NEGLIGIBLE := 0.000001

  /** The padded drawable box, relative to the projection origin. */
  function LowX(canvasWidth: int): real {
    GRADIENT_BAND_TOTAL_WIDTH as real + canvasWidth as real * CANVAS_PADDING_RATIO - BaseX(canvasWidth)
  }

  function HighX(canvasWidth: int): real {
    canvasWidth as real - canvasWidth as real * CANVAS_PADDING_RATIO - BaseX(canvasWidth)
  }

  function LowY(canvasHeight: int): real {
    canvasHeight as real * CANVAS_PADDING_RATIO - BaseY(canvasHeight)
  }

  function HighY(canvasHeight: int): real {
    canvasHeight as real - canvasHeight as real * CANVAS_PADDING_RATIO - BaseY(canvasHeight)
  }

  /** On the canvas it reaches from the band to the right edge and from top to bottom, less 5 percent a side. */
  lemma PaddedBox(canvasWidth: int, canvasHeight: int)
    ensures (LowX(canvasWidth) + BaseX(canvasWidth)) * 20.0 == (1700 + canvasWidth) as real
    ensures (HighX(canvasWidth) + BaseX(canvasWidth)) * 20.0 == (19 * canvasWidth) as real
    ensures (LowY(canvasHeight) + BaseY(canvasHeight)) * 20.0 == canvasHeight as real
    ensures (HighY(canvasHeight) + BaseY(canvasHeight)) * 20.0 == (19 * canvasHeight) as real
    ensures BaseX(canvasWidth) * 2.0 == (85 + canvasWidth) as real
    ensures BaseY(canvasHeight) * 5.0 == (2 * canvasHeight) as real
  {
  }

  /** The box has the projection origin in its interior exactly from 95 by 1 pixels on. */
  lemma BoxSurroundsOrigin(canvasWidth: int, canvasHeight: int)
    ensures LowX(canvasWidth) < 0.0 < HighX(canvasWidth) <==> canvasWidth >= 95
    ensures canvasWidth < 95 ==> LowX(canvasWidth) > HighX(canvasWidth)
    ensures LowY(canvasHeight) < 0.0 < HighY(canvasHeight) <==> canvasHeight >= 1
    ensures canvasWidth >= 95 ==> LowX(canvasWidth) <= -0.25 && HighX(canvasWidth) >= 0.25
    ensures canvasHeight >= 1 ==> LowY(canvasHeight) <= -0.25 && HighY(canvasHeight) >= 0.25
  {
  }

  /** Zooming by k keeps an offset inside the box; negligible offsets are not looked at. */
  predicate Admits(k: real, o: real, lo: real, hi: real) {
    Abs(o) > NEGLIGIBLE ==> lo <= k * o <= hi
  }

  /** One step of the search. */
  function Tighten(k: real, o: real, lo: real, hi: real): real {
    if o > NEGLIGIBLE then RealMin(k, hi / o)
    else if o < -NEGLIGIBLE then RealMin(k, lo / o)
    else k
  }

  /** A zoom survives a step exactly when it survived before and keeps the new offset inside. */
  lemma TightenIsExact(k: real, o: real, lo: real, hi: real, z: real)
    requires lo < 0.0 < hi && z >= 0.0
    ensures z <= Tighten(k, o, lo, hi) <==> z <= k && Admits(z, o, lo, hi)
  {
  }

  lemma TightenStaysPositive(k: real, o: real, lo: real, hi: real)
    requires lo < 0.0 < hi && k > 0.0
    ensures Tighten(k, o, lo, hi) > 0.0
  {
  }

  /** Both coordinates of a measured corner stay inside the box when zoomed by k. */
  predicate Fits(k: real, p: Point3D, canvasWidth: int, canvasHeight: int) {
    && Admits(k, p.screenX as real - BaseX(canvasWidth), LowX(canvasWidth), HighX(canvasWidth))
    && Admits(k, p.screenY as real - BaseY(canvasHeight), LowY(canvasHeight), HighY(canvasHeight))
  }

  predicate FitsAll(k: real, ps: seq<Point3D>, canvasWidth: int, canvasHeight: int) {
    forall i :: 0 <= i < |ps| ==> Fits(k, ps[i], canvasWidth, canvasHeight)
  }

  /** Zoom z is at most k if and only if it is at most 5 and keeps every measured corner inside. */
  predicate Separates(z: real, k: real, ps: seq<Point3D>, canvasWidth: int, canvasHeight: int) {
    z <= k <==> z <= MAX_FIT && FitsAll(z, ps, canvasWidth, canvasHeight)
  }

  /** k is the largest zoom up to 5 that keeps every measured corner inside the box. */
  ghost predicate BestFit(k: real, ps: seq<Point3D>, canvasWidth: int, canvasHeight: int) {
    0.0 < k && forall z :: z >= 0.0 ==> Separates(z, k, ps, canvasWidth, canvasHeight)
  }

  /** The measured (truncated) projections of some points. */
  function Measured(v: View, corners: seq<Vec>, canvasWidth: int, canvasHeight: int): (ps: seq<Point3D>)
    requires forall i :: 0 <= i < |corners| ==> Depth(v, corners[i]) != 0.0
    ensures |ps| == |corners|
    ensures forall i :: 0 <= i < |corners| ==> ps[i] == Project(v, corners[i], canvasWidth, canvasHeight)
  {
    seq(|corners|, i requires 0 <= i < |corners| => Project(v, corners[i], canvasWidth, canvasHeight))
  }

  /** The last step of the search. */
  function Guard(k: real): real {
    RealMax(MIN_FIT, RealMin(MAX_FIT, k))
  }

  /** After the guard the corners still fit if and only if the best zoom was at least 0.2. */
  lemma GuardKeepsFit(k: real, ps: seq<Point3D>, canvasWidth: int, canvasHeight: int)
    requires BestFit(k, ps, canvasWidth, canvasHeight)
    ensures FitsAll(Guard(k), ps, canvasWidth, canvasHeight) <==> k >= 0.2
    ensures k <= 5.0 && Guard(k) == if k < 0.2 then 0.2 else k
  {
    assert Separates(k, k, ps, canvasWidth, canvasHeight);
    assert Separates(MIN_FIT, k, ps, canvasWidth, canvasHeight);
  }

  lemma GuardLeavesBest(k: real, ps: seq<Point3D>, canvasWidth: int, canvasHeight: int)
    requires BestFit(k, ps, canvasWidth, canvasHeight) && k >= MIN_FIT
    ensures Guard(k) == k
  {
    assert Separates(k, k, ps, canvasWidth, canvasHeight);
  }

  /** There is no second best fit. */
  lemma BestFitUnique(k: real, m: real, ps: seq<Point3D>, canvasWidth: int, canvasHeight: int)
    requires BestFit(k, ps, canvasWidth, canvasHeight) && BestFit(m, ps, canvasWidth, canvasHeight)
    ensures k == m
  {
    assert Separates(k, k, ps, canvasWidth, canvasHeight) && Separates(k, m, ps, canvasWidth, canvasHeight);
    assert Separates(m, m, ps, canvasWidth, canvasHeight) && Separates(m, k, ps, canvasWidth, canvasHeight);
  }

  lemma ScaleGap(k: real, o: real, e: real, bound: real)
    requires k > 0.0 && -bound < o - e < bound
    ensures Times(k, o) < Times(k, e) + Times(k, bound) && Times(k, e) < Times(k, o) + Times(k, bound)
  {
    PositiveProduct(k, bound - (o - e));
    PositiveProduct(k, bound + (o - e));
    assert Times(k, bound - (o - e)) == Times(k, bound) - Times(k, o) + Times(k, e);
    assert Times(k, bound + (o - e)) == Times(k, bound) + Times(k, o) - Times(k, e);
  }

  lemma NegligibleStaysSmall(k: real, o: real)
    requires 0.0 < k <= MAX_FIT && Abs(o) <= NEGLIGIBLE
    ensures -0.25 <= Times(k, o) <= 0.25
  {
    ProductSign(k, NEGLIGIBLE - o);
    ProductSign(k, NEGLIGIBLE + o);
    assert k * (NEGLIGIBLE - o) == k * NEGLIGIBLE - Times(k, o);
    assert k * (NEGLIGIBLE + o) == k * NEGLIGIBLE + Times(k, o);
  }

  lemma AdmittedProduct(k: real, o: real, lo: real, hi: real)
    requires Admits(k, o, lo, hi) && Abs(o) > NEGLIGIBLE
    ensures lo <= Times(k, o) <= hi
  {
  }

  lemma ScaledError(k: real, o: real, e: real, bound: real, lo: real, hi: real)
    requires 0.0 < k <= MAX_FIT && Abs(o - e) < bound && Admits(k, o, lo, hi)
    requires lo <= -0.25 && hi >= 0.25
    ensures lo < Times(k, e) + Times(k, bound) && Times(k, e) < hi + Times(k, bound)
  {
    hide Times, Admits;
    ScaleGap(k, o, e, bound);
    if Abs(o) <= NEGLIGIBLE {
      NegligibleStaysSmall(k, o);
    } else {
      AdmittedProduct(k, o, lo, hi);
    }
  }

  /** The exact projection of p lies in the padded box widened by margin on every side. */
  predicate NearlyInside(v: View, p: Vec, margin: real, canvasWidth: int, canvasHeight: int)
    requires Depth(v, p) != 0.0
  {
    var (x, y) := Perspective(v, p);
    && LowX(canvasWidth) - margin < x < HighX(canvasWidth) + margin
    && LowY(canvasHeight) - margin < y < HighY(canvasHeight) + margin
  }

  /**
    The search looks at truncated corners. The exact projected corner of the zoomed view
    leaves the padded box by less than 2k pixels.
   */
  lemma ExactCornerNearlyFits(v: View, p: Vec, k: real, canvasWidth: int, canvasHeight: int)
    requires canvasWidth >= 95 && canvasHeight >= 1 && Depth(v, p) != 0.0 && 0.0 < k <= MAX_FIT
    requires Fits(k, Project(v, p, canvasWidth, canvasHeight), canvasWidth, canvasHeight)
    ensures Depth(v.(fov := v.fov * k), p) != 0.0
    ensures NearlyInside(v.(fov := v.fov * k), p, k * 2.0, canvasWidth, canvasHeight)
  {
    hide Perspective, Project, Depth, Rotated, World, LowX, HighX, LowY, HighY, BaseX, BaseY, Abs, Admits;
    BoxSurroundsOrigin(canvasWidth, canvasHeight);
    PerspectiveIsLinear(v, p, k);
    MeasuredOffsetError(v, p, canvasWidth, canvasHeight);
    var q := Project(v, p, canvasWidth, canvasHeight);
    var (x, y) := Perspective(v, p);
    ScaledError(k, q.screenX as real - BaseX(canvasWidth), x, 2.0, LowX(canvasWidth), HighX(canvasWidth));
    ScaledError(k, q.screenY as real - BaseY(canvasHeight), y, 2.0, LowY(canvasHeight), HighY(canvasHeight));
  }

  /**
    The refined view: when the best fit is at least 0.2 the guard leaves it alone, and with
    the field of view rescaled by it every corner's exact projection leaves the padded box by
    less than twice the factor in pixels.
   */
  lemma RefinedViewNearlyFits(v: View, corners: seq<Vec>, k: real, canvasWidth: int, canvasHeight: int, i: int)
    requires canvasWidth >= 95 && canvasHeight >= 1 && 0 <= i < |corners|
    requires forall j :: 0 <= j < |corners| ==> Depth(v, corners[j]) != 0.0
    requires BestFit(k, Measured(v, corners, canvasWidth, canvasHeight), canvasWidth, canvasHeight) && k >= MIN_FIT
    ensures Guard(k) == k && Depth(v.(fov := v.fov * Guard(k)), corners[i]) != 0.0
    ensures NearlyInside(v.(fov := v.fov * Guard(k)), corners[i], k * 2.0, canvasWidth, canvasHeight)
  {
    hide Perspective, Project, Depth, Rotated, World, Fits, LowX, HighX, LowY, HighY;
    var ps := Measured(v, corners, canvasWidth, canvasHeight);
    assert Separates(k, k, ps, canvasWidth, canvasHeight);
    assert Fits(k, ps[i], canvasWidth, canvasHeight);
    ExactCornerNearlyFits(v, corners[i], k, canvasWidth, canvasHeight);
    assert Guard(k) == k;
    assert v.(fov := v.fov * Guard(k)) == v.(fov := v.fov * k);
  }
}
