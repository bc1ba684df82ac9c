/** Where the calibration crosshairs are, and their place in the touch panel's native orientation. */
module Crosshairs {
  import opened Numbers
  import opened Points
  import opened Calibration

  datatype Rotation = Rot0 | Rot90 | Rot180 | Rot270

  /** The default display: native resolution, software rotation, orientation. */
  datatype Display = Display(hor: int, ver: int, swRotate: bool, rotated: Rotation) {
    /** The resolution an application sees. */
    function LogicalHor(): int {
      if rotated.Rot90? || rotated.Rot270? then ver else hor
    }

    function LogicalVer(): int {
      if rotated.Rot90? || rotated.Rot270? then hor else ver
    }
  }

  predicate OnScreen(p: Point, hor: int, ver: int) {
    0 <= p.x < hor && 0 <= p.y < ver
  }

  predicate AllOnScreen(ps: seq<Point>, hor: int, ver: int) {
    forall i :: 0 <= i < |ps| ==> OnScreen(ps[i], hor, ver)
  }

  // ---- lv_tc_screen_auto_set_points ----

  function Margin(hor: int, ver: int): int {
    var h, v := Trunc(hor as real * 0.15), Trunc(ver as real * 0.15);
    if h < v then h else v
  }

  /** Top left, top right, bottom centre. */
  function AutoPoints(hor: int, ver: int): (ps: seq<Point>)
    ensures |ps| == 3
  {
    var m := Margin(hor, ver);
    [Point(m, m), Point(hor - m, m), Point(Trunc(hor as real * 0.5), ver - m)]
  }

  /** The three points lie on the screen exactly when both sides have at least seven pixels. */
  lemma AutoPointsOnScreen(hor: int, ver: int)
    ensures AllOnScreen(AutoPoints(hor, ver), hor, ver) <==> hor >= 7 && ver >= 7
  {
    var ps := AutoPoints(hor, ver);
    if hor >= 7 && ver >= 7 {
      assert 1 <= Margin(hor, ver);
    } else {
      assert Margin(hor, ver) <= 0;
      assert !OnScreen(ps[1], hor, ver);
    }
  }

  /** Where they are: 15 percent of the shorter side inside, the third one in the middle column. */
  lemma AutoPointsPlaces(hor: int, ver: int)
    requires hor >= 0 && ver >= 0
    ensures var ps, side := AutoPoints(hor, ver), Min(hor, ver);
            var m := ps[0].x;
            && 100 * m <= 15 * side < 100 * (m + 1)
            && ps[0] == Point(m, m) && ps[1] == Point(hor - m, m) && ps[2].y == ver - m
            && 2 * ps[2].x <= hor <= 2 * ps[2].x + 1
  {
  }

  /** On every such screen they are not collinear. */
  lemma AutoPointsSpanArea(hor: int, ver: int)
    requires hor >= 7 && ver >= 7
    ensures SignedArea(AutoPoints(hor, ver)) > 0
  {
    hide Margin;
    MarginIsSmall(hor, ver);
    CornerArea(Margin(hor, ver), hor, ver, Trunc(hor as real * 0.5));
  }

  lemma MarginIsSmall(hor: int, ver: int)
    requires hor >= 7 && ver >= 7
    ensures 1 <= Margin(hor, ver) && 2 * Margin(hor, ver) < hor && 2 * Margin(hor, ver) < ver
  {
  }

  lemma CornerArea(m: int, hor: int, ver: int, mid: int)
    requires 2 * m < hor && 2 * m < ver
    ensures (hor - m - m) * (ver - m - m) - (mid - m) * (m - m) > 0
  {
  }

  // ---- the rotation switch of lv_tc_screen_step ----

  /** A logical point in the touch panel's own coordinates. */
  function ToNative(d: Display, p: Point): Point {
    if !d.swRotate then p
    else match d.rotated
      case Rot90 => Point(p.y, d.ver - p.x - 1)
      case Rot180 => Point(d.hor - p.x - 1, d.ver - p.y - 1)
      case Rot270 => Point(d.hor - p.y - 1, p.x)
      case Rot0 => p
  }

  /** The inverse: how LVGL turns a native touch on a display it rotates in software. */
  function ToLogical(d: Display, p: Point): Point {
    if !d.swRotate then p
    else match d.rotated
      case Rot90 => Point(d.ver - p.y - 1, p.x)
      case Rot180 => Point(d.hor - p.x - 1, d.ver - p.y - 1)
      case Rot270 => Point(p.y, d.hor - p.x - 1)
      case Rot0 => p
  }

  function AllNative(d: Display, ps: seq<Point>): (qs: seq<Point>)
    ensures |qs| == |ps|
    ensures forall i :: 0 <= i < |ps| ==> qs[i] == ToNative(d, ps[i])
  {
    seq(|ps|, i requires 0 <= i < |ps| => ToNative(d, ps[i]))
  }

  /** The switch is a bijection between all points, and between the two screen rectangles. */
  lemma RotationIsBijection(d: Display, p: Point)
    ensures ToLogical(d, ToNative(d, p)) == p && ToNative(d, ToLogical(d, p)) == p
    ensures d.swRotate ==> (OnScreen(p, d.LogicalHor(), d.LogicalVer()) <==> OnScreen(ToNative(d, p), d.hor, d.ver))
  {
  }

  /** Which way it turns: where the corners of the logical screen lie on the native one. */
  lemma RotationOfCorners(d: Display)
    requires d.swRotate
    ensures var right, bottom := d.LogicalHor() - 1, d.LogicalVer() - 1;
            var topLeft, topRight := ToNative(d, Point(0, 0)), ToNative(d, Point(right, 0));
            var bottomLeft := ToNative(d, Point(0, bottom));
            match d.rotated
            case Rot0 => topLeft == Point(0, 0) && topRight == Point(d.hor - 1, 0) && bottomLeft == Point(0, d.ver - 1)
            case Rot90 => topLeft == Point(0, d.ver - 1) && topRight == Point(0, 0)
                          && bottomLeft == Point(d.hor - 1, d.ver - 1)
            case Rot180 => topLeft == Point(d.hor - 1, d.ver - 1) && topRight == Point(0, d.ver - 1)
                           && bottomLeft == Point(d.hor - 1, 0)
            case Rot270 => topLeft == Point(d.hor - 1, 0) && topRight == Point(d.hor - 1, d.ver - 1)
                           && bottomLeft == Point(0, 0)
  {
  }

  /** It keeps signed area, whatever the orientation. */
  lemma RotationKeepsArea(d: Display, ps: seq<Point>)
    requires |ps| == 3
    ensures SignedArea(AllNative(d, ps)) == SignedArea(ps)
  {
    hide SignedArea, Cross;
    var qs := AllNative(d, ps);
    AreaByEdges(ps);
    AreaByEdges(qs);
    TurnsKeepCross(ps[1].x - ps[0].x, ps[1].y - ps[0].y, ps[2].x - ps[0].x, ps[2].y - ps[0].y);
  }

  /** The cross product of two directions. */
  function Cross(dx: int, dy: int, ex: int, ey: int): int {
    dx * ey - ex * dy
  }

  lemma AreaByEdges(ps: seq<Point>)
    requires |ps| == 3
    ensures SignedArea(ps) == Cross(ps[1].x - ps[0].x, ps[1].y - ps[0].y, ps[2].x - ps[0].x, ps[2].y - ps[0].y)
  {
  }

  lemma TurnsKeepCross(dx: int, dy: int, ex: int, ey: int)
    ensures Cross(dy, -dx, ey, -ex) == Cross(-dx, -dy, -ex, -ey) == Cross(-dy, dx, -ey, ex) == Cross(dx, dy, ex, ey)
  {
  }

  /**
    The points handed to the solver are never collinear. With software rotation they lie on the
    native screen; without it they are left alone and lie on the screen the application sees.
   */
  lemma NativeCrosshairsAreUsable(d: Display)
    requires d.hor >= 7 && d.ver >= 7
    ensures var ps := AllNative(d, AutoPoints(d.LogicalHor(), d.LogicalVer()));
            && SignedArea(ps) > 0
            && (if d.swRotate then AllOnScreen(ps, d.hor, d.ver) else AllOnScreen(ps, d.LogicalHor(), d.LogicalVer()))
  {
    hide AutoPoints, SignedArea;
    var auto := AutoPoints(d.LogicalHor(), d.LogicalVer());
    AutoPointsOnScreen(d.LogicalHor(), d.LogicalVer());
    AutoPointsSpanArea(d.LogicalHor(), d.LogicalVer());
    RotationKeepsArea(d, auto);
    if d.swRotate {
      forall i | 0 <= i < 3 ensures OnScreen(AllNative(d, auto)[i], d.hor, d.ver) {
        RotationIsBijection(d, auto[i]);
      }
    }
  }
}
