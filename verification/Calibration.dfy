/** The three-point touch calibration: an affine map by Cramer's rule, and display rotation. */
module Calibration {
  import opened Numbers
  import opened Points
  import opened Options

  // ---- the affine solve ----

  /** The stored coefficients. A zero divisor leaves them infinite or not a number in C. */
  datatype Coeff =
    | Coeff(isValid: bool, a: real, b: real, c: real, d: real, e: real, f: real)
    | NotFinite

  /** Twice the signed area of a triangle; zero exactly when the points are collinear. */
  function SignedArea(p: seq<Point>): int
    requires |p| == 3
  {
    (p[1].x - p[0].x) * (p[2].y - p[0].y) - (p[2].x - p[0].x) * (p[1].y - p[0].y)
  }

  function Divisor(x0: real, y0: real, x1: real, y1: real, x2: real, y2: real): real {
    x0 * (y2 - y1) - x1 * y2 + y1 * x2 + y0 * (x1 - x2)
  }

  /** The numerators of one output coordinate with screen values s0, s1, s2. */
  function NumX(s0: real, s1: real, s2: real, y0: real, y1: real, y2: real): real {
    s0 * (y2 - y1) - s1 * y2 + s2 * y1 + (s1 - s2) * y0
  }

  function NumY(s0: real, s1: real, s2: real, x0: real, x1: real, x2: real): real {
    -(s0 * (x2 - x1) - s1 * x2 + s2 * x1 + (s1 - s2) * x0)
  }

  function NumC(s0: real, s1: real, s2: real, x0: real, y0: real, x1: real, y1: real, x2: real, y2: real): real {
    s0 * (y1 * x2 - x1 * y2) + x0 * (s1 * y2 - s2 * y1) + y0 * (s2 * x1 - s1 * x2)
  }

  function DivisorOf(t: seq<Point>): real
    requires |t| == 3
  {
    Divisor(t[0].x as real, t[0].y as real, t[1].x as real, t[1].y as real, t[2].x as real, t[2].y as real)
  }

  /** lv_tc_compute_coeff: screen points scr, touch points tch. */
  function ComputeCoeff(scr: seq<Point>, tch: seq<Point>): Coeff
    requires |scr| == 3 && |tch| == 3
  {
    var x0, y0, x1 := tch[0].x as real, tch[0].y as real, tch[1].x as real;
    var y1, x2, y2 := tch[1].y as real, tch[2].x as real, tch[2].y as real;
    var u0, u1, u2 := scr[0].x as real, scr[1].x as real, scr[2].x as real;
    var v0, v1, v2 := scr[0].y as real, scr[1].y as real, scr[2].y as real;
    var q := Divisor(x0, y0, x1, y1, x2, y2);
    if q == 0.0 then NotFinite
    else Coeff(true,
               NumX(u0, u1, u2, y0, y1, y2) / q,
               NumY(u0, u1, u2, x0, x1, x2) / q,
               NumC(u0, u1, u2, x0, y0, x1, y1, x2, y2) / q,
               NumX(v0, v1, v2, y0, y1, y2) / q,
               NumY(v0, v1, v2, x0, x1, x2) / q,
               NumC(v0, v1, v2, x0, y0, x1, y1, x2, y2) / q)
  }

  function Affine(a: real, b: real, c: real, x: real, y: real): real {
    x * a + y * b + c
  }

  /** The affine map before rounding. */
  function MapX(k: Coeff, x: real, y: real): real
    requires k.Coeff?
  {
    Affine(k.a, k.b, k.c, x, y)
  }

  function MapY(k: Coeff, x: real, y: real): real
    requires k.Coeff?
  {
    Affine(k.d, k.e, k.f, x, y)
  }

  /** lv_tc_transform_point; None where C leaves the result undefined. */
  function TransformPoint(k: Coeff, p: Point): Option<Point> {
    if k.NotFinite? then None
    else if k.isValid then
      Some(Point(RoundHalfAway(MapX(k, p.x as real, p.y as real)), RoundHalfAway(MapY(k, p.x as real, p.y as real))))
    else Some(p)
  }

  // ---- exactness ----

  lemma DivisorIsArea(t: seq<Point>)
    requires |t| == 3
    ensures DivisorOf(t) == -(SignedArea(t) as real)
    ensures DivisorOf(t) != 0.0 <==> SignedArea(t) != 0
  {
  }

  /** One output coordinate of the solve meets its screen value at all three touch points. */
  lemma SolveOneAxis(s0: real, s1: real, s2: real, x0: real, y0: real, x1: real, y1: real, x2: real, y2: real)
    requires Divisor(x0, y0, x1, y1, x2, y2) != 0.0
    ensures var q := Divisor(x0, y0, x1, y1, x2, y2);
            var a := NumX(s0, s1, s2, y0, y1, y2) / q;
            var b := NumY(s0, s1, s2, x0, x1, x2) / q;
            var c := NumC(s0, s1, s2, x0, y0, x1, y1, x2, y2) / q;
            Affine(a, b, c, x0, y0) == s0 && Affine(a, b, c, x1, y1) == s1 && Affine(a, b, c, x2, y2) == s2
  {
  }

  /** k maps the i-th touch point exactly onto the i-th screen point. */
  predicate Meets(k: Coeff, scr: seq<Point>, tch: seq<Point>)
    requires k.Coeff? && |scr| == 3 && |tch| == 3
  {
    MeetsAt(k, scr[0], tch[0]) && MeetsAt(k, scr[1], tch[1]) && MeetsAt(k, scr[2], tch[2])
  }

  predicate MeetsAt(k: Coeff, s: Point, t: Point)
    requires k.Coeff?
  {
    MapX(k, t.x as real, t.y as real) == s.x as real && MapY(k, t.x as real, t.y as real) == s.y as real
  }

  /** Non-collinear touch points are mapped exactly onto their screen points. */
  lemma SolveIsExact(scr: seq<Point>, tch: seq<Point>)
    requires |scr| == 3 && |tch| == 3
    ensures SignedArea(tch) != 0 <==> ComputeCoeff(scr, tch).Coeff?
    ensures SignedArea(tch) != 0 ==> ComputeCoeff(scr, tch).isValid && Meets(ComputeCoeff(scr, tch), scr, tch)
  {
    DivisorIsArea(tch);
    if SignedArea(tch) != 0 {
      SolveAxes(scr, tch);
    }
  }

  lemma SolveAxes(scr: seq<Point>, tch: seq<Point>)
    requires |scr| == 3 && |tch| == 3 && DivisorOf(tch) != 0.0
    ensures Meets(ComputeCoeff(scr, tch), scr, tch)
  {
    hide Divisor, NumX, NumY, NumC, Affine;
    var x0, y0, x1 := tch[0].x as real, tch[0].y as real, tch[1].x as real;
    var y1, x2, y2 := tch[1].y as real, tch[2].x as real, tch[2].y as real;
    SolveOneAxis(scr[0].x as real, scr[1].x as real, scr[2].x as real, x0, y0, x1, y1, x2, y2);
    SolveOneAxis(scr[0].y as real, scr[1].y as real, scr[2].y as real, x0, y0, x1, y1, x2, y2);
  }

  // ---- every other touch ----

  /** q is the integer nearest to x; of two equally near the one further from zero. */
  predicate Nearest(q: int, x: real) {
    && Abs(q as real - x) <= 0.5
    && (Abs(q as real - x) == 0.5 ==> Abs(q as real) > Abs(x))
  }

  /** q is the point nearest to the affine image of p. */
  predicate IsImage(k: Coeff, p: Point, q: Point)
    requires k.Coeff?
  {
    && Nearest(q.x, k.a * p.x as real + k.b * p.y as real + k.c)
    && Nearest(q.y, k.d * p.x as real + k.e * p.y as real + k.f)
  }

  /**
    Any touch: with valid coefficients it goes to the point nearest to its affine image, with
    invalid ones it is left alone; only infinite coefficients give no point.
   */
  lemma TransformRounds(k: Coeff, p: Point)
    ensures k.NotFinite? <==> TransformPoint(k, p).None?
    ensures k.Coeff? && !k.isValid ==> TransformPoint(k, p) == Some(p)
    ensures k.Coeff? && k.isValid ==> IsImage(k, p, TransformPoint(k, p).value)
  {
    if k.Coeff? {
      RoundIsNearest(MapX(k, p.x as real, p.y as real));
      RoundIsNearest(MapY(k, p.x as real, p.y as real));
    }
  }

  lemma RoundIsNearest(x: real)
    ensures Nearest(RoundHalfAway(x), x)
  {
  }

  /** Rounding included: transforming a calibration tap gives its crosshair. */
  lemma TapsHitCrosshairs(scr: seq<Point>, tch: seq<Point>, i: int)
    requires |scr| == 3 && |tch| == 3 && SignedArea(tch) != 0 && 0 <= i < 3
    ensures TransformPoint(ComputeCoeff(scr, tch), tch[i]) == Some(scr[i])
  {
    hide ComputeCoeff, SignedArea, RoundHalfAway, MapX, MapY;
    SolveIsExact(scr, tch);
    RoundOfInteger(scr[i].x);
    RoundOfInteger(scr[i].y);
  }

  // ---- uniqueness, determinant, barycentric coordinates ----

  /** No other affine map does what the solve does. */
  lemma SolveIsUnique(scr: seq<Point>, tch: seq<Point>, k: Coeff, m: Coeff)
    requires |scr| == 3 && |tch| == 3 && SignedArea(tch) != 0
    requires k.Coeff? && m.Coeff? && k.isValid == m.isValid
    requires Meets(k, scr, tch) && Meets(m, scr, tch)
    ensures k == m
  {
  }

  /** The determinant is the ratio of the signed areas, so crosshairs off one line make it non-zero. */
  lemma DeterminantIsAreaRatio(scr: seq<Point>, tch: seq<Point>, k: Coeff)
    requires |scr| == 3 && |tch| == 3 && k.Coeff? && Meets(k, scr, tch)
    ensures (k.a * k.e - k.b * k.d) * SignedArea(tch) as real == SignedArea(scr) as real
    ensures SignedArea(scr) != 0 ==> k.a * k.e - k.b * k.d != 0.0
  {
  }

  /** With a non-zero determinant no two touch positions share an image. */
  lemma InvertibleIsInjective(k: Coeff, x: real, y: real, u: real, v: real)
    requires k.Coeff? && k.a * k.e - k.b * k.d != 0.0
    requires MapX(k, x, y) == MapX(k, u, v) && MapY(k, x, y) == MapY(k, u, v)
    ensures x == u && y == v
  {
  }

  /** An affine function of a combination of three points is that combination of its values. */
  lemma AffineOfCombination(a: real, b: real, c: real, l: real, m: real, n: real, t0: Point, t1: Point, t2: Point,
                            s0: real, s1: real, s2: real, x: real, y: real)
    requires l + m + n == 1.0
    requires x == l * t0.x as real + m * t1.x as real + n * t2.x as real
    requires y == l * t0.y as real + m * t1.y as real + n * t2.y as real
    requires Affine(a, b, c, t0.x as real, t0.y as real) == s0
    requires Affine(a, b, c, t1.x as real, t1.y as real) == s1
    requires Affine(a, b, c, t2.x as real, t2.y as real) == s2
    ensures Affine(a, b, c, x, y) == l * s0 + m * s1 + n * s2
  {
    assert c == l * c + m * c + n * c;
  }

  /** Before rounding every point keeps its barycentric coordinates. */
  lemma KeepsBarycentric(scr: seq<Point>, tch: seq<Point>, k: Coeff, l: real, m: real, n: real, x: real, y: real)
    requires |scr| == 3 && |tch| == 3 && k.Coeff? && Meets(k, scr, tch) && l + m + n == 1.0
    requires x == l * tch[0].x as real + m * tch[1].x as real + n * tch[2].x as real
    requires y == l * tch[0].y as real + m * tch[1].y as real + n * tch[2].y as real
    ensures MapX(k, x, y) == l * scr[0].x as real + m * scr[1].x as real + n * scr[2].x as real
    ensures MapY(k, x, y) == l * scr[0].y as real + m * scr[1].y as real + n * scr[2].y as real
  {
    hide Affine;
    AffineOfCombination(k.a, k.b, k.c, l, m, n, tch[0], tch[1], tch[2],
                        scr[0].x as real, scr[1].x as real, scr[2].x as real, x, y);
    AffineOfCombination(k.d, k.e, k.f, l, m, n, tch[0], tch[1], tch[2],
                        scr[0].y as real, scr[1].y as real, scr[2].y as real, x, y);
  }
}
