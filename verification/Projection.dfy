/** Bed coordinates to screen pixels: affine remap, two rotations, perspective. */
module Projection {
  import opened Numbers

  const GRADIENT_BAND_TOTAL_WIDTH := 85
  const Z_ORIGIN_VERTICAL_POSITION := 0.4

  /** Cosine and sine of an angle. */
  datatype Turn = Turn(c: real, s: real) {
    predicate Unit() {
      c * c + s * s == 1.0
    }
  }

  datatype Vec = Vec(x: real, y: real, z: real)

  function Norm2(p: Vec): real {
    p.x * p.x + p.y * p.y + p.z * p.z
  }

  /** Everything project_3d_to_2d reads from the panel. */
  datatype View = View(
    scaleX: real, offsetX: real, scaleY: real, offsetY: real,
    zScale: real, zTurn: Turn, xTurn: Turn, camera: real, fov: real)

  datatype Point3D = Point3D(x: real, y: real, z: real, screenX: int, screenY: int, depth: real)

  /** The affine remap of an index-space point onto the bed, with the display height scale. */
  function World(v: View, p: Vec): Vec {
    Vec(v.scaleX * p.x + v.offsetX, v.scaleY * p.y + v.offsetY, p.z * v.zScale)
  }

  function TurnZ(t: Turn, p: Vec): Vec {
    Vec(p.x * t.c - p.y * t.s, p.x * t.s + p.y * t.c, p.z)
  }

  function TurnX(t: Turn, p: Vec): Vec {
    Vec(p.x, p.y * t.c + p.z * t.s, p.y * t.s - p.z * t.c)
  }

  /** Camera space before the camera is moved back. */
  function Rotated(v: View, p: Vec): Vec {
    TurnX(v.xTurn, TurnZ(v.zTurn, World(v, p)))
  }

  function Depth(v: View, p: Vec): real {
    Rotated(v, p).z + v.camera
  }

  /** Screen offset from the projection origin, before truncation. */
  function Perspective(v: View, p: Vec): (real, real)
    requires Depth(v, p) != 0.0
  {
    var r := Rotated(v, p);
    (r.x * v.fov / Depth(v, p), r.y * v.fov / Depth(v, p))
  }

  function Project(v: View, p: Vec, canvasWidth: int, canvasHeight: int): Point3D
    requires Depth(v, p) != 0.0
  {
    var r := Rotated(v, p);
    var (px, py) := Perspective(v, p);
    var screenX := GRADIENT_BAND_TOTAL_WIDTH + TruncDiv(canvasWidth - GRADIENT_BAND_TOTAL_WIDTH, 2) + Trunc(px);
    var screenY := Trunc(canvasHeight as real * Z_ORIGIN_VERTICAL_POSITION + Trunc(py) as real);
    Point3D(r.x, r.y, Depth(v, p), screenX, screenY, Depth(v, p))
  }

  // ---- the rotations are isometries ----

  /** Before the perspective division the view only turns the mapped point. */
  lemma RotationIsIsometry(v: View, p: Vec)
    requires v.zTurn.Unit() && v.xTurn.Unit()
    ensures Norm2(Rotated(v, p)) == Norm2(World(v, p))
  {
  }

  lemma SquareBelow(z: real, m: real, c: real)
    requires c > 0.0 && z * z <= m && m < c * c
    ensures -c < z < c
  {
  }

  /** A mapped point nearer to the origin than the camera is in front of the camera. */
  lemma NearPointsAreInFront(v: View, p: Vec)
    requires v.zTurn.Unit() && v.xTurn.Unit() && v.camera > 0.0
    requires Norm2(World(v, p)) < v.camera * v.camera
    ensures 0.0 < Depth(v, p) < 2.0 * v.camera
  {
    RotationIsIsometry(v, p);
    var r := Rotated(v, p);
    SumOfSquares(r);
    SquareBelow(r.z, Norm2(r), v.camera);
  }

  lemma SumOfSquares(r: Vec)
    ensures r.z * r.z <= Norm2(r)
  {
  }

  // ---- which points can end up behind the camera ----

  /** How far the turn about the vertical axis brings the point towards the viewer. */
  function Swing(w: Vec, t: Turn): real {
    w.x * t.s + w.y * t.c
  }

  lemma SwingBounded(w: Vec, t: Turn, rho: real)
    requires t.Unit() && rho >= 0.0 && rho * rho == w.x * w.x + w.y * w.y
    ensures -rho <= Swing(w, t) <= rho
  {
    var a, b := Swing(w, t), w.x * t.c - w.y * t.s;
    assert a * a + b * b == rho * rho;
    SquareAtMost(a, b, rho);
  }

  lemma SquareAtMost(a: real, b: real, m: real)
    requires m >= 0.0 && a * a + b * b == m * m
    ensures -m <= a <= m
  {
    if a > m {
      ProductGrows(a, m);
    } else if -a > m {
      ProductGrows(-a, m);
    }
  }

  lemma ProductGrows(a: real, m: real)
    requires a > m >= 0.0
    ensures a * a > m * m
  {
    assert a * a - m * m == (a - m) * (a + m);
    PositiveProduct(a - m, a + m);
  }

  /** Some turn brings the point all the way to the front. */
  lemma SwingReached(w: Vec, rho: real) returns (t: Turn)
    requires rho >= 0.0 && rho * rho == w.x * w.x + w.y * w.y
    ensures t.Unit() && Swing(w, t) == rho && (w.x >= 0.0 ==> t.s >= 0.0)
  {
    if rho == 0.0 {
      t := Turn(1.0, 0.0);
      SquareAtMost(w.y, w.x, rho);
    } else {
      t := Turn(w.y / rho, w.x / rho);
      UnitByRadius(w.x, w.y, t, rho);
    }
  }

  lemma UnitByRadius(x: real, y: real, t: Turn, rho: real)
    requires rho > 0.0 && t.s * rho == x && t.c * rho == y && rho * rho == x * x + y * y
    ensures t.Unit() && x * t.s + y * t.c == rho && (x >= 0.0 ==> t.s >= 0.0)
  {
    hide Times, Turn.Unit;
    var a, b, q := Times(t.c, t.c), Times(t.s, t.s), Times(rho, rho);
    ScaledSquare(t.c, rho, y);
    ScaledSquare(t.s, rho, x);
    PositiveProduct(rho, rho);
    SharesOfWhole(a, b, q);
    UnitSquares(t);
    SharesOfWhole(a, b, rho);
    if t.s < 0.0 {
      PositiveProduct(-t.s, rho);
    }
  }

  lemma UnitSquares(t: Turn)
    ensures t.Unit() <==> Times(t.c, t.c) + Times(t.s, t.s) == 1.0
  {
  }

  lemma ScaledSquare(a: real, rho: real, x: real)
    requires a * rho == x
    ensures Times(Times(a, a), Times(rho, rho)) == x * x
    ensures Times(Times(a, a), rho) == x * a
  {
  }

  /** Two shares of q add up to q exactly when their factors add up to one. */
  lemma SharesOfWhole(a: real, b: real, q: real)
    requires q > 0.0
    ensures Times(a, q) + Times(b, q) == q <==> a + b == 1.0
  {
    assert Times(a, q) + Times(b, q) - q == (a + b - 1.0) * q;
  }

  lemma DepthBySwing(v: View, p: Vec, t: Turn, u: Turn)
    ensures Depth(v.(zTurn := t, xTurn := u), p)
            == Swing(World(v, p), t) * u.s - World(v, p).z * u.c + v.camera
  {
  }

  /** Over the bed centre only the tilt matters. */
  lemma DepthOverCenter(v: View, p: Vec)
    requires World(v, p).x == 0.0 && World(v, p).y == 0.0
    ensures Depth(v, p) == v.camera - World(v, p).z * v.xTurn.c
  {
    hide World;
  }

  /** A product of a bounded factor. */
  lemma ScaledWithin(a: real, rho: real, s: real)
    requires -rho <= a <= rho
    ensures a * s >= -(rho * Abs(s))
  {
    ProductSign(rho - a, Abs(s));
    ProductSign(rho + a, Abs(s));
    assert (rho - a) * Abs(s) == rho * Abs(s) - a * Abs(s);
    assert (rho + a) * Abs(s) == rho * Abs(s) + a * Abs(s);
  }

  /**
    At one tilt: a point at distance rho from the vertical axis through the bed centre is in
    front of the camera however the view is turned if and only if
    rho * |sin| + height * cos of the tilt is less than the camera distance.
   */
  lemma FrontAtTilt(v: View, p: Vec, u: Turn, rho: real)
    requires rho >= 0.0 && var w := World(v, p); rho * rho == w.x * w.x + w.y * w.y
    ensures (forall t: Turn :: t.Unit() ==> Depth(v.(zTurn := t, xTurn := u), p) > 0.0)
            <==> rho * Abs(u.s) + World(v, p).z * u.c < v.camera
  {
    hide Depth, World, Swing, Turn.Unit;
    var w := World(v, p);
    if rho * Abs(u.s) + w.z * u.c < v.camera {
      forall t: Turn | t.Unit() ensures Depth(v.(zTurn := t, xTurn := u), p) > 0.0 {
        DepthBySwing(v, p, t, u);
        SwingBounded(w, t, rho);
        ScaledWithin(Swing(w, t), rho, u.s);
      }
    } else {
      var t := SwingReached(if u.s < 0.0 then w else Vec(-w.x, -w.y, w.z), rho);
      DepthBySwing(v, p, t, u);
      SwingOfOpposite(w, t);
      SignedProduct(rho, u.s);
      assert !(Depth(v.(zTurn := t, xTurn := u), p) > 0.0);
    }
  }

  lemma SwingOfOpposite(w: Vec, t: Turn)
    ensures Swing(Vec(-w.x, -w.y, w.z), t) == -Swing(w, t)
  {
  }

  lemma SignedProduct(rho: real, s: real)
    ensures (if s < 0.0 then rho else -rho) * s == -(rho * Abs(s))
  {
  }

  /**
    At any tilt and turn: a point at distance r from the bed centre is always in front of the
    camera if and only if r is less than the camera distance.
   */
  lemma FrontAtEveryView(v: View, p: Vec, rho: real, r: real)
    requires rho >= 0.0 && var w := World(v, p); rho * rho == w.x * w.x + w.y * w.y
    requires r >= 0.0 && r * r == rho * rho + World(v, p).z * World(v, p).z
    ensures (forall u: Turn, t: Turn :: u.Unit() && t.Unit() ==> Depth(v.(zTurn := t, xTurn := u), p) > 0.0)
            <==> r < v.camera
  {
    hide Depth, World, Turn.Unit;
    var z := World(v, p).z;
    if r < v.camera {
      forall u: Turn, t: Turn | u.Unit() && t.Unit() ensures Depth(v.(zTurn := t, xTurn := u), p) > 0.0 {
        UnitWithAbs(u);
        SwingBounded(Vec(rho, z, 0.0), Turn(u.c, Abs(u.s)), r);
        FrontAtTilt(v, p, u, rho);
      }
    } else {
      var u := SwingReached(Vec(rho, z, 0.0), r);
      FrontAtTilt(v, p, u, rho);
    }
  }

  lemma UnitWithAbs(u: Turn)
    requires u.Unit()
    ensures Turn(u.c, Abs(u.s)).Unit()
  {
  }

  // ---- the perspective is linear in the field of view ----

  /** Scaling the field of view scales every screen offset and moves nothing in depth. */
  lemma PerspectiveIsLinear(v: View, p: Vec, k: real)
    requires Depth(v, p) != 0.0
    ensures Depth(v.(fov := v.fov * k), p) == Depth(v, p)
    ensures Perspective(v.(fov := v.fov * k), p).0 == k * Perspective(v, p).0
    ensures Perspective(v.(fov := v.fov * k), p).1 == k * Perspective(v, p).1
  {
  }

  // ---- the error of the measured screen position ----

  /** The origin of the projection as the fit computes it, without truncation. */
  function BaseX(canvasWidth: int): real {
    GRADIENT_BAND_TOTAL_WIDTH as real + (canvasWidth - GRADIENT_BAND_TOTAL_WIDTH) as real / 2.0
  }

  function BaseY(canvasHeight: int): real {
    canvasHeight as real * Z_ORIGIN_VERTICAL_POSITION
  }

  /** A measured offset differs from the exact one by less than two pixels. */
  lemma MeasuredOffsetError(v: View, p: Vec, canvasWidth: int, canvasHeight: int)
    requires Depth(v, p) != 0.0
    ensures var q := Project(v, p, canvasWidth, canvasHeight);
            && Abs(q.screenX as real - BaseX(canvasWidth) - Perspective(v, p).0) < 1.5
            && Abs(q.screenY as real - BaseY(canvasHeight) - Perspective(v, p).1) < 2.0
  {
  }
}
