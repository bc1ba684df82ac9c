/** Which way the view turns, and which way a point moves on the screen. */
module ViewLaws {
  import opened Numbers
  import opened Projection

  // ---- the turns are the turns they should be ----

  /** The turn by the sum of two angles. */
  function Plus(t: Turn, u: Turn): Turn {
    Turn(t.c * u.c - t.s * u.s, t.s * u.c + t.c * u.s)
  }

  /** About the vertical axis: nothing at angle 0, x goes to y at 90 degrees, and angles add up. */
  lemma TurnsAboutZAdd(t: Turn, u: Turn, p: Vec)
    ensures TurnZ(Turn(1.0, 0.0), p) == p
    ensures TurnZ(Turn(0.0, 1.0), Vec(1.0, 0.0, 0.0)) == Vec(0.0, 1.0, 0.0)
    ensures TurnZ(u, TurnZ(t, p)) == TurnZ(Plus(t, u), p)
  {
    assert (p.x * t.c - p.y * t.s) * u.c - (p.x * t.s + p.y * t.c) * u.s
           == p.x * (t.c * u.c - t.s * u.s) - p.y * (t.s * u.c + t.c * u.s);
    assert (p.x * t.c - p.y * t.s) * u.s + (p.x * t.s + p.y * t.c) * u.c
           == p.x * (t.s * u.c + t.c * u.s) + p.y * (t.c * u.c - t.s * u.s);
  }

  /**
    The tilt: depth grows downwards, so at angle 0 only the height is negated; at 90 degrees y
    becomes depth and height becomes y; and angles add up once that sign is put back.
   */
  lemma TiltsAdd(t: Turn, u: Turn, p: Vec)
    ensures TurnX(Turn(1.0, 0.0), p) == Vec(p.x, p.y, -p.z)
    ensures TurnX(Turn(0.0, 1.0), Vec(0.0, 1.0, 0.0)) == Vec(0.0, 0.0, 1.0)
    ensures TurnX(Turn(0.0, 1.0), Vec(0.0, 0.0, 1.0)) == Vec(0.0, 1.0, 0.0)
    ensures var q := TurnX(t, p); TurnX(u, Vec(q.x, q.y, -q.z)) == TurnX(Plus(t, u), p)
  {
    assert (p.y * t.c + p.z * t.s) * u.c - (p.y * t.s - p.z * t.c) * u.s
           == p.y * (t.c * u.c - t.s * u.s) + p.z * (t.s * u.c + t.c * u.s);
    assert (p.y * t.c + p.z * t.s) * u.s + (p.y * t.s - p.z * t.c) * u.c
           == p.y * (t.s * u.c + t.c * u.s) - p.z * (t.c * u.c - t.s * u.s);
  }

  // ---- the screen ----

  /** The view is not turned about the vertical axis, and both points are in front of the camera. */
  predicate Facing(v: View, p: Vec, q: Vec) {
    v.zTurn == Turn(1.0, 0.0) && v.xTurn.Unit() && v.fov > 0.0 && Depth(v, p) > 0.0 && Depth(v, q) > 0.0
  }

  /** Further to the right on the bed is further to the right on the screen. */
  lemma RightIsRight(v: View, p: Vec, q: Vec)
    requires Facing(v, p, q) && Depth(v, p) == Depth(v, q)
    ensures World(v, p).x < World(v, q).x <==> Perspective(v, p).0 < Perspective(v, q).0
  {
  }

  /**
    Of two points over the same line across the bed and at the same height, the one with the
    larger y is lower on the screen if and only if they are less high than the camera distance
    times the cosine of the tilt.
   */
  lemma LargerYIsLower(v: View, p: Vec, q: Vec)
    requires Facing(v, p, q) && World(v, p).z == World(v, q).z && World(v, p).y < World(v, q).y
    ensures Perspective(v, p).1 < Perspective(v, q).1 <==> World(v, p).z < v.camera * v.xTurn.c
  {
  }

  /**
    Of two points over the same line across the bed, the higher one is higher on the screen
    if and only if the line lies in front of the camera's foot: y < camera * -sin of the tilt.
   */
  lemma HigherIsHigher(v: View, p: Vec, q: Vec)
    requires Facing(v, p, q) && World(v, p).y == World(v, q).y && World(v, p).z < World(v, q).z
    ensures Perspective(v, q).1 < Perspective(v, p).1 <==> World(v, p).y < v.camera * -v.xTurn.s
  {
  }

  /** The bed centre is drawn in the middle of the canvas right of the band, two fifths down. */
  lemma OriginOnScreen(v: View, p: Vec, width: int, height: int)
    requires World(v, p) == Vec(0.0, 0.0, 0.0) && v.camera > 0.0 && width >= 85 && height >= 0
    ensures Depth(v, p) != 0.0
    ensures Project(v, p, width, height).screenX == 85 + (width - 85) / 2
    ensures Project(v, p, width, height).screenY == 2 * height / 5
  {
    assert Rotated(v, p) == Vec(0.0, 0.0, 0.0);
  }

  /** i is x without its fraction: between 0 and x, and less than one away. */
  predicate Truncates(i: int, x: real) {
    && (x >= 0.0 ==> 0 <= i && i as real <= x < i as real + 1.0)
    && (x <= 0.0 ==> i <= 0 && i as real - 1.0 < x <= i as real)
  }

  /** From there the projected offset counts, truncated toward the centre in all four directions. */
  lemma OffsetsTruncate(v: View, p: Vec, width: int, height: int)
    requires Depth(v, p) != 0.0 && width >= 85 && height >= 0 && height % 5 == 0
    ensures Truncates(Project(v, p, width, height).screenX - 85 - (width - 85) / 2, Perspective(v, p).0)
    ensures Truncates(Project(v, p, width, height).screenY - 2 * height / 5, Perspective(v, p).1)
  {
    hide Perspective, Rotated, Depth;
    var n := 2 * height / 5;
    assert height as real * 0.4 == n as real;
    WholeTruncates(n + Trunc(Perspective(v, p).1));
  }

  lemma WholeTruncates(i: int)
    ensures Trunc(i as real) == i
  {
  }
}
