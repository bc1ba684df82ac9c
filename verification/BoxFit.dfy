/** Why it is enough to measure the corners: what is projected inside at them is inside between them. */
module BoxFit {
  import opened Mixes
  import opened Numbers
  import opened Projection
  import opened FovFit

  /** A box in pre-transform coordinates. */
  datatype Box = Box(x0: real, x1: real, y0: real, y1: real, z0: real, z1: real) {
    predicate Contains(p: Vec) {
      x0 <= p.x <= x1 && y0 <= p.y <= y1 && z0 <= p.z <= z1
    }

    /** The corners in the order in which the fit visits them. */
    function Corners(): (corners: seq<Vec>)
      ensures |corners| == 8
    {
      [Vec(x0, y0, z0), Vec(x0, y0, z1), Vec(x0, y1, z0), Vec(x0, y1, z1),
       Vec(x1, y0, z0), Vec(x1, y0, z1), Vec(x1, y1, z0), Vec(x1, y1, z1)]
    }
  }

  /** u of the way from p to q. */
  function Towards(p: Vec, q: Vec, u: real): Vec {
    Vec(MixOne(p.x, q.x, u), MixOne(p.y, q.y, u), MixOne(p.z, q.z, u))
  }

  // ---- the camera transform keeps straight lines ----

  lemma WorldTowards(v: View, p: Vec, q: Vec, u: real)
    ensures World(v, Towards(p, q, u)) == Towards(World(v, p), World(v, q), u)
  {
    hide MixOne;
    var a, b := World(v, p), World(v, q);
    MixLinear(p.x, q.x, 0.0, 0.0, v.scaleX, 0.0, v.offsetX, a.x, b.x, u);
    MixLinear(p.y, q.y, 0.0, 0.0, v.scaleY, 0.0, v.offsetY, a.y, b.y, u);
    MixLinear(p.z, q.z, 0.0, 0.0, v.zScale, 0.0, 0.0, a.z, b.z, u);
  }

  lemma TurnZTowards(t: Turn, p: Vec, q: Vec, u: real)
    ensures TurnZ(t, Towards(p, q, u)) == Towards(TurnZ(t, p), TurnZ(t, q), u)
  {
    hide MixOne;
    var a, b := TurnZ(t, p), TurnZ(t, q);
    MixLinear(p.x, q.x, p.y, q.y, t.c, -t.s, 0.0, a.x, b.x, u);
    MixLinear(p.x, q.x, p.y, q.y, t.s, t.c, 0.0, a.y, b.y, u);
  }

  lemma TurnXTowards(t: Turn, p: Vec, q: Vec, u: real)
    ensures TurnX(t, Towards(p, q, u)) == Towards(TurnX(t, p), TurnX(t, q), u)
  {
    hide MixOne;
    var a, b := TurnX(t, p), TurnX(t, q);
    MixLinear(p.y, q.y, p.z, q.z, t.c, t.s, 0.0, a.y, b.y, u);
    MixLinear(p.y, q.y, p.z, q.z, t.s, -t.c, 0.0, a.z, b.z, u);
  }

  lemma RotatedTowards(v: View, p: Vec, q: Vec, u: real)
    ensures Rotated(v, Towards(p, q, u)) == Towards(Rotated(v, p), Rotated(v, q), u)
  {
    hide Towards, World, TurnZ, TurnX;
    WorldTowards(v, p, q, u);
    TurnZTowards(v.zTurn, World(v, p), World(v, q), u);
    TurnXTowards(v.xTurn, TurnZ(v.zTurn, World(v, p)), TurnZ(v.zTurn, World(v, q)), u);
  }

  // ---- inside the widened padded box, without a division ----

  /** How far the projected coordinate a * fov / d is above the bound c, times the depth. */
  function Above(a: real, fov: real, d: real, c: real): real {
    fov * a - c * d
  }

  /** In front of the camera, and inside the padded box widened by margin. */
  predicate InSight(v: View, p: Vec, margin: real, width: int, height: int) {
    var r, d := Rotated(v, p), Depth(v, p);
    && d > 0.0
    && Above(r.x, v.fov, d, LowX(width) - margin) > 0.0 && Above(r.x, v.fov, d, HighX(width) + margin) < 0.0
    && Above(r.y, v.fov, d, LowY(height) - margin) > 0.0 && Above(r.y, v.fov, d, HighY(height) + margin) < 0.0
  }

  /** In front of the camera, and projected at most margin pixels outside the padded canvas. */
  predicate ShownNear(v: View, p: Vec, margin: real, width: int, height: int) {
    Depth(v, p) > 0.0 && NearlyInside(v, p, margin, width, height)
  }

  lemma AboveIsQuotient(a: real, fov: real, d: real, c: real)
    requires d > 0.0
    ensures Above(a, fov, d, c) > 0.0 <==> a * fov / d > c
    ensures Above(a, fov, d, c) < 0.0 <==> a * fov / d < c
  {
    var x := a * fov / d;
    assert x * d == a * fov;
    assert Above(a, fov, d, c) == (x - c) * d;
  }

  lemma InSightIsNearlyInside(v: View, p: Vec, margin: real, width: int, height: int)
    requires Depth(v, p) > 0.0
    ensures InSight(v, p, margin, width, height) <==> NearlyInside(v, p, margin, width, height)
  {
    hide Above, LowX, HighX, LowY, HighY, Rotated, Depth;
    var r, d := Rotated(v, p), Depth(v, p);
    AboveIsQuotient(r.x, v.fov, d, LowX(width) - margin);
    AboveIsQuotient(r.x, v.fov, d, HighX(width) + margin);
    AboveIsQuotient(r.y, v.fov, d, LowY(height) - margin);
    AboveIsQuotient(r.y, v.fov, d, HighY(height) + margin);
  }

  lemma AboveMixes(a: real, b: real, fov: real, d: real, e: real, c: real, u: real)
    requires 0.0 <= u <= 1.0
    ensures var m := Above(MixOne(a, b, u), fov, MixOne(d, e, u), c);
            && (Above(a, fov, d, c) > 0.0 && Above(b, fov, e, c) > 0.0 ==> m > 0.0)
            && (Above(a, fov, d, c) < 0.0 && Above(b, fov, e, c) < 0.0 ==> m < 0.0)
  {
    hide MixOne;
    var x, y := Above(a, fov, d, c), Above(b, fov, e, c);
    MixLinear(a, b, d, e, fov, -c, 0.0, x, y, u);
    MixLinear(a, b, d, e, -fov, c, 0.0, -x, -y, u);
    if x > 0.0 && y > 0.0 {
      MixPositive(x, y, u);
    }
    if x < 0.0 && y < 0.0 {
      MixPositive(-x, -y, u);
    }
  }

  /** Whatever two points in sight have between them is in sight. */
  lemma SegmentInSight(v: View, p: Vec, q: Vec, u: real, margin: real, width: int, height: int)
    requires 0.0 <= u <= 1.0 && InSight(v, p, margin, width, height) && InSight(v, q, margin, width, height)
    ensures InSight(v, Towards(p, q, u), margin, width, height)
  {
    hide Above, LowX, HighX, LowY, HighY, Rotated, MixOne;
    var r, s := Rotated(v, p), Rotated(v, q);
    var d, e := Depth(v, p), Depth(v, q);
    RotatedTowards(v, p, q, u);
    DepthMixes(r.z, s.z, v.camera, u);
    MixPositive(d, e, u);
    AboveMixes(r.x, s.x, v.fov, d, e, LowX(width) - margin, u);
    AboveMixes(r.x, s.x, v.fov, d, e, HighX(width) + margin, u);
    AboveMixes(r.y, s.y, v.fov, d, e, LowY(height) - margin, u);
    AboveMixes(r.y, s.y, v.fov, d, e, HighY(height) + margin, u);
  }

  lemma DepthMixes(a: real, b: real, camera: real, u: real)
    ensures MixOne(a, b, u) + camera == MixOne(a + camera, b + camera, u)
  {
  }

  // ---- the whole box ----

  /** A point on the line from p to q, when the two differ in one coordinate only. */
  lemma EdgeInSight(v: View, p: Vec, q: Vec, r: Vec, margin: real, width: int, height: int)
    requires InSight(v, p, margin, width, height) && InSight(v, q, margin, width, height)
    requires || (p.x <= r.x <= q.x && p.y == r.y == q.y && p.z == r.z == q.z)
             || (p.x == r.x == q.x && p.y <= r.y <= q.y && p.z == r.z == q.z)
             || (p.x == r.x == q.x && p.y == r.y == q.y && p.z <= r.z <= q.z)
    ensures InSight(v, r, margin, width, height)
  {
    hide InSight, MixOne;
    var u := 0.0;
    if p.x != q.x {
      u := MixReaches(p.x, q.x, r.x);
    } else if p.y != q.y {
      u := MixReaches(p.y, q.y, r.y);
    } else {
      u := MixReaches(p.z, q.z, r.z);
    }
    MixSame(r.x, u);
    MixSame(r.y, u);
    MixSame(r.z, u);
    assert Towards(p, q, u) == r;
    SegmentInSight(v, p, q, u, margin, width, height);
  }

  /** A box whose corners are in sight is in sight. */
  lemma BoxInSight(v: View, b: Box, p: Vec, margin: real, width: int, height: int)
    requires forall i :: 0 <= i < 8 ==> InSight(v, b.Corners()[i], margin, width, height)
    requires b.Contains(p)
    ensures InSight(v, p, margin, width, height)
  {
    hide InSight;
    var c := b.Corners();
    EdgeInSight(v, c[0], c[1], Vec(b.x0, b.y0, p.z), margin, width, height);
    EdgeInSight(v, c[2], c[3], Vec(b.x0, b.y1, p.z), margin, width, height);
    EdgeInSight(v, c[4], c[5], Vec(b.x1, b.y0, p.z), margin, width, height);
    EdgeInSight(v, c[6], c[7], Vec(b.x1, b.y1, p.z), margin, width, height);
    EdgeInSight(v, Vec(b.x0, b.y0, p.z), Vec(b.x0, b.y1, p.z), Vec(b.x0, p.y, p.z), margin, width, height);
    EdgeInSight(v, Vec(b.x1, b.y0, p.z), Vec(b.x1, b.y1, p.z), Vec(b.x1, p.y, p.z), margin, width, height);
    EdgeInSight(v, Vec(b.x0, p.y, p.z), Vec(b.x1, p.y, p.z), p, margin, width, height);
  }

  /**
    The purpose of the fit: when the corners of the box are in front of the camera and the
    best zoom k is at least 0.2, every point of the box is projected less than 2k pixels
    outside the padded canvas once the field of view is rescaled by k.
   */
  lemma RefinedViewShowsBox(v: View, b: Box, k: real, p: Vec, width: int, height: int)
    requires width >= 95 && height >= 1 && b.Contains(p)
    requires forall i :: 0 <= i < 8 ==> Depth(v, b.Corners()[i]) > 0.0
    requires BestFit(k, Measured(v, b.Corners(), width, height), width, height) && k >= MIN_FIT
    ensures ShownNear(v.(fov := v.fov * k), p, k * 2.0, width, height)
  {
    hide Depth, NearlyInside, BestFit, InSight, Measured, Box.Corners;
    var w := v.(fov := v.fov * k);
    forall i | 0 <= i < 8 ensures InSight(w, b.Corners()[i], k * 2.0, width, height) {
      RefinedViewNearlyFits(v, b.Corners(), k, width, height, i);
      assert v.(fov := v.fov * Guard(k)) == w;
      DepthWithoutFov(v, b.Corners()[i], v.fov * k);
      InSightIsNearlyInside(w, b.Corners()[i], k * 2.0, width, height);
    }
    BoxInSight(w, b, p, k * 2.0, width, height);
    InSightHasDepth(w, p, k * 2.0, width, height);
    InSightIsNearlyInside(w, p, k * 2.0, width, height);
  }

  lemma DepthWithoutFov(v: View, p: Vec, fov: real)
    ensures Depth(v.(fov := fov), p) == Depth(v, p)
  {
  }

  lemma InSightHasDepth(v: View, p: Vec, margin: real, width: int, height: int)
    requires InSight(v, p, margin, width, height)
    ensures Depth(v, p) > 0.0
  {
  }
}
