/** The surface of the bed mesh as projected quads, and why neighbouring quads leave no cracks. */
module MeshQuads {
  import opened Numbers
  import opened Points
  import opened Canvases
  import opened Triangles
  import opened Projection
  import opened BedMap

  const DEFAULT_Z_SCALE := 60.0
  const DEFAULT_Z_TARGET_HEIGHT := 80.0
  const DEFAULT_Z_MIN_SCALE := 35.0
  const DEFAULT_Z_MAX_SCALE := 120.0
  const CULLING_MARGIN := 50

  /** Probed heights by row and column. */
  type Mesh = seq<seq<real>>

  predicate Rectangular(mesh: Mesh, rows: int, cols: int) {
    |mesh| == rows && forall r :: 0 <= r < rows ==> |mesh[r]| == cols
  }

  datatype Vertex3D = Vertex3D(at: Vec, color: Color)

  /** Corners in source order: (row, col), (row, col+1), (row+1, col), (row+1, col+1). */
  datatype Quad3D = Quad3D(v0: Vertex3D, v1: Vertex3D, v2: Vertex3D, v3: Vertex3D, centerColor: Color)

  function HeightScale(minZ: real, maxZ: real): (s: real)
    ensures DEFAULT_Z_MIN_SCALE <= s <= DEFAULT_Z_MAX_SCALE
  {
    if maxZ - minZ > 0.001
    then RealMax(DEFAULT_Z_MIN_SCALE, RealMin(DEFAULT_Z_MAX_SCALE, DEFAULT_Z_TARGET_HEIGHT / (maxZ - minZ)))
    else DEFAULT_Z_SCALE
  }

  /**
    How high the surface of a mesh of this range is drawn: flat meshes by 60, others 80 units
    high unless that would scale them by more than 120 or less than 35.
   */
  lemma SurfaceHeight(minZ: real, maxZ: real)
    requires minZ <= maxZ
    ensures var range := maxZ - minZ;
            range * HeightScale(minZ, maxZ)
            == if range <= 0.001 then 60.0 * range
               else if range < 2.0 / 3.0 then 120.0 * range
               else if range <= 16.0 / 7.0 then 80.0 else 35.0 * range
  {
    var range := maxZ - minZ;
    if range > 0.001 {
      HeightQuotient(range);
    }
  }

  lemma HeightQuotient(range: real)
    requires range > 0.0
    ensures range * (80.0 / range) == 80.0
    ensures 80.0 / range > 120.0 <==> range < 2.0 / 3.0
    ensures 80.0 / range < 35.0 <==> range > 16.0 / 7.0
  {
    var q := 80.0 / range;
    assert q * range == 80.0;
  }

  /** The mesh point of a row and column in index space; rows are mirrored in y. */
  function GridPoint(mesh: Mesh, row: int, col: int, rows: int, cols: int, minZ: real, maxZ: real): Vec
    requires Rectangular(mesh, rows, cols) && 0 <= row < rows && 0 <= col < cols
  {
    Vec(IndexCoord(col, cols), IndexCoord(rows - 1 - row, rows),
        (mesh[row][col] - (minZ + maxZ) / 2.0) * HeightScale(minZ, maxZ))
  }

  /** Columns run to the right and rows to the back, 50 units apart; heights count from mid-range. */
  lemma GridSteps(mesh: Mesh, row: int, col: int, rows: int, cols: int, minZ: real, maxZ: real)
    requires Rectangular(mesh, rows, cols) && 0 <= row < rows && 0 <= col < cols
    ensures var p, scale := GridPoint(mesh, row, col, rows, cols, minZ, maxZ), HeightScale(minZ, maxZ);
            && p.x == 50.0 * col as real - 25.0 * cols as real
            && p.y == 50.0 * (rows - 1 - row) as real - 25.0 * rows as real
            && p.z * 2.0 == (mesh[row][col] - minZ) * scale - (maxZ - mesh[row][col]) * scale
  {
    hide HeightScale;
  }

  /** The quad's corners are the four grid points of the cell. */
  predicate IsCell(q: Quad3D, mesh: Mesh, row: int, col: int, rows: int, cols: int, minZ: real, maxZ: real)
    requires Rectangular(mesh, rows, cols) && 0 <= row < rows - 1 && 0 <= col < cols - 1
  {
    && q.v0.at == GridPoint(mesh, row, col, rows, cols, minZ, maxZ)
    && q.v1.at == GridPoint(mesh, row, col + 1, rows, cols, minZ, maxZ)
    && q.v2.at == GridPoint(mesh, row + 1, col, rows, cols, minZ, maxZ)
    && q.v3.at == GridPoint(mesh, row + 1, col + 1, rows, cols, minZ, maxZ)
  }

  // ---- the quads of a mesh, row by row ----

  function CellIndex(row: int, col: int, cols: int): int {
    row * (cols - 1) + col
  }

  predicate HasCell(quads: seq<Quad3D>, row: int, col: int, cols: int) {
    0 <= CellIndex(row, col, cols) < |quads|
  }

  function CellOf(quads: seq<Quad3D>, row: int, col: int, cols: int): Quad3D
    requires HasCell(quads, row, col, cols)
  {
    quads[CellIndex(row, col, cols)]
  }

  predicate CellColors(q: Quad3D, mesh: Mesh, row: int, col: int, shade: real -> Color)
    requires 0 <= row && row + 1 < |mesh| && 0 <= col && col + 1 < |mesh[row]| && col + 1 < |mesh[row + 1]|
  {
    && q.v0.color == shade(mesh[row][col]) && q.v1.color == shade(mesh[row][col + 1])
    && q.v2.color == shade(mesh[row + 1][col]) && q.v3.color == shade(mesh[row + 1][col + 1])
    && q.centerColor
       == shade((mesh[row][col] + mesh[row][col + 1] + mesh[row + 1][col] + mesh[row + 1][col + 1]) / 4.0)
  }

  /** So with h the mean height of the cell, drawn in one colour it has the colour of h. */
  lemma ColorOfMeanHeight(q: Quad3D, mesh: Mesh, row: int, col: int, shade: real -> Color, h: real)
    requires 0 <= row && row + 1 < |mesh| && 0 <= col && col + 1 < |mesh[row]| && col + 1 < |mesh[row + 1]|
    requires CellColors(q, mesh, row, col, shade)
    requires h * 4.0 == mesh[row][col] + mesh[row][col + 1] + mesh[row + 1][col] + mesh[row + 1][col + 1]
    ensures q.centerColor == shade(h)
  {
    assert h == h * 4.0 / 4.0;
  }

  /** The quad of a mesh cell is where row-major order puts it, with the cell's corners and colours. */
  predicate ColoredCell(quads: seq<Quad3D>, mesh: Mesh, row: int, col: int, rows: int, cols: int,
                        minZ: real, maxZ: real, shade: real -> Color)
    requires Rectangular(mesh, rows, cols) && 0 <= row < rows - 1 && 0 <= col < cols - 1
  {
    && HasCell(quads, row, col, cols)
    && IsCell(CellOf(quads, row, col, cols), mesh, row, col, rows, cols, minZ, maxZ)
    && CellColors(CellOf(quads, row, col, cols), mesh, row, col, shade)
  }

  /** The quads are the cells of the mesh, row by row. */
  predicate AreCells(quads: seq<Quad3D>, mesh: Mesh, rows: int, cols: int, minZ: real, maxZ: real, shade: real -> Color)
    requires Rectangular(mesh, rows, cols)
  {
    && (rows >= 1 && cols >= 1 ==> |quads| == (rows - 1) * (cols - 1))
    && forall r, c :: 0 <= r < rows - 1 && 0 <= c < cols - 1 ==>
                        ColoredCell(quads, mesh, r, c, rows, cols, minZ, maxZ, shade)
  }

  // ---- a quad on the screen ----

  predicate InFrontOrBehind(v: View, q: Quad3D) {
    Depth(v, q.v0.at) != 0.0 && Depth(v, q.v1.at) != 0.0 && Depth(v, q.v2.at) != 0.0 && Depth(v, q.v3.at) != 0.0
  }

  predicate Projectable(v: View, qs: seq<Quad3D>) {
    forall i :: 0 <= i < |qs| ==> InFrontOrBehind(v, qs[i])
  }

  function ScreenPoint(v: View, p: Vec, width: int, height: int): Point
    requires Depth(v, p) != 0.0
  {
    var q := Project(v, p, width, height);
    Point(q.screenX, q.screenY)
  }

  predicate NearCanvas(p: Point, width: int, height: int) {
    -CULLING_MARGIN <= p.x < width + CULLING_MARGIN && -CULLING_MARGIN <= p.y < height + CULLING_MARGIN
  }

  /** A quad is drawn when at least one projected corner is near the canvas. */
  predicate IsDrawn(v: View, q: Quad3D, width: int, height: int)
    requires InFrontOrBehind(v, q)
  {
    || NearCanvas(ScreenPoint(v, q.v0.at, width, height), width, height)
    || NearCanvas(ScreenPoint(v, q.v1.at, width, height), width, height)
    || NearCanvas(ScreenPoint(v, q.v2.at, width, height), width, height)
    || NearCanvas(ScreenPoint(v, q.v3.at, width, height), width, height)
  }

  function FirstTriangle(v: View, q: Quad3D, width: int, height: int): Triangle
    requires InFrontOrBehind(v, q)
  {
    Triangle(ScreenPoint(v, q.v0.at, width, height), ScreenPoint(v, q.v1.at, width, height),
             ScreenPoint(v, q.v2.at, width, height))
  }

  function SecondTriangle(v: View, q: Quad3D, width: int, height: int): Triangle
    requires InFrontOrBehind(v, q)
  {
    Triangle(ScreenPoint(v, q.v1.at, width, height), ScreenPoint(v, q.v2.at, width, height),
             ScreenPoint(v, q.v3.at, width, height))
  }

  /** The pixels a quad contributes. */
  function QuadPixels(v: View, q: Quad3D, width: int, height: int): set<Pixel>
    requires InFrontOrBehind(v, q)
  {
    if IsDrawn(v, q, width, height)
    then TrianglePixels(FirstTriangle(v, q, width, height), width, height)
         + TrianglePixels(SecondTriangle(v, q, width, height), width, height)
    else {}
  }

  /** The quad's corners on the screen. */
  function Corners(v: View, q: Quad3D, width: int, height: int): (ps: seq<Point>)
    requires InFrontOrBehind(v, q)
    ensures |ps| == 4
  {
    [ScreenPoint(v, q.v0.at, width, height), ScreenPoint(v, q.v1.at, width, height),
     ScreenPoint(v, q.v2.at, width, height), ScreenPoint(v, q.v3.at, width, height)]
  }

  /**
    What of a quad has to be seen: the canvas pixels that one of its two triangles covers, if
    at least one corner is on the canvas or less than 50 pixels beside it.
   */
  predicate IsSeen(v: View, q: Quad3D, width: int, height: int, p: Pixel)
    requires InFrontOrBehind(v, q)
  {
    var ps := Corners(v, q, width, height);
    && 0 <= p.0 < width && 0 <= p.1 < height
    && (Covers(Triangle(ps[0], ps[1], ps[2]), p.0, p.1) || Covers(Triangle(ps[1], ps[2], ps[3]), p.0, p.1))
    && exists i :: 0 <= i < 4 && -50 <= ps[i].x < width + 50 && -50 <= ps[i].y < height + 50
  }

  /** A quad contributes exactly that. */
  lemma QuadIsSeen(v: View, q: Quad3D, width: int, height: int, p: Pixel)
    requires InFrontOrBehind(v, q)
    ensures p in QuadPixels(v, q, width, height) <==> IsSeen(v, q, width, height, p)
  {
    hide ScreenPoint, Covers, Depth;
    var ps := Corners(v, q, width, height);
    assert IsDrawn(v, q, width, height) <==>
           NearCanvas(ps[0], width, height) || NearCanvas(ps[1], width, height)
           || NearCanvas(ps[2], width, height) || NearCanvas(ps[3], width, height);
    if i :| 0 <= i < 4 && -50 <= ps[i].x < width + 50 && -50 <= ps[i].y < height + 50 {
      assert NearCanvas(ps[i], width, height);
    }
  }

  /** Straight down on the bed, one pixel a unit. */
  const LEVEL := View(1.0, 0.0, 1.0, 0.0, 1.0, Turn(1.0, 0.0), Turn(1.0, 0.0), 450.0, 450.0)

  lemma LevelRotation(x: real, y: real)
    ensures Rotated(LEVEL, Vec(x, y, 0.0)) == Vec(x, y, 0.0) && Depth(LEVEL, Vec(x, y, 0.0)) == 450.0
  {
  }

  lemma LevelPoint(x: int, y: int)
    ensures Depth(LEVEL, Vec(x as real, y as real, 0.0)) == 450.0
    ensures ScreenPoint(LEVEL, Vec(x as real, y as real, 0.0), 800, 480) == Point(442 + x, 192 + y)
  {
    hide Rotated, Depth, Trunc;
    LevelRotation(x as real, y as real);
    assert x as real * 450.0 / 450.0 == x as real && y as real * 450.0 / 450.0 == y as real;
    TruncBounds(x as real, x);
    TruncBounds(y as real, y);
    TruncBounds((192 + y) as real, 192 + y);
    assert 480.0 * Z_ORIGIN_VERTICAL_POSITION + y as real == (192 + y) as real;
  }

  /**
    The culling is meant to skip quads that are completely off the canvas, but it also skips
    one that is so large that all its corners are far outside while it covers the canvas.
   */
  lemma CullingSkipsLargeQuads(q: Quad3D)
    requires q.v0.at == Vec(-1000.0, -1000.0, 0.0) && q.v1.at == Vec(1000.0, -1000.0, 0.0)
    requires q.v2.at == Vec(-1000.0, 1000.0, 0.0) && q.v3.at == Vec(1000.0, 1000.0, 0.0)
    ensures InFrontOrBehind(LEVEL, q) && QuadPixels(LEVEL, q, 800, 480) == {}
    ensures Covers(FirstTriangle(LEVEL, q, 800, 480), 400, 100)
  {
    hide ScreenPoint, Depth;
    LevelPoint(-1000, -1000);
    LevelPoint(1000, -1000);
    LevelPoint(-1000, 1000);
    LevelPoint(1000, 1000);
  }

  /** The pixels of all quads, in whatever order they are drawn. */
  function SurfacePixels(v: View, qs: seq<Quad3D>, width: int, height: int): set<Pixel>
    requires Projectable(v, qs)
  {
    if qs == [] then {}
    else SurfacePixels(v, qs[..|qs| - 1], width, height) + QuadPixels(v, qs[|qs| - 1], width, height)
  }

  /** Quad i is the last one that contributes pixel p. */
  predicate OnTop(v: View, qs: seq<Quad3D>, i: int, p: Pixel, width: int, height: int)
    requires Projectable(v, qs)
  {
    && 0 <= i < |qs| && p in QuadPixels(v, qs[i], width, height)
    && forall j :: i < j < |qs| ==> p !in QuadPixels(v, qs[j], width, height)
  }

  lemma {:induction false} SurfaceIsUnion(v: View, qs: seq<Quad3D>, width: int, height: int, p: Pixel)
    requires Projectable(v, qs)
    ensures p in SurfacePixels(v, qs, width, height) <==>
            exists i :: 0 <= i < |qs| && p in QuadPixels(v, qs[i], width, height)
  {
    hide QuadPixels, InFrontOrBehind;
    if qs != [] {
      var n := |qs| - 1;
      SurfaceIsUnion(v, qs[..n], width, height, p);
      assert forall i :: 0 <= i < n ==> qs[..n][i] == qs[i];
    }
  }

  lemma {:induction false} SomeOnTop(v: View, qs: seq<Quad3D>, p: Pixel, width: int, height: int) returns (i: nat)
    requires Projectable(v, qs) && p in SurfacePixels(v, qs, width, height)
    ensures OnTop(v, qs, i, p, width, height)
  {
    hide QuadPixels, InFrontOrBehind;
    var n := |qs| - 1;
    if p in QuadPixels(v, qs[n], width, height) {
      i := n;
    } else {
      i := SomeOnTop(v, qs[..n], p, width, height);
    }
  }

  /** The mean depth of a quad's corners, by which the quads are sorted. */
  function AverageDepth(v: View, q: Quad3D): real {
    (Depth(v, q.v0.at) + Depth(v, q.v1.at) + Depth(v, q.v2.at) + Depth(v, q.v3.at)) / 4.0
  }

  predicate BackToFront(v: View, qs: seq<Quad3D>) {
    forall i, j :: 0 <= i < j < |qs| ==> AverageDepth(v, qs[i]) >= AverageDepth(v, qs[j])
  }

  /** Drawn back to front, the quad a pixel ends up showing is a nearest one of those that contribute it. */
  lemma NearestOnTop(v: View, qs: seq<Quad3D>, p: Pixel, width: int, height: int) returns (i: nat)
    requires Projectable(v, qs) && BackToFront(v, qs) && p in SurfacePixels(v, qs, width, height)
    ensures OnTop(v, qs, i, p, width, height)
    ensures forall j :: 0 <= j < |qs| && p in QuadPixels(v, qs[j], width, height) ==>
                          AverageDepth(v, qs[i]) <= AverageDepth(v, qs[j])
  {
    hide QuadPixels, InFrontOrBehind, AverageDepth, SurfacePixels;
    i := SomeOnTop(v, qs, p, width, height);
  }

  lemma SameMembers(qs: seq<Quad3D>, rs: seq<Quad3D>, q: Quad3D)
    requires multiset(qs) == multiset(rs) && q in rs
    ensures exists i :: 0 <= i < |qs| && qs[i] == q
  {
    assert q in multiset(qs);
  }

  /** Sorting the quads by depth does not change which pixels the surface occupies. */
  lemma SurfaceIgnoresOrder(v: View, qs: seq<Quad3D>, rs: seq<Quad3D>, width: int, height: int)
    requires Projectable(v, qs)
    requires multiset(qs) == multiset(rs)
    ensures Projectable(v, rs)
    ensures SurfacePixels(v, qs, width, height) == SurfacePixels(v, rs, width, height)
  {
    hide QuadPixels, InFrontOrBehind, SurfacePixels;
    forall i | 0 <= i < |rs| ensures InFrontOrBehind(v, rs[i]) {
      SameMembers(qs, rs, rs[i]);
    }
    forall p: Pixel ensures p in SurfacePixels(v, qs, width, height) <==> p in SurfacePixels(v, rs, width, height) {
      SurfaceIsUnion(v, qs, width, height, p);
      SurfaceIsUnion(v, rs, width, height, p);
      if i :| 0 <= i < |qs| && p in QuadPixels(v, qs[i], width, height) {
        SameMembers(rs, qs, qs[i]);
      }
      if i :| 0 <= i < |rs| && p in QuadPixels(v, rs[i], width, height) {
        SameMembers(qs, rs, rs[i]);
      }
    }
  }

  // ---- shared borders ----

  /** The two triangles of a quad share its diagonal. */
  lemma DiagonalIsShared(v: View, q: Quad3D, width: int, height: int)
    requires InFrontOrBehind(v, q)
    ensures ShareEdge(FirstTriangle(v, q, width, height), SecondTriangle(v, q, width, height),
                      ScreenPoint(v, q.v1.at, width, height), ScreenPoint(v, q.v2.at, width, height))
  {
  }

  /** A cell and its right neighbour share a projected edge. */
  lemma RightBorderIsShared(v: View, q: Quad3D, r: Quad3D, width: int, height: int,
                            mesh: Mesh, row: int, col: int, rows: int, cols: int, minZ: real, maxZ: real)
    requires Rectangular(mesh, rows, cols) && 0 <= row < rows - 1 && 0 <= col < cols - 2
    requires IsCell(q, mesh, row, col, rows, cols, minZ, maxZ) && IsCell(r, mesh, row, col + 1, rows, cols, minZ, maxZ)
    requires InFrontOrBehind(v, q) && InFrontOrBehind(v, r)
    ensures ShareEdge(SecondTriangle(v, q, width, height), FirstTriangle(v, r, width, height),
                      ScreenPoint(v, q.v1.at, width, height), ScreenPoint(v, q.v3.at, width, height))
  {
  }

  /** A cell and the next row's cell share a projected edge. */
  lemma LowerBorderIsShared(v: View, q: Quad3D, r: Quad3D, width: int, height: int,
                            mesh: Mesh, row: int, col: int, rows: int, cols: int, minZ: real, maxZ: real)
    requires Rectangular(mesh, rows, cols) && 0 <= row < rows - 2 && 0 <= col < cols - 1
    requires IsCell(q, mesh, row, col, rows, cols, minZ, maxZ) && IsCell(r, mesh, row + 1, col, rows, cols, minZ, maxZ)
    requires InFrontOrBehind(v, q) && InFrontOrBehind(v, r)
    ensures ShareEdge(SecondTriangle(v, q, width, height), FirstTriangle(v, r, width, height),
                      ScreenPoint(v, q.v2.at, width, height), ScreenPoint(v, q.v3.at, width, height))
  {
  }

  /** A shared edge's pixel belongs to both quads, wherever the edge meets the canvas. */
  lemma SharedEdgeIsPaintedTwice(t: Triangle, u: Triangle, p: Point, q: Point, width: int, height: int, y: int)
    requires ShareEdge(t, u, p, q) && Crosses(p, q, y)
    requires 0 <= y < height && 0 <= EdgeAt(p, q, y) < width
    ensures (EdgeAt(p, q, y), y) in TrianglePixels(t, width, height)
    ensures (EdgeAt(p, q, y), y) in TrianglePixels(u, width, height)
  {
    EdgePixelIsCovered(t, p, q, y);
    EdgePixelIsCovered(u, p, q, y);
  }

  // ---- the whole surface ----

  /** One of the two triangles of the cell at (row, col). */
  datatype Facet = Facet(row: int, col: int, second: bool) {
    predicate OnMesh(rows: int, cols: int) {
      0 <= row < rows - 1 && 0 <= col < cols - 1
    }
  }

  /** The facet's quad is projectable and not culled. */
  predicate FacetIsDrawn(v: View, quads: seq<Quad3D>, f: Facet, cols: int, width: int, height: int) {
    && HasCell(quads, f.row, f.col, cols)
    && InFrontOrBehind(v, CellOf(quads, f.row, f.col, cols))
    && IsDrawn(v, CellOf(quads, f.row, f.col, cols), width, height)
  }

  function FacetTriangle(v: View, quads: seq<Quad3D>, f: Facet, cols: int, width: int, height: int): Triangle
    requires FacetIsDrawn(v, quads, f, cols, width, height)
  {
    var q := CellOf(quads, f.row, f.col, cols);
    if f.second then SecondTriangle(v, q, width, height) else FirstTriangle(v, q, width, height)
  }

  /**
    From f to g one goes over the diagonal of the cell, its right border or its lower border,
    and that edge crosses scan line y.
   */
  predicate LeadsTo(v: View, quads: seq<Quad3D>, f: Facet, g: Facet, cols: int, width: int, height: int, y: int)
    requires FacetIsDrawn(v, quads, f, cols, width, height)
  {
    var q := CellOf(quads, f.row, f.col, cols);
    var p1, p2 := ScreenPoint(v, q.v1.at, width, height), ScreenPoint(v, q.v2.at, width, height);
    var p3 := ScreenPoint(v, q.v3.at, width, height);
    || (!f.second && g == Facet(f.row, f.col, true) && Crosses(p1, p2, y))
    || (f.second && g == Facet(f.row, f.col + 1, false) && Crosses(p1, p3, y))
    || (f.second && g == Facet(f.row + 1, f.col, false) && Crosses(p2, p3, y))
  }

  predicate StepsAcross(v: View, quads: seq<Quad3D>, path: seq<Facet>, i: int,
                        cols: int, width: int, height: int, y: int)
    requires 0 <= i < |path| - 1
    requires FacetIsDrawn(v, quads, path[i], cols, width, height)
    requires FacetIsDrawn(v, quads, path[i + 1], cols, width, height)
  {
    || LeadsTo(v, quads, path[i], path[i + 1], cols, width, height, y)
    || LeadsTo(v, quads, path[i + 1], path[i], cols, width, height, y)
  }

  /** A walk over drawn facets of the mesh, each step over an edge that crosses scan line y. */
  predicate IsPath(v: View, quads: seq<Quad3D>, path: seq<Facet>,
                   rows: int, cols: int, width: int, height: int, y: int)
  {
    && (forall k :: 0 <= k < |path| ==>
          path[k].OnMesh(rows, cols) && FacetIsDrawn(v, quads, path[k], cols, width, height))
    && forall i :: 0 <= i < |path| - 1 ==> StepsAcross(v, quads, path, i, cols, width, height, y)
  }

  /** The facet covers the canvas pixel (x, y). */
  predicate FacetShows(v: View, quads: seq<Quad3D>, f: Facet, cols: int, width: int, height: int, x: int, y: int) {
    FacetIsDrawn(v, quads, f, cols, width, height)
    && (x, y) in TrianglePixels(FacetTriangle(v, quads, f, cols, width, height), width, height)
  }

  lemma StepSharesEdge(v: View, quads: seq<Quad3D>, f: Facet, g: Facet, width: int, height: int, y: int,
                       mesh: Mesh, rows: int, cols: int, minZ: real, maxZ: real, shade: real -> Color)
    requires Rectangular(mesh, rows, cols) && AreCells(quads, mesh, rows, cols, minZ, maxZ, shade)
    requires f.OnMesh(rows, cols) && g.OnMesh(rows, cols)
    requires FacetIsDrawn(v, quads, f, cols, width, height) && FacetIsDrawn(v, quads, g, cols, width, height)
    requires LeadsTo(v, quads, f, g, cols, width, height, y)
    ensures exists p, q :: Crosses(p, q, y)
              && ShareEdge(FacetTriangle(v, quads, f, cols, width, height),
                           FacetTriangle(v, quads, g, cols, width, height), p, q)
  {
    hide ScreenPoint, GridPoint, Depth, Crosses, ShareEdge, FirstTriangle, SecondTriangle, IsCell, IsDrawn, CellOf;
    hide CellColors;
    var q, r := CellOf(quads, f.row, f.col, cols), CellOf(quads, g.row, g.col, cols);
    assert ColoredCell(quads, mesh, f.row, f.col, rows, cols, minZ, maxZ, shade);
    assert ColoredCell(quads, mesh, g.row, g.col, rows, cols, minZ, maxZ, shade);
    if !f.second {
      DiagonalIsShared(v, q, width, height);
    } else if g.row == f.row {
      RightBorderIsShared(v, q, r, width, height, mesh, f.row, f.col, rows, cols, minZ, maxZ);
    } else {
      LowerBorderIsShared(v, q, r, width, height, mesh, f.row, f.col, rows, cols, minZ, maxZ);
    }
  }

  function PathTriangles(v: View, quads: seq<Quad3D>, path: seq<Facet>, cols: int, width: int, height: int)
    : seq<Triangle>
    requires forall k :: 0 <= k < |path| ==> FacetIsDrawn(v, quads, path[k], cols, width, height)
  {
    seq(|path|, k requires 0 <= k < |path| => FacetTriangle(v, quads, path[k], cols, width, height))
  }

  lemma PathIsJoined(v: View, quads: seq<Quad3D>, path: seq<Facet>, width: int, height: int, y: int,
                     mesh: Mesh, rows: int, cols: int, minZ: real, maxZ: real, shade: real -> Color)
    requires Rectangular(mesh, rows, cols) && AreCells(quads, mesh, rows, cols, minZ, maxZ, shade)
    requires IsPath(v, quads, path, rows, cols, width, height, y)
    ensures Joined(PathTriangles(v, quads, path, cols, width, height), y)
  {
    hide FacetIsDrawn, FacetTriangle, LeadsTo, Crosses, AreCells, IsEdge;
    var ts := PathTriangles(v, quads, path, cols, width, height);
    forall i ensures LinkedAt(ts, i, y) {
      if 0 <= i < |ts| - 1 {
        assert StepsAcross(v, quads, path, i, cols, width, height, y);
        if LeadsTo(v, quads, path[i], path[i + 1], cols, width, height, y) {
          StepSharesEdge(v, quads, path[i], path[i + 1], width, height, y, mesh, rows, cols, minZ, maxZ, shade);
        } else {
          StepSharesEdge(v, quads, path[i + 1], path[i], width, height, y, mesh, rows, cols, minZ, maxZ, shade);
        }
      }
    }
  }

  /**
    No cracks: walk over drawn facets of the mesh, each step over a cell's diagonal or over the
    border to a neighbour in any of the four directions, as long as the edges crossed meet
    scan line y. Then every pixel between two pixels of the walk on that line is painted.
   */
  lemma SurfaceHasNoCracks(v: View, quads: seq<Quad3D>, path: seq<Facet>, i: nat, j: nat, width: int, height: int,
                           x0: int, x: int, x1: int, y: int,
                           mesh: Mesh, rows: int, cols: int, minZ: real, maxZ: real, shade: real -> Color)
    requires Rectangular(mesh, rows, cols) && AreCells(quads, mesh, rows, cols, minZ, maxZ, shade)
    requires Projectable(v, quads) && IsPath(v, quads, path, rows, cols, width, height, y)
    requires i < |path| && FacetShows(v, quads, path[i], cols, width, height, x0, y)
    requires j < |path| && FacetShows(v, quads, path[j], cols, width, height, x1, y)
    requires x0 <= x <= x1
    ensures (x, y) in SurfacePixels(v, quads, width, height)
  {
    hide FacetIsDrawn, FacetTriangle, AreCells, Joined, Covers, InFrontOrBehind, SurfacePixels, StepsAcross;
    var ts := PathTriangles(v, quads, path, cols, width, height);
    PathIsJoined(v, quads, path, width, height, y, mesh, rows, cols, minZ, maxZ, shade);
    ChainHasNoCracks(ts, i, j, x0, x, x1, y);
    var k :| CoversNth(ts, k, x, y);
    FacetOfSurface(v, quads, path[k], cols, width, height, (x, y));
  }

  lemma FacetOfSurface(v: View, quads: seq<Quad3D>, f: Facet, cols: int, width: int, height: int, p: Pixel)
    requires Projectable(v, quads) && FacetIsDrawn(v, quads, f, cols, width, height)
    requires p in TrianglePixels(FacetTriangle(v, quads, f, cols, width, height), width, height)
    ensures p in SurfacePixels(v, quads, width, height)
  {
    hide IsDrawn, InFrontOrBehind, SurfacePixels, TrianglePixels, FirstTriangle, SecondTriangle;
    SurfaceIsUnion(v, quads, width, height, p);
    assert p in QuadPixels(v, quads[CellIndex(f.row, f.col, cols)], width, height);
  }
}
