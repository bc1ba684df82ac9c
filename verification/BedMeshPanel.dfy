/** The 3D bed mesh panel: its transform fields and the drawing steps that use them. */
module BedMeshPanels {
  import opened Numbers
  import opened Options
  import opened Points
  import opened Canvases
  import opened Triangles
  import opened Shading
  import opened ShadeAccuracy
  import opened Rasterizer
  import opened Projection
  import opened BedMap
  import opened FovFit
  import opened BoxFit
  import opened MeshQuads

  class BedMeshPanel {
    var mesh: Mesh
    var meshExtent: Extent
    // index space -> bed
    var xformScaleX: real
    var xformOffsetX: real
    var xformScaleY: real
    var xformOffsetY: real
    var bedWorldW: real
    var bedWorldH: real
    var haveBedFrame: bool
    // the viewer's settings
    var zTurn: Turn
    var xTurn: Turn
    var zDisplayScale: real
    var cameraDistance: real
    var fovScale: real
    var userZoom: real
    var isDragging: bool

    constructor ()
      ensures mesh == [] && xformScaleX == 1.0 && xformOffsetX == 0.0 && xformScaleY == 1.0 && xformOffsetY == 0.0
      ensures !haveBedFrame && !isDragging && userZoom == 1.0
    {
      mesh := [];
      meshExtent := Extent(0.0, 0.0, 0.0, 0.0);
      xformScaleX, xformOffsetX, xformScaleY, xformOffsetY := 1.0, 0.0, 1.0, 0.0;
      bedWorldW, bedWorldH, haveBedFrame := 0.0, 0.0, false;
      zTurn, xTurn := Turn(1.0, 0.0), Turn(1.0, 0.0);
      zDisplayScale, cameraDistance, fovScale, userZoom, isDragging := 2.4, 450.0, 1.0, 1.0, false;
    }

    /** What a projection depends on. */
    function CurrentView(): View
      reads this
    {
      View(xformScaleX, xformOffsetX, xformScaleY, xformOffsetY, zDisplayScale, zTurn, xTurn, cameraDistance, fovScale)
    }

    // ---- setup_world_transform ----

    /** The transform fields put a mesh of this size at its physical place on the chosen bed. */
    ghost predicate MappedOntoBed(rows: int, cols: int, config: Option<Extent>)
      reads this
      requires meshExtent.Usable()
    {
      var bed := BedOf(meshExtent, config);
      var ws := WorldScale(bed);
      && haveBedFrame == HaveFrame(config)
      && bedWorldW == (bed.x1 - bed.x0) * ws && bedWorldH == (bed.y1 - bed.y0) * ws
      && AxisMapped(xformScaleX, xformOffsetX, meshExtent.x0, meshExtent.x1, cols, ws, bed.CenterX())
      && AxisMapped(xformScaleY, xformOffsetY, meshExtent.y0, meshExtent.y1, rows, ws, bed.CenterY())
    }

    /**
      Where a mesh point ends up: the frame is the configured area if it is not empty, else the
      mesh's own extent; its longer side becomes 300 units and its centre the origin, and the
      point lies at the place of its column and of its mirrored row.
     */
    lemma GridIsPlaced(rows: int, cols: int, config: Option<Extent>, row: int, col: int, minZ: real, maxZ: real,
                       frame: Extent)
      requires Rectangular(mesh, rows, cols) && rows > 1 && cols > 1 && 0 <= row < rows && 0 <= col < cols
      requires meshExtent.x0 < meshExtent.x1 && meshExtent.y0 < meshExtent.y1 && MappedOntoBed(rows, cols, config)
      requires frame == match config
                        case Some(c) => if c.x0 < c.x1 && c.y0 < c.y1 then c else meshExtent
                        case None => meshExtent
      ensures var w := World(CurrentView(), GridPoint(mesh, row, col, rows, cols, minZ, maxZ));
              var longer := RealMax(frame.x1 - frame.x0, frame.y1 - frame.y0);
              && w.x == 300.0 / longer * (Position(meshExtent.x0, meshExtent.x1, cols, col)
                                          - (frame.x0 + frame.x1) / 2.0)
              && w.y == 300.0 / longer * (Position(meshExtent.y0, meshExtent.y1, rows, rows - 1 - row)
                                          - (frame.y0 + frame.y1) / 2.0)
              && bedWorldW == (frame.x1 - frame.x0) * (300.0 / longer)
              && bedWorldH == (frame.y1 - frame.y0) * (300.0 / longer)
    {
      hide HeightScale, IndexCoord, World, Apply, Position;
      WorldIsApplied(CurrentView(), GridPoint(mesh, row, col, rows, cols, minZ, maxZ));
      assert BedOf(meshExtent, config) == frame;
      MappedAt(xformScaleX, xformOffsetX, meshExtent.x0, meshExtent.x1, cols, WorldScale(frame), frame.CenterX(), col);
      MappedAt(xformScaleY, xformOffsetY, meshExtent.y0, meshExtent.y1, rows, WorldScale(frame), frame.CenterY(),
               rows - 1 - row);
    }

    /** A mesh probed inside the bed is drawn inside the bed, whose sides are at most 300 units. */
    lemma MeshStaysOnBed(rows: int, cols: int, config: Option<Extent>, row: int, col: int, minZ: real, maxZ: real)
      requires Rectangular(mesh, rows, cols) && rows > 1 && cols > 1 && 0 <= row < rows && 0 <= col < cols
      requires meshExtent.Usable() && meshExtent.Inside(BedOf(meshExtent, config)) && MappedOntoBed(rows, cols, config)
      ensures var w := World(CurrentView(), GridPoint(mesh, row, col, rows, cols, minZ, maxZ));
              -bedWorldW / 2.0 <= w.x <= bedWorldW / 2.0 && -bedWorldH / 2.0 <= w.y <= bedWorldH / 2.0
      ensures 0.0 <= bedWorldW <= BED_WORLD_SPAN && 0.0 <= bedWorldH <= BED_WORLD_SPAN
    {
      hide HeightScale, IndexCoord, AxisMapped, WorldScale, World, Apply;
      var bed := BedOf(meshExtent, config);
      var ws := WorldScale(bed);
      BedIsBounded(bed);
      WorldIsApplied(CurrentView(), GridPoint(mesh, row, col, rows, cols, minZ, maxZ));
      AxisStaysWithin(xformScaleX, xformOffsetX, meshExtent.x0, meshExtent.x1, cols, col, ws,
                      bed.x0, bed.x1, bedWorldW);
      AxisStaysWithin(xformScaleY, xformOffsetY, meshExtent.y0, meshExtent.y1, rows, rows - 1 - row, ws,
                      bed.y0, bed.y1, bedWorldH);
    }

    /**
      So every point of such a mesh is in front of the camera at every view angle, as long as
      its displayed height h satisfies 2 * 150^2 + h^2 < camera distance^2.
     */
    lemma MeshIsInFront(rows: int, cols: int, config: Option<Extent>, row: int, col: int, minZ: real, maxZ: real)
      requires Rectangular(mesh, rows, cols) && rows > 1 && cols > 1 && 0 <= row < rows && 0 <= col < cols
      requires meshExtent.Usable() && meshExtent.Inside(BedOf(meshExtent, config)) && MappedOntoBed(rows, cols, config)
      requires zTurn.Unit() && xTurn.Unit() && cameraDistance > 0.0
      requires var h := GridPoint(mesh, row, col, rows, cols, minZ, maxZ).z * zDisplayScale;
               45000.0 + h * h < cameraDistance * cameraDistance
      ensures 0.0 < Depth(CurrentView(), GridPoint(mesh, row, col, rows, cols, minZ, maxZ))
    {
      hide GridPoint, MappedOntoBed, Depth;
      var p := GridPoint(mesh, row, col, rows, cols, minZ, maxZ);
      MeshStaysOnBed(rows, cols, config, row, col, minZ, maxZ);
      var w := World(CurrentView(), p);
      HalfSideSquared(w.x);
      HalfSideSquared(w.y);
      NearPointsAreInFront(CurrentView(), p);
    }

    /**
      Without that bound it can fail: at the largest height scale the settings allow, 5, a 6 mm
      peak in the middle of a symmetric mesh is displayed 525 units high, and at every tilt
      whose cosine is at least 6/7 (up to 31 degrees) it is level with or behind the camera.
     */
    lemma PeakPassesCamera()
      requires mesh == [[0.0, 0.0, 0.0], [0.0, 6.0, 0.0], [0.0, 0.0, 0.0]]
      requires meshExtent == Extent(0.0, 200.0, 0.0, 200.0) && MappedOntoBed(3, 3, None)
      requires zDisplayScale == 5.0 && cameraDistance == 450.0
      ensures Depth(CurrentView(), GridPoint(mesh, 1, 1, 3, 3, 0.0, 6.0)) <= 0.0 <==> xTurn.c >= 6.0 / 7.0
    {
      hide AxisMapped, WorldScale, Depth, World, Apply, IndexCoord;
      var v, p := CurrentView(), GridPoint(mesh, 1, 1, 3, 3, 0.0, 6.0);
      CenterIsMapped(xformScaleX, xformOffsetX, WorldScale(meshExtent));
      CenterIsMapped(xformScaleY, xformOffsetY, WorldScale(meshExtent));
      WorldIsApplied(v, p);
      assert p.z == 105.0;
      DepthOverCenter(v, p);
    }

    /**
      Maps index coordinates onto the bed. With a usable probed extent, every column and
      mirrored row lands at its physical distance from the bed centre, scaled alike on both
      axes; without one the identity layout is kept.
     */
    method SetupWorldTransform(rows: int, cols: int, config: Option<Extent>)
      modifies `xformScaleX, `xformOffsetX, `xformScaleY, `xformOffsetY, `bedWorldW, `bedWorldH, `haveBedFrame
      ensures !meshExtent.Usable() ==>
                && xformScaleX == 1.0 && xformOffsetX == 0.0 && xformScaleY == 1.0 && xformOffsetY == 0.0
                && bedWorldW == (cols - 1) as real * MESH_SCALE && bedWorldH == (rows - 1) as real * MESH_SCALE
                && !haveBedFrame
      ensures meshExtent.Usable() ==> MappedOntoBed(rows, cols, config)
    {
      hide AxisMapped, BedOf, HaveFrame, WorldScale;
      xformScaleX, xformOffsetX := 1.0, 0.0;
      xformScaleY, xformOffsetY := 1.0, 0.0;
      bedWorldW := (cols - 1) as real * MESH_SCALE;
      bedWorldH := (rows - 1) as real * MESH_SCALE;
      haveBedFrame := false;
      var mx0, mx1, my0, my1 := meshExtent.x0, meshExtent.x1, meshExtent.y0, meshExtent.y1;
      if !(mx1 > mx0) || !(my1 > my0) {
        return;
      }
      var bx0, bx1, by0, by1, found := ChooseBed(config);
      haveBedFrame := found;
      var bedW, bedH := bx1 - bx0, by1 - by0;
      var bedSpan := RealMax(bedW, bedH);
      assert bedSpan > 0.0;  // so the source's fallback for an empty bed is never taken
      var ws := BED_WORLD_SPAN / bedSpan;
      ScaleOfChosenBed(Extent(bx0, bx1, by0, by1));
      xformScaleX, xformOffsetX := MapAxis(mx0, mx1, cols, ws, (bx0 + bx1) / 2.0);
      xformScaleY, xformOffsetY := MapAxis(my0, my1, rows, ws, (by0 + by1) / 2.0);
      bedWorldW := bedW * ws;
      bedWorldH := bedH * ws;
    }

    /** Scale and offset of one axis. */
    method MapAxis(lo: real, hi: real, n: int, ws: real, center: real) returns (scale: real, offset: real)
      requires lo < hi && ws > 0.0
      ensures AxisMapped(scale, offset, lo, hi, n, ws, center)
    {
      var d := if n > 1 then (hi - lo) / (n - 1) as real else hi - lo;
      scale := if n > 1 then d * ws / MESH_SCALE else 1.0;
      offset := ws * (lo + n as real / 2.0 * d - center);
      AxisIsMapped(lo, hi, n, ws, center);
    }

    /** The configured probe area if it is usable, else the mesh's own extent. */
    method ChooseBed(config: Option<Extent>) returns (x0: real, x1: real, y0: real, y1: real, found: bool)
      requires meshExtent.Usable()
      ensures Extent(x0, x1, y0, y1) == BedOf(meshExtent, config) && Extent(x0, x1, y0, y1).Usable()
      ensures found == HaveFrame(config)
    {
      x0, x1, y0, y1, found := meshExtent.x0, meshExtent.x1, meshExtent.y0, meshExtent.y1, false;
      if config.Some? {
        var c := config.value;
        if c.x1 > c.x0 && c.y1 > c.y0 {
          x0, y0, x1, y1 := c.x0, c.y0, c.x1, c.y1;
          found := true;
        }
      }
    }

    // ---- draw_bed_outline ----

    /**
      The pre-transform corners of the bed outline: projecting them goes through the
      transform again and ends at plus and minus half the bed.
     */
    method OutlineCorners(floor: real) returns (corners: seq<Vec>)
      ensures |corners| == if haveBedFrame && xformScaleX != 0.0 && xformScaleY != 0.0 then 4 else 0
      ensures forall i :: 0 <= i < |corners| ==>
                var w := World(CurrentView(), corners[i]);
                && w.x == (if i == 1 || i == 2 then bedWorldW / 2.0 else -bedWorldW / 2.0)
                && w.y == (if i >= 2 then bedWorldH / 2.0 else -bedWorldH / 2.0)
                && w.z == floor * zDisplayScale
    {
      corners := [];
      if !haveBedFrame {
        return;
      }
      if xformScaleX == 0.0 || xformScaleY == 0.0 {
        return;
      }
      var wxLo := (-bedWorldW / 2.0 - xformOffsetX) / xformScaleX;
      var wxHi := (bedWorldW / 2.0 - xformOffsetX) / xformScaleX;
      var wyLo := (-bedWorldH / 2.0 - xformOffsetY) / xformScaleY;
      var wyHi := (bedWorldH / 2.0 - xformOffsetY) / xformScaleY;
      InverseUndoesApply(xformScaleX, xformOffsetX, -bedWorldW / 2.0);
      InverseUndoesApply(xformScaleX, xformOffsetX, bedWorldW / 2.0);
      InverseUndoesApply(xformScaleY, xformOffsetY, -bedWorldH / 2.0);
      InverseUndoesApply(xformScaleY, xformOffsetY, bedWorldH / 2.0);
      corners := [Vec(wxLo, wyLo, floor), Vec(wxHi, wyLo, floor), Vec(wxHi, wyHi, floor), Vec(wxLo, wyHi, floor)];
    }

    // ---- refine_fov_to_fill ----

    /** The pre-transform box whose image is the bed frame, between two heights. */
    ghost function BedBox(zTop: real): Box
      reads this
      requires xformScaleX != 0.0 && xformScaleY != 0.0
    {
      Box((-bedWorldW / 2.0 - xformOffsetX) / xformScaleX, (bedWorldW / 2.0 - xformOffsetX) / xformScaleX,
          (-bedWorldH / 2.0 - xformOffsetY) / xformScaleY, (bedWorldH / 2.0 - xformOffsetY) / xformScaleY,
          -zTop, zTop)
    }

    /** Its eight corners, in the order the source visits them. */
    ghost function BoxCorners(zTop: real): (corners: seq<Vec>)
      reads this
      requires xformScaleX != 0.0 && xformScaleY != 0.0
      ensures |corners| == 8
    {
      BedBox(zTop).Corners()
    }

    /** They are the images of plus and minus half the bed, at both heights. */
    lemma BoxCornersSpanBed(zTop: real, i: int)
      requires xformScaleX != 0.0 && xformScaleY != 0.0 && 0 <= i < 8
      ensures var w := World(CurrentView(), BoxCorners(zTop)[i]);
              && w.x == (if i < 4 then -bedWorldW / 2.0 else bedWorldW / 2.0)
              && w.y == (if i % 4 < 2 then -bedWorldH / 2.0 else bedWorldH / 2.0)
              && w.z == (if i % 2 == 0 then -zTop else zTop) * zDisplayScale
    {
      InverseUndoesApply(xformScaleX, xformOffsetX, -bedWorldW / 2.0);
      InverseUndoesApply(xformScaleX, xformOffsetX, bedWorldW / 2.0);
      InverseUndoesApply(xformScaleY, xformOffsetY, -bedWorldH / 2.0);
      InverseUndoesApply(xformScaleY, xformOffsetY, bedWorldH / 2.0);
    }

    ghost predicate BoxProjectable(zTop: real)
      reads this
      requires xformScaleX != 0.0 && xformScaleY != 0.0
    {
      forall i :: 0 <= i < 8 ==> Depth(CurrentView(), BoxCorners(zTop)[i]) != 0.0
    }

    ghost predicate BoxInFront(zTop: real)
      reads this
      requires xformScaleX != 0.0 && xformScaleY != 0.0
    {
      forall i :: 0 <= i < 8 ==> Depth(CurrentView(), BoxCorners(zTop)[i]) > 0.0
    }

    /** Everything in the box is in front of the camera and inside the padded canvas, up to the margin. */
    ghost predicate BoxShown(zTop: real, margin: real, width: int, height: int)
      reads this
      requires xformScaleX != 0.0 && xformScaleY != 0.0
    {
      forall p :: BedBox(zTop).Contains(p) ==> ShownNear(CurrentView(), p, margin, width, height)
    }

    /** The measured (truncated) projections of the eight corners. */
    ghost function MeasuredCorners(zTop: real, width: int, height: int): seq<Point3D>
      reads this
      requires xformScaleX != 0.0 && xformScaleY != 0.0 && BoxProjectable(zTop)
    {
      Measured(CurrentView(), BoxCorners(zTop), width, height)
    }

    /**
      Rescales the field of view. On a canvas of at least 95 by 1 pixels, best is the largest
      zoom up to 5 that keeps all eight measured corners inside the padded box; if they are in
      front of the camera, best is at least 0.2 and the user has not zoomed, the whole box is
      then shown, its exact projection less than twice best pixels outside.
     */
    method RefineFovToFill(width: int, height: int, zTop: real) returns (ghost best: real)
      requires xformScaleX != 0.0 && xformScaleY != 0.0 ==> BoxProjectable(zTop)
      modifies `fovScale
      ensures xformScaleX == 0.0 || xformScaleY == 0.0 ==> fovScale == old(fovScale)
      ensures xformScaleX != 0.0 && xformScaleY != 0.0 ==> fovScale == old(fovScale) * (Guard(best) * userZoom)
      ensures xformScaleX != 0.0 && xformScaleY != 0.0 && width >= 95 && height >= 1 ==>
                BestFit(best, old(MeasuredCorners(zTop, width, height)), width, height)
      ensures xformScaleX != 0.0 && xformScaleY != 0.0 && width >= 95 && height >= 1 && userZoom == 1.0 ==>
                best >= MIN_FIT && old(BoxInFront(zTop)) ==> BoxShown(zTop, best * 2.0, width, height)
    {
      hide Project, Depth, BestFit, Guard, BoxShown, Box.Corners, Measured;
      best := MAX_FIT;
      if xformScaleX == 0.0 || xformScaleY == 0.0 {
        return;
      }
      var k := LargestFit(width, height, zTop);
      best := k;
      k := RealMax(MIN_FIT, RealMin(MAX_FIT, k));
      assert k == Guard(best) by {
        GuardUnfolds(best);
      }
      assert k * userZoom == Guard(best) * userZoom;
      fovScale := fovScale * (k * userZoom);
      if width >= 95 && height >= 1 && userZoom == 1.0 && best >= MIN_FIT && old(BoxInFront(zTop)) {
        FitShowsBox(zTop, best, old(CurrentView()), width, height);
      }
    }

    /** The search: the three nested loops over the corners. */
    method LargestFit(width: int, height: int, zTop: real) returns (k: real)
      requires xformScaleX != 0.0 && xformScaleY != 0.0 && BoxProjectable(zTop)
      ensures width >= 95 && height >= 1 ==> BestFit(k, MeasuredCorners(zTop, width, height), width, height)
    {
      hide Project, Depth, BestFit;
      ghost var corners := BoxCorners(zTop);
      ghost var ps := MeasuredCorners(zTop, width, height);
      assert forall i :: 0 <= i < 8 ==>
                Depth(CurrentView(), corners[i]) != 0.0 && ps[i] == Project(CurrentView(), corners[i], width, height);
      var xs := [(-bedWorldW / 2.0 - xformOffsetX) / xformScaleX, (bedWorldW / 2.0 - xformOffsetX) / xformScaleX];
      var ys := [(-bedWorldH / 2.0 - xformOffsetY) / xformScaleY, (bedWorldH / 2.0 - xformOffsetY) / xformScaleY];
      var zs := [-zTop, zTop];
      k := MAX_FIT;
      NothingMeasured(ps, width, height);
      for xi := 0 to 2
        invariant width >= 95 && height >= 1 ==> BestFit(k, ps[..4 * xi], width, height)
      {
        for yi := 0 to 2
          invariant width >= 95 && height >= 1 ==> BestFit(k, ps[..4 * xi + 2 * yi], width, height)
        {
          for zi := 0 to 2
            invariant width >= 95 && height >= 1 ==> BestFit(k, ps[..4 * xi + 2 * yi + zi], width, height)
          {
            ghost var n := 4 * xi + 2 * yi + zi;
            assert corners[n] == Vec(xs[xi], ys[yi], zs[zi]);
            k := TightenToCorner(k, xs[xi], ys[yi], zs[zi], width, height, ps, n);
          }
        }
      }
      assert ps[..8] == ps;
    }

    /** The rescaled view shows the box. */
    lemma FitShowsBox(zTop: real, k: real, before: View, width: int, height: int)
      requires xformScaleX != 0.0 && xformScaleY != 0.0 && width >= 95 && height >= 1 && k >= MIN_FIT
      requires userZoom == 1.0 && CurrentView() == before.(fov := before.fov * (Guard(k) * userZoom))
      requires forall i :: 0 <= i < 8 ==> Depth(before, BoxCorners(zTop)[i]) > 0.0
      requires BestFit(k, Measured(before, BoxCorners(zTop), width, height), width, height)
      ensures BoxShown(zTop, k * 2.0, width, height)
    {
      hide Depth, BestFit, Measured, ShownNear, Guard;
      GuardLeavesBest(k, Measured(before, BoxCorners(zTop), width, height), width, height);
      assert Guard(k) * userZoom == k;
      assert CurrentView() == before.(fov := before.fov * k);
      forall p | BedBox(zTop).Contains(p) ensures ShownNear(CurrentView(), p, k * 2.0, width, height) {
        RefinedViewShowsBox(before, BedBox(zTop), k, p, width, height);
      }
    }

    /**
      What the fit is for: once the box is shown, so is every point of a mesh probed inside the
      bed, whatever its height between the lowest and the highest probe.
     */
    lemma MeshIsShown(rows: int, cols: int, config: Option<Extent>, row: int, col: int, minZ: real, maxZ: real,
                      margin: real, width: int, height: int)
      requires Rectangular(mesh, rows, cols) && rows > 1 && cols > 1 && 0 <= row < rows && 0 <= col < cols
      requires meshExtent.Usable() && meshExtent.Inside(BedOf(meshExtent, config)) && MappedOntoBed(rows, cols, config)
      requires minZ <= mesh[row][col] <= maxZ && xformScaleX != 0.0 && xformScaleY != 0.0
      requires BoxShown(ZTop(minZ, maxZ), margin, width, height)
      ensures ShownNear(CurrentView(), GridPoint(mesh, row, col, rows, cols, minZ, maxZ), margin, width, height)
    {
      hide ShownNear, HeightScale, World, IndexCoord, Apply, BedOf, WorldScale;
      var v, p := CurrentView(), GridPoint(mesh, row, col, rows, cols, minZ, maxZ);
      MeshStaysOnBed(rows, cols, config, row, col, minZ, maxZ);
      WorldIsApplied(v, p);
      UnapplyWithin(xformScaleX, xformOffsetX, p.x, bedWorldW / 2.0);
      UnapplyWithin(xformScaleY, xformOffsetY, p.y, bedWorldH / 2.0);
      HeightWithin(mesh[row][col], minZ, maxZ);
      assert BedBox(ZTop(minZ, maxZ)).Contains(p);
    }

    /** The body of the innermost loop: one corner. */
    method TightenToCorner(k0: real, x: real, y: real, z: real, width: int, height: int,
                           ghost ps: seq<Point3D>, ghost n: nat)
      returns (k: real)
      requires Depth(CurrentView(), Vec(x, y, z)) != 0.0
      requires n < |ps| && ps[n] == Project(CurrentView(), Vec(x, y, z), width, height)
      requires width >= 95 && height >= 1 ==> BestFit(k0, ps[..n], width, height)
      ensures width >= 95 && height >= 1 ==> BestFit(k, ps[..n + 1], width, height)
    {
      hide Project, Depth, BestFit;
      k := k0;
      var baseX := GRADIENT_BAND_TOTAL_WIDTH as real + (width - GRADIENT_BAND_TOTAL_WIDTH) as real / 2.0;
      var baseY := height as real * Z_ORIGIN_VERTICAL_POSITION;
      var padX, padY := width as real * CANVAS_PADDING_RATIO, height as real * CANVAS_PADDING_RATIO;
      var loX, hiX := GRADIENT_BAND_TOTAL_WIDTH as real + padX, width as real - padX;
      var loY, hiY := padY, height as real - padY;
      var p := Project(CurrentView(), Vec(x, y, z), width, height);
      var ox, oy := p.screenX as real - baseX, p.screenY as real - baseY;
      if ox > NEGLIGIBLE {
        k := RealMin(k, (hiX - baseX) / ox);
      } else if ox < -NEGLIGIBLE {
        k := RealMin(k, (loX - baseX) / ox);
      }
      assert k == Tighten(k0, ox, LowX(width), HighX(width));
      ghost var kx := k;
      if oy > NEGLIGIBLE {
        k := RealMin(k, (hiY - baseY) / oy);
      } else if oy < -NEGLIGIBLE {
        k := RealMin(k, (loY - baseY) / oy);
      }
      assert k == Tighten(kx, oy, LowY(height), HighY(height));
      if width >= 95 && height >= 1 {
        CornerTightens(k0, ps, n, width, height);
      }
    }

    // ---- generate_mesh_quads ----

    /** One quad per mesh cell, row by row, with the cell's grid points as corners. */
    method GenerateMeshQuads(rows: int, cols: int, minZ: real, maxZ: real, shade: real -> Color)
      returns (quads: seq<Quad3D>)
      requires Rectangular(mesh, rows, cols)
      ensures AreCells(quads, mesh, rows, cols, minZ, maxZ, shade)
    {
      hide ColoredCell;
      quads := [];
      var row := 0;
      while row < rows - 1
        invariant 0 <= row <= Max(0, rows - 1)
        invariant cols >= 1 ==> |quads| == row * (cols - 1)
        invariant forall r, c :: 0 <= r < row && 0 <= c < cols - 1 ==>
                    ColoredCell(quads, mesh, r, c, rows, cols, minZ, maxZ, shade)
      {
        ghost var before := quads;
        var cells := GenerateRow(row, rows, cols, minZ, maxZ, shade);
        quads := quads + cells;
        assert (row + 1) * (cols - 1) == row * (cols - 1) + (cols - 1);
        forall r, c | 0 <= r < row + 1 && 0 <= c < cols - 1
          ensures ColoredCell(quads, mesh, r, c, rows, cols, minZ, maxZ, shade)
        {
          if r < row {
            OldCellStays(before, cells, mesh, r, c, rows, cols, minZ, maxZ, shade);
          } else {
            NewCellAppears(before, cells, mesh, row, c, rows, cols, minZ, maxZ, shade);
          }
        }
        row := row + 1;
      }
    }

    /** The inner loop of the generator. */
    method GenerateRow(row: int, rows: int, cols: int, minZ: real, maxZ: real, shade: real -> Color)
      returns (quads: seq<Quad3D>)
      requires Rectangular(mesh, rows, cols) && 0 <= row < rows - 1
      ensures |quads| == Max(0, cols - 1)
      ensures forall c :: 0 <= c < cols - 1 ==>
                IsCell(quads[c], mesh, row, c, rows, cols, minZ, maxZ) && CellColors(quads[c], mesh, row, c, shade)
    {
      hide HeightScale, IsCell;
      var zCenter := (minZ + maxZ) / 2.0;
      var zScale := HeightScale(minZ, maxZ);
      quads := [];
      var col := 0;
      while col < cols - 1
        invariant 0 <= col <= Max(0, cols - 1) && |quads| == col
        invariant forall c :: 0 <= c < col ==>
                    IsCell(quads[c], mesh, row, c, rows, cols, minZ, maxZ) && CellColors(quads[c], mesh, row, c, shade)
      {
        var baseX := (col as real - cols as real / 2.0) * MESH_SCALE;
        var baseY := ((rows - 1 - row) as real - rows as real / 2.0) * MESH_SCALE;
        var topY := ((rows - 1 - (row + 1)) as real - rows as real / 2.0) * MESH_SCALE;
        var v0 := Vertex3D(Vec(baseX, baseY, (mesh[row][col] - zCenter) * zScale), shade(mesh[row][col]));
        var v1 := Vertex3D(Vec(baseX + MESH_SCALE, baseY, (mesh[row][col + 1] - zCenter) * zScale),
                           shade(mesh[row][col + 1]));
        var v2 := Vertex3D(Vec(baseX, topY, (mesh[row + 1][col] - zCenter) * zScale), shade(mesh[row + 1][col]));
        var v3 := Vertex3D(Vec(baseX + MESH_SCALE, topY, (mesh[row + 1][col + 1] - zCenter) * zScale),
                           shade(mesh[row + 1][col + 1]));
        var avgHeight := (mesh[row][col] + mesh[row][col + 1] + mesh[row + 1][col] + mesh[row + 1][col + 1]) / 4.0;
        var quad := Quad3D(v0, v1, v2, v3, shade(avgHeight));
        CornersMakeCell(quad, mesh, row, col, rows, cols, minZ, maxZ);
        quads := quads + [quad];
        col := col + 1;
      }
    }

    // ---- draw_3d_quad ----

    /**
      Two triangles of a quad that is near the canvas, nothing otherwise. Dragging or not,
      the same pixels are painted; only the colours differ.
     */
    method DrawQuad(canvas: Canvas, quad: Quad3D)
      requires InFrontOrBehind(CurrentView(), quad)
      modifies canvas
      ensures isDragging ==>
                canvas.pixels == Paint(old(canvas.pixels), QuadPixels(CurrentView(), quad, canvas.width, canvas.height),
                                       quad.centerColor)
      ensures !isDragging ==>
                Repainted(old(canvas.pixels), canvas.pixels,
                          QuadPixels(CurrentView(), quad, canvas.width, canvas.height),
                          QuadAllows(CurrentView(), quad, canvas.width, canvas.height))
    {
      hide TrianglePixels, ScreenPoint, Project, Depth, Paint, Repainted, TriangleAllows, QuadAllows;
      ghost var v := CurrentView();
      ghost var before := canvas.pixels;
      var p0 := ProjectCorner(canvas, quad.v0.at);
      var p1 := ProjectCorner(canvas, quad.v1.at);
      var p2 := ProjectCorner(canvas, quad.v2.at);
      var p3 := ProjectCorner(canvas, quad.v3.at);
      var anyVisible := NearCanvas(p0, canvas.width, canvas.height) || NearCanvas(p1, canvas.width, canvas.height)
                        || NearCanvas(p2, canvas.width, canvas.height) || NearCanvas(p3, canvas.width, canvas.height);
      ghost var first := TrianglePixels(Triangle(p0, p1, p2), canvas.width, canvas.height);
      ghost var second := TrianglePixels(Triangle(p1, p2, p3), canvas.width, canvas.height);
      if !anyVisible {
        PaintNothing(before, quad.centerColor);
        NothingRepainted(before, 0, 0, 0, QuadAllows(v, quad, canvas.width, canvas.height));
        return;
      }
      if isDragging {
        FillTriangle(canvas, p0.x, p0.y, p1.x, p1.y, p2.x, p2.y, quad.centerColor);
        FillTriangle(canvas, p1.x, p1.y, p2.x, p2.y, p3.x, p3.y, quad.centerColor);
        PaintTwice(before, first, second, quad.centerColor);
      } else {
        var c0, c1 := Vertex(p0, quad.v0.color), Vertex(p1, quad.v1.color);
        var c2, c3 := Vertex(p2, quad.v2.color), Vertex(p3, quad.v3.color);
        FillTriangleGradient(canvas, c0, c1, c2);
        ghost var middle := canvas.pixels;
        FillTriangleGradient(canvas, c1, c2, c3);
        BothTriangles(before, middle, canvas.pixels, v, quad, canvas.width, canvas.height);
      }
    }

    method ProjectCorner(canvas: Canvas, at: Vec) returns (p: Point)
      requires Depth(CurrentView(), at) != 0.0
      ensures p == ScreenPoint(CurrentView(), at, canvas.width, canvas.height)
    {
      var q := Project(CurrentView(), at, canvas.width, canvas.height);
      p := Point(q.screenX, q.screenY);
    }

    /**
      The quad loop of draw_3d_mesh: exactly the surface's pixels are painted, and where quads
      overlap the last one drawn, the nearest after the depth sort, gives the colour.
     */
    method DrawSurface(canvas: Canvas, quads: seq<Quad3D>)
      requires Projectable(CurrentView(), quads)
      modifies canvas
      ensures canvas.pixels.Keys
              == old(canvas.pixels.Keys) + SurfacePixels(CurrentView(), quads, canvas.width, canvas.height)
      ensures forall p :: p in old(canvas.pixels)
                          && p !in SurfacePixels(CurrentView(), quads, canvas.width, canvas.height)
                          ==> p in canvas.pixels && canvas.pixels[p] == old(canvas.pixels)[p]
      ensures Layered(CurrentView(), quads, canvas.width, canvas.height, canvas.pixels, isDragging)
      ensures forall i, p :: 0 <= i < |quads| && IsSeen(CurrentView(), quads[i], canvas.width, canvas.height, p)
                             ==> p in canvas.pixels
    {
      hide QuadPixels, InFrontOrBehind, QuadAllows, Layered, IsSeen;
      ghost var v := CurrentView();
      ghost var before := canvas.pixels;
      NothingLayered(v, quads, canvas.width, canvas.height, before, isDragging);
      for n := 0 to |quads|
        invariant canvas.pixels.Keys == before.Keys + SurfacePixels(v, quads[..n], canvas.width, canvas.height)
        invariant forall p :: p in before && p !in SurfacePixels(v, quads[..n], canvas.width, canvas.height)
                              ==> p in canvas.pixels && canvas.pixels[p] == before[p]
        invariant Layered(v, quads[..n], canvas.width, canvas.height, canvas.pixels, isDragging)
      {
        ghost var drawn := canvas.pixels;
        assert quads[..n + 1][..n] == quads[..n];
        DrawQuad(canvas, quads[n]);
        OneQuadMore(v, quads[..n], quads[n], canvas.width, canvas.height, drawn, canvas.pixels, isDragging);
        assert quads[..n] + [quads[n]] == quads[..n + 1];
      }
      assert quads[..|quads|] == quads;
      forall i, p | 0 <= i < |quads| && IsSeen(v, quads[i], canvas.width, canvas.height, p)
        ensures p in canvas.pixels
      {
        QuadIsSeen(v, quads[i], canvas.width, canvas.height, p);
        SurfaceIsUnion(v, quads, canvas.width, canvas.height, p);
      }
    }
  }

  // ---- facts about the pieces above ----

  /** The transform of one axis meets its goal, and its scale can be divided by. */
  ghost predicate AxisMapped(scale: real, offset: real, lo: real, hi: real, n: int, ws: real, center: real) {
    && scale > 0.0
    && (n > 1 ==> forall i: int :: Apply(scale, offset, IndexCoord(i, n)) == ws * (Position(lo, hi, n, i) - center))
    && (n <= 1 ==> scale == 1.0 && offset == AxisOffset(lo, hi, n, ws, center))
  }

  lemma AxisIsMapped(lo: real, hi: real, n: int, ws: real, center: real)
    requires lo < hi && ws > 0.0
    ensures AxisMapped(AxisScale(lo, hi, n, ws), AxisOffset(lo, hi, n, ws, center), lo, hi, n, ws, center)
  {
  }

  lemma MappedAt(scale: real, offset: real, lo: real, hi: real, n: int, ws: real, center: real, i: int)
    requires n > 1 && AxisMapped(scale, offset, lo, hi, n, ws, center)
    ensures Apply(scale, offset, IndexCoord(i, n)) == ws * (Position(lo, hi, n, i) - center)
  {
  }

  /** Along one axis, probe points of a mesh inside the frame stay within half its world size. */
  lemma AxisStaysWithin(scale: real, offset: real, lo: real, hi: real, n: int, i: int, ws: real,
                        frameLo: real, frameHi: real, side: real)
    requires frameLo <= lo < hi <= frameHi && n > 1 && 0 <= i < n && ws > 0.0 && side == (frameHi - frameLo) * ws
    requires AxisMapped(scale, offset, lo, hi, n, ws, (frameLo + frameHi) / 2.0)
    ensures -side / 2.0 <= Apply(scale, offset, IndexCoord(i, n)) <= side / 2.0
  {
    hide IndexCoord, Position, Apply;
    PositionWithin(lo, hi, n, i);
    WithinHalf(frameLo, frameHi, Position(lo, hi, n, i), ws);
  }

  lemma CenterIsMapped(scale: real, offset: real, ws: real)
    requires AxisMapped(scale, offset, 0.0, 200.0, 3, ws, 100.0)
    ensures Apply(scale, offset, IndexCoord(1, 3)) == 0.0
  {
    assert Apply(scale, offset, IndexCoord(1, 3)) == ws * (Position(0.0, 200.0, 3, 1) - 100.0);
  }

  lemma WorldIsApplied(v: View, p: Vec)
    ensures World(v, p).x == Apply(v.scaleX, v.offsetX, p.x) && World(v, p).y == Apply(v.scaleY, v.offsetY, p.y)
    ensures World(v, p).z == p.z * v.zScale
  {
  }

  lemma BedIsBounded(bed: Extent)
    requires bed.Usable()
    ensures 0.0 <= (bed.x1 - bed.x0) * WorldScale(bed) <= BED_WORLD_SPAN
    ensures 0.0 <= (bed.y1 - bed.y0) * WorldScale(bed) <= BED_WORLD_SPAN
  {
    hide WorldScale;
    LongerSideFillsSpan(bed);
    ProductSign(WorldScale(bed), bed.x1 - bed.x0);
    ProductSign(WorldScale(bed), bed.y1 - bed.y0);
  }

  const Z_AXIS_EXTENSION := 0.75

  /** The height the fit reaches up and down to. */
  function ZTop(minZ: real, maxZ: real): real {
    (maxZ - minZ) * Z_AXIS_EXTENSION * HeightScale(minZ, maxZ)
  }

  /** A point whose image is within half the bed lies between the images' inverses. */
  lemma UnapplyWithin(scale: real, offset: real, x: real, half: real)
    requires scale > 0.0 && -half <= Apply(scale, offset, x) <= half
    ensures (-half - offset) / scale <= x <= (half - offset) / scale
  {
    QuotientAtMost(-half - offset, scale, x);
    QuotientAtLeast(half - offset, scale, x);
  }

  lemma QuotientAtMost(n: real, d: real, x: real)
    requires d > 0.0 && n <= d * x
    ensures n / d <= x
  {
  }

  lemma QuotientAtLeast(n: real, d: real, x: real)
    requires d > 0.0 && n >= d * x
    ensures n / d >= x
  {
  }

  /** Displayed heights stay within the reach of the fit. */
  lemma HeightWithin(h: real, minZ: real, maxZ: real)
    requires minZ <= h <= maxZ
    ensures -ZTop(minZ, maxZ) <= (h - (minZ + maxZ) / 2.0) * HeightScale(minZ, maxZ) <= ZTop(minZ, maxZ)
  {
    hide HeightScale;
    var s := HeightScale(minZ, maxZ);
    ScaleWithin(h - (minZ + maxZ) / 2.0, (maxZ - minZ) * Z_AXIS_EXTENSION, s,
                (h - (minZ + maxZ) / 2.0) * s, ZTop(minZ, maxZ));
  }

  lemma ScaleWithin(d: real, r: real, s: real, ds: real, rs: real)
    requires -r <= d <= r && s >= 0.0 && ds == d * s && rs == r * s
    ensures -rs <= ds <= rs
  {
    ProductSign(s, r - d);
    ProductSign(s, r + d);
    assert s * (r - d) == rs - ds && s * (r + d) == rs + ds;
  }

  lemma HalfSideSquared(x: real)
    requires -150.0 <= x <= 150.0
    ensures x * x <= 22500.0
  {
    ProductSign(150.0 - x, 150.0 + x);
    assert (150.0 - x) * (150.0 + x) == 22500.0 - x * x;
  }

  lemma ScaleOfChosenBed(bed: Extent)
    requires bed.Usable()
    ensures WorldScale(bed) == BED_WORLD_SPAN / RealMax(bed.x1 - bed.x0, bed.y1 - bed.y0)
  {
  }

  lemma GuardUnfolds(k: real)
    ensures Guard(k) == RealMax(MIN_FIT, RealMin(MAX_FIT, k))
  {
  }

  lemma NothingMeasured(ps: seq<Point3D>, width: int, height: int)
    ensures BestFit(MAX_FIT, ps[..0], width, height)
  {
  }

  /** One corner more: both coordinates tighten the zoom exactly. */
  lemma CornerTightens(k: real, ps: seq<Point3D>, n: nat, width: int, height: int)
    requires n < |ps| && width >= 95 && height >= 1 && BestFit(k, ps[..n], width, height)
    ensures var ox, oy := ps[n].screenX as real - BaseX(width), ps[n].screenY as real - BaseY(height);
            BestFit(Tighten(Tighten(k, ox, LowX(width), HighX(width)), oy, LowY(height), HighY(height)),
                    ps[..n + 1], width, height)
  {
    hide Tighten, Admits, LowX, HighX, LowY, HighY, BaseX, BaseY;
    BoxSurroundsOrigin(width, height);
    var ox, oy := ps[n].screenX as real - BaseX(width), ps[n].screenY as real - BaseY(height);
    var kx := Tighten(k, ox, LowX(width), HighX(width));
    var m := Tighten(kx, oy, LowY(height), HighY(height));
    TightenStaysPositive(k, ox, LowX(width), HighX(width));
    TightenStaysPositive(kx, oy, LowY(height), HighY(height));
    var more := ps[..n + 1];
    forall z | z >= 0.0 ensures Separates(z, m, more, width, height) {
      assert Separates(z, k, ps[..n], width, height);
      TightenIsExact(k, ox, LowX(width), HighX(width), z);
      TightenIsExact(kx, oy, LowY(height), HighY(height), z);
      OneCornerMore(z, ps, n, width, height);
    }
  }

  lemma OneCornerMore(z: real, ps: seq<Point3D>, n: nat, width: int, height: int)
    requires n < |ps|
    ensures FitsAll(z, ps[..n + 1], width, height)
            <==> FitsAll(z, ps[..n], width, height) && Fits(z, ps[n], width, height)
  {
  }

  /** The corners as the generator writes them are the cell's grid points. */
  lemma CornersMakeCell(q: Quad3D, mesh: Mesh, row: int, col: int, rows: int, cols: int, minZ: real, maxZ: real)
    requires Rectangular(mesh, rows, cols) && 0 <= row < rows - 1 && 0 <= col < cols - 1
    requires var x, y := IndexCoord(col, cols), IndexCoord(rows - 1 - row, rows);
             var top := IndexCoord(rows - 1 - (row + 1), rows);
             var center, scale := (minZ + maxZ) / 2.0, HeightScale(minZ, maxZ);
             && q.v0.at == Vec(x, y, (mesh[row][col] - center) * scale)
             && q.v1.at == Vec(x + MESH_SCALE, y, (mesh[row][col + 1] - center) * scale)
             && q.v2.at == Vec(x, top, (mesh[row + 1][col] - center) * scale)
             && q.v3.at == Vec(x + MESH_SCALE, top, (mesh[row + 1][col + 1] - center) * scale)
    ensures IsCell(q, mesh, row, col, rows, cols, minZ, maxZ)
  {
    hide IndexCoord, HeightScale;
    NextIndexCoord(col, cols);
  }

  /** The right side of a cell is the left side of the next one. */
  lemma NextIndexCoord(i: int, n: int)
    ensures IndexCoord(i, n) + MESH_SCALE == IndexCoord(i + 1, n)
  {
  }

  lemma OldCellStays(before: seq<Quad3D>, cells: seq<Quad3D>, mesh: Mesh, r: int, c: int, rows: int, cols: int,
                     minZ: real, maxZ: real, shade: real -> Color)
    requires Rectangular(mesh, rows, cols) && 0 <= r < rows - 1 && 0 <= c < cols - 1
    requires ColoredCell(before, mesh, r, c, rows, cols, minZ, maxZ, shade)
    ensures ColoredCell(before + cells, mesh, r, c, rows, cols, minZ, maxZ, shade)
  {
    hide IsCell, CellColors;
    assert (before + cells)[CellIndex(r, c, cols)] == before[CellIndex(r, c, cols)];
  }

  lemma NewCellAppears(before: seq<Quad3D>, cells: seq<Quad3D>, mesh: Mesh, row: int, c: int, rows: int, cols: int,
                       minZ: real, maxZ: real, shade: real -> Color)
    requires Rectangular(mesh, rows, cols) && 0 <= row < rows - 1 && 0 <= c < cols - 1
    requires |before| == row * (cols - 1) && |cells| == cols - 1
    requires IsCell(cells[c], mesh, row, c, rows, cols, minZ, maxZ) && CellColors(cells[c], mesh, row, c, shade)
    ensures ColoredCell(before + cells, mesh, row, c, rows, cols, minZ, maxZ, shade)
  {
    hide IsCell, CellColors;
    assert (before + cells)[CellIndex(row, c, cols)] == cells[c];
  }

  /** The quad's corner as a vertex of a fill. */
  function ScreenVertex(v: View, c: Vertex3D, width: int, height: int): Vertex
    requires Depth(v, c.at) != 0.0
  {
    Vertex(ScreenPoint(v, c.at, width, height), c.color)
  }

  /** The colours a gradient quad may leave: those of the second triangle where it lies, else of the first. */
  ghost function QuadAllows(v: View, q: Quad3D, width: int, height: int): (Pixel, Color) -> bool
    requires InFrontOrBehind(v, q)
  {
    var c0, c1 := ScreenVertex(v, q.v0, width, height), ScreenVertex(v, q.v1, width, height);
    var c2, c3 := ScreenVertex(v, q.v2, width, height), ScreenVertex(v, q.v3, width, height);
    var over := TrianglePixels(SecondTriangle(v, q, width, height), width, height);
    var first, second := TriangleAllows(c0, c1, c2, width), TriangleAllows(c1, c2, c3, width);
    (p: Pixel, c: Color) => if p in over then second(p, c) else first(p, c)
  }

  /** The second fill goes over the first. */
  lemma BothTriangles(before: map<Pixel, Color>, middle: map<Pixel, Color>, after: map<Pixel, Color>,
                      v: View, q: Quad3D, width: int, height: int)
    requires InFrontOrBehind(v, q)
    requires Repainted(before, middle, TrianglePixels(FirstTriangle(v, q, width, height), width, height),
                       TriangleAllows(ScreenVertex(v, q.v0, width, height), ScreenVertex(v, q.v1, width, height),
                                      ScreenVertex(v, q.v2, width, height), width))
    requires Repainted(middle, after, TrianglePixels(SecondTriangle(v, q, width, height), width, height),
                       TriangleAllows(ScreenVertex(v, q.v1, width, height), ScreenVertex(v, q.v2, width, height),
                                      ScreenVertex(v, q.v3, width, height), width))
    ensures Repainted(before, after,
                      TrianglePixels(FirstTriangle(v, q, width, height), width, height)
                      + TrianglePixels(SecondTriangle(v, q, width, height), width, height),
                      QuadAllows(v, q, width, height))
  {
    hide TriangleAllows, TrianglePixels, ScreenPoint, FirstTriangle, SecondTriangle, Depth;
  }

  /** The quad's corners are among the three of a triangle. */
  predicate OfQuad(v: View, q: Quad3D, width: int, height: int, a: Vertex, b: Vertex, c: Vertex)
    requires InFrontOrBehind(v, q)
  {
    var c1, c2 := ScreenVertex(v, q.v1, width, height), ScreenVertex(v, q.v2, width, height);
    || (a, b, c) == (ScreenVertex(v, q.v0, width, height), c1, c2)
    || (a, b, c) == (c1, c2, ScreenVertex(v, q.v3, width, height))
  }

  /**
    A pixel that a gradient quad leaves stays within the colours of the corners of one of its
    two triangles, and fits the exact colours of two sides of it as GradientIsAccurate says.
   */
  lemma QuadIsAccurate(v: View, q: Quad3D, width: int, height: int, pixel: Pixel, c: Color)
    returns (d: Vertex, e: Vertex, f: Vertex, p: Vertex, q1: Vertex, p2: Vertex, q2: Vertex)
    requires InFrontOrBehind(v, q) && pixel in QuadPixels(v, q, width, height)
    requires QuadAllows(v, q, width, height)(pixel, c)
    ensures OfQuad(v, q, width, height, d, e, f) && InHull(c, d.color, e.color, f.color)
    ensures IsSide(d, e, f, p, q1, pixel.1) && IsSide(d, e, f, p2, q2, pixel.1)
    ensures FitsSides(p, q1, p2, q2, width, pixel.0, pixel.1, c)
  {
    hide TriangleAllows, TrianglePixels, ScreenPoint, Depth, IsDrawn, FitsSides, IsSide, InHull;
    if pixel in TrianglePixels(SecondTriangle(v, q, width, height), width, height) {
      d, e, f := ScreenVertex(v, q.v1, width, height), ScreenVertex(v, q.v2, width, height),
                 ScreenVertex(v, q.v3, width, height);
    } else {
      d, e, f := ScreenVertex(v, q.v0, width, height), ScreenVertex(v, q.v1, width, height),
                 ScreenVertex(v, q.v2, width, height);
    }
    GradientStaysInHull(d, e, f, width, pixel, c);
    p, q1, p2, q2 := GradientIsAccurate(d, e, f, width, height, pixel, c);
  }

  /** The pixel has a colour this quad may leave: its one colour while dragging, else the gradient's. */
  ghost predicate ShowsQuad(v: View, q: Quad3D, width: int, height: int, m: map<Pixel, Color>, p: Pixel, dragging: bool)
    requires InFrontOrBehind(v, q)
  {
    p in m && (if dragging then m[p] == q.centerColor else QuadAllows(v, q, width, height)(p, m[p]))
  }

  /** Every pixel shows the last quad that contributes it. */
  ghost predicate Layered(v: View, quads: seq<Quad3D>, width: int, height: int, m: map<Pixel, Color>, dragging: bool)
    requires Projectable(v, quads)
  {
    forall i, p :: OnTop(v, quads, i, p, width, height) ==>
                     ShowsQuad(v, quads[i], width, height, m, p, dragging)
  }

  lemma NothingLayered(v: View, quads: seq<Quad3D>, width: int, height: int, m: map<Pixel, Color>, dragging: bool)
    ensures Layered(v, quads[..0], width, height, m, dragging)
  {
  }

  /** The quad just drawn hides the others; pixels outside it keep the quad they showed. */
  lemma OneQuadMore(v: View, quads: seq<Quad3D>, q: Quad3D, width: int, height: int,
                    before: map<Pixel, Color>, after: map<Pixel, Color>, dragging: bool)
    requires Projectable(v, quads) && InFrontOrBehind(v, q)
    requires Layered(v, quads, width, height, before, dragging)
    requires dragging ==> after == Paint(before, QuadPixels(v, q, width, height), q.centerColor)
    requires !dragging ==> Repainted(before, after, QuadPixels(v, q, width, height), QuadAllows(v, q, width, height))
    ensures Projectable(v, quads + [q]) && Layered(v, quads + [q], width, height, after, dragging)
  {
    hide QuadPixels, InFrontOrBehind, QuadAllows;
    var more := quads + [q];
    forall i, p | OnTop(v, more, i, p, width, height)
      ensures ShowsQuad(v, more[i], width, height, after, p, dragging)
    {
      if i < |quads| {
        assert more[|quads|] == q && forall j :: 0 <= j < |quads| ==> more[j] == quads[j];
        assert OnTop(v, quads, i, p, width, height);
      }
    }
  }
}
