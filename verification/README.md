# Verified models of GuppyScreen's self-contained algorithms

GuppyScreen is a touch-screen interface for Klipper printers. Behind its widgets it contains a
few algorithms that can be stated and proved on their own. This project models them in Dafny,
with the drawing surface, the text areas and the widgets replaced by plain state, and proves
what they promise.

* **Bed mesh renderer** (`src/bedmesh_panel.cpp`). `Triangles` says, independently of any loop,
  which pixels a triangle covers; `Accuracy` relates that set to the exact triangle of real
  points; `Shading` says which colours a gradient may leave and `ShadeAccuracy` how far they are
  from the exact ones; `Rasterizer` proves both scan-line fills against these specifications.
  `ViewLaws` says which way the view turns and points move on the screen. `Projection`, `BedMap` and `FovFit` treat the perspective
  projection, the index-to-bed transform and the search for the largest zoom, `BoxFit` why fitting
  eight corners fits everything between them (`Mixes` is the arithmetic of weighted means).
  `MeshQuads` and
  `BedMeshPanels` put the surface together: between any two pixels that can be joined by a walk
  over neighbouring drawn facets along a scan line nothing is left unpainted, and overlapping
  quads show the nearest one drawn.
* **Touch calibration** (`lv_touch_calibration/`). `Calibration` is the affine solve by Cramer's
  rule, `Crosshairs` the automatic points and the rotation switch, `CalibrationRun` the protocol
  as a state machine with its theorems over all runs, `TouchCalibration` the objects that are
  updated in place, each method proved to be a step of that machine.
* **Console** (`src/console_panel.cpp`). `ConsoleLog` is the bounded log, `Keywords` and
  `CategoryTable` the keyword partition, `CommandNames` the sorted list of commands on offer,
  `HistoryFavorites` the history and favourites. `Screens` is the console with its command browser
  as a value, with its theorems over all runs of events; `Browser` is the object with its pool of
  rows, each event proved to be a step of `Screens`; `ScreenLaws` tells what the keys and taps do.
* **Configuration upgrade** (`src/config.cpp`). `JsonTrees` is the tree with access by pointer,
  `ConfigMigration` the upgrade as a transformation, `ConfigFile` the object whose `Init` edits
  its tree step by step.

Doubles and floats are Dafny's exact `real`; C's division and casts toward zero are `TruncDiv`
and `Trunc`. Sine and cosine of the two view angles are fields with `c*c + s*s == 1` where that
matters. The number of taps per crosshair is a parameter of at least 1.

Where the code differs from what its comments or documentation say, the model follows the code:

* The start delay is documented to keep the opening press from being registered. A finger held
  through the delay counts on a newly built screen (`CalibrationRun.PressAfterDelay` gives the
  exact condition).
* Mesh rows are mirrored before the physical transform is applied, so an off-centre row is drawn
  at the place of its mirror image (`BedMap.RowsAreMirrored`).
* The camera is moved back to avoid clipping, but a point can still end up level with it or
  behind it: at the largest height scale a 6 mm peak in the middle of the mesh does at every tilt
  of up to 31 degrees (`BedMeshPanels.BedMeshPanel.PeakPassesCamera`). The exact conditions are
  `Projection.FrontAtTilt` and `Projection.FrontAtEveryView`.
* The culling is commented as skipping quads that are completely off the screen; it also skips a
  quad so large that its four corners are far outside while it covers the canvas
  (`MeshQuads.CullingSkipsLargeQuads`; `MeshQuads.QuadIsSeen` gives the exact condition).
* A `default_macros` entry that is not an object is replaced by an object holding only
  `cooldown` (an exception listed in `ConfigMigration.Overwritten`).

## Model

| member | source | states |
|---|---|---|
| Triangles.CoversIsSpan | src/bedmesh_panel.cpp:1095-1126 | between two triangle edges, symmetric in the corners, is on each scan line of a sorted triangle exactly the closed span from the bent side to the long side; flat tops, flat bottoms and the middle corner included |
| Triangles.CoversIgnoresOrder | src/bedmesh_panel.cpp:1088-1090 | naming the three corners in another order covers the same pixels |
| Triangles.EdgeErrorBelowOnePixel | src/bedmesh_panel.cpp:1099-1123 | the truncated edge column is less than one pixel from the exact edge |
| Triangles.EdgePixelIsCovered | src/bedmesh_panel.cpp:1095-1126 | the pixel of an edge crossing a scan line lies in the span of every triangle that has this edge, in either direction |
| Triangles.ChainHasNoCracks | src/bedmesh_panel.cpp:1085-1146 | along any chain of triangles, each sharing with the next an edge that crosses the scan line, everything between two covered pixels is covered |
| Accuracy.TriangleIsFilled | src/bedmesh_panel.cpp:1085-1146 | every lattice point that is a convex combination of the corners of a triangle that is not flat is covered |
| Accuracy.CornersAreCovered | src/bedmesh_panel.cpp:1085-1146 | the corners of a triangle that is not flat are covered |
| Accuracy.CoveredIsNear | src/bedmesh_panel.cpp:1095-1145 | every covered pixel has a real point of the triangle on its scan line less than one pixel away |
| Accuracy.CoveredInBoundingBox | src/bedmesh_panel.cpp:1095-1145 | covered pixels stay inside the triangle's bounding box |
| Shading.SegmentsTile | src/bedmesh_panel.cpp:1250-1260 | for every row longer than 3 pixels there are a quarter as many gradient segments as pixels, at most 6; they are at least 4 pixels wide, in order, adjacent, and cover the row exactly, so the empty-segment skip never fires |
| Shading.ShadeInHull | src/bedmesh_panel.cpp:1187-1279 | a gradient pixel has no channel outside the range of the corner colours |
| ShadeAccuracy.LerpIsNear | src/bedmesh_panel.cpp:1190-1211 | an interpolated channel is less than 1 from the exact value, on the side of the first colour, and exact at both ends |
| ShadeAccuracy.EdgeColorAtEnds | src/bedmesh_panel.cpp:1187-1211 | an edge starts in the colour of its upper vertex and ends in that of its lower one |
| ShadeAccuracy.EdgeColorIsNear | src/bedmesh_panel.cpp:1187-1211 | in between each channel is less than 1 from the exact interpolation |
| ShadeAccuracy.RowShadeIsNear | src/bedmesh_panel.cpp:1222-1279 | a pixel of a row of more than 3 canvas pixels is within 2 plus half a segment's share of the exact interpolation of the row's exact ends, on a shorter one within 1.5 of their mean |
| Rasterizer.FillTriangle | src/bedmesh_panel.cpp:1085-1146 | in-place fill: exactly the covered on-canvas pixels get the colour, every other pixel keeps its own; every row drawn lies on the canvas |
| Rasterizer.RowEnds | src/bedmesh_panel.cpp:1097-1126 | the branchy interpolation gives the two ends of the span in order, for upper half, lower half and flat cases |
| Rasterizer.FillTriangleGradient | src/bedmesh_panel.cpp:1149-1286 | with exact fractions it paints exactly the pixels FillTriangle paints, each in a colour interpolated from its row's ends; nothing else changes |
| Rasterizer.InterpolateEdge | src/bedmesh_panel.cpp:1182-1212 | column and colour through the real fraction t agree with the integer multiply-then-divide of the solid fill |
| Rasterizer.DrawGradientRow | src/bedmesh_panel.cpp:1222-1283 | one clipped row is painted without gap or overlap, each pixel in the colour of a column at most half a segment away, short rows in the average |
| Rasterizer.PixelsIgnoreOrder | src/bedmesh_panel.cpp:1088-1090 | the painted set does not change under any reordering of the vertices |
| Rasterizer.GradientStaysInHull | src/bedmesh_panel.cpp:1187-1279 | whatever the vertex order, gradient colours stay in the range of the three vertex colours, so clamping to 0..255 changes nothing |
| Rasterizer.GradientIsAccurate | src/bedmesh_panel.cpp:1149-1286 | whatever the vertex order, each pixel of a gradient triangle lies between two of its sides and each channel is within that bound of the exact interpolation between the exact colours of those sides on its scan line |
| Rasterizer.UniformGradientIsSolid | src/bedmesh_panel.cpp:1384-1409 | on a triangle of one colour the gradient fill leaves pixel for pixel what the solid fill leaves |
| Projection.RotationIsIsometry | src/bedmesh_panel.cpp:1034-1057 | before perspective the view keeps the squared length of the mapped, height-scaled point |
| ViewLaws.TurnsAboutZAdd | src/bedmesh_panel.cpp:1041-1048 | the turn about the vertical axis does nothing at angle 0, takes x to y at 90 degrees, and two turns are the turn by the sum of the angles |
| ViewLaws.TiltsAdd | src/bedmesh_panel.cpp:1050-1057 | the tilt only negates height at angle 0, takes y to depth and height to y at 90 degrees, and tilts add up once that sign is put back |
| ViewLaws.RightIsRight | src/bedmesh_panel.cpp:1031-1065 | unturned, of two points at one positive depth the one further right on the bed is further right on the screen, and conversely |
| ViewLaws.LargerYIsLower | src/bedmesh_panel.cpp:1031-1065 | unturned and at one height the point with the larger y is lower on the screen if and only if the height is below the camera distance times the tilt's cosine |
| ViewLaws.HigherIsHigher | src/bedmesh_panel.cpp:1031-1065 | unturned and at one y the higher point is higher on the screen if and only if y is below the camera distance times minus the tilt's sine |
| ViewLaws.OriginOnScreen | src/bedmesh_panel.cpp:1067-1071 | the bed centre is drawn in the middle of the canvas right of the 85 pixel band, two fifths down |
| ViewLaws.OffsetsTruncate | src/bedmesh_panel.cpp:1067-1071 | screen offsets from there are the exact ones truncated toward the centre, in all four directions |
| Projection.NearPointsAreInFront | src/bedmesh_panel.cpp:1034-1065 | a mapped point nearer to the origin than the camera distance has strictly positive depth for every pair of view angles |
| Projection.FrontAtTilt | src/bedmesh_panel.cpp:1041-1060 | at a given tilt a point at distance rho from the vertical axis is in front of the camera at every turn about that axis if and only if rho times the sine's size plus displayed height times the cosine is below the camera distance |
| Projection.FrontAtEveryView | src/bedmesh_panel.cpp:1041-1060 | a mapped point is in front of the camera at every pair of view angles if and only if its distance from the bed centre is below the camera distance |
| Projection.PerspectiveIsLinear | src/bedmesh_panel.cpp:1062-1065 | scaling the field of view scales both screen offsets and leaves depth alone |
| Projection.MeasuredOffsetError | src/bedmesh_panel.cpp:1067-1071 | truncated screen offsets differ from the exact ones by less than 1.5 pixels in x and 2 in y |
| BedMap.AxisMapsIndices | src/bedmesh_panel.cpp:1449-1459 | index coordinate (i - n/2)*50 goes to ws*(physical position - bed centre), for every i and n of at least 2 |
| BedMap.SingleColumnMapsIndex | src/bedmesh_panel.cpp:1453-1459 | with one column the same goal is met if and only if the scaled extent is exactly 50 |
| BedMap.RowsAreMirrored | src/bedmesh_panel.cpp:1310-1310 | a mesh row is drawn at its own physical place if and only if it is the middle row |
| BedMap.LongerSideFillsSpan | src/bedmesh_panel.cpp:1443-1449 | the longer bed side becomes exactly 300 world units and the aspect ratio is kept |
| BedMap.MeshStaysInsideOutline | src/bedmesh_panel.cpp:1449-1462 | every probe point of a mesh inside the bed frame is drawn inside the outline |
| BedMap.AxisScalePositive | src/bedmesh_panel.cpp:1456-1473 | the derived scales are positive, so the outline's and the fit's divisions are defined |
| BedMap.PositionsSpanExtent | src/bedmesh_panel.cpp:1449-1452 | the first probe lies at the lower end of the extent, the last one at the upper, all evenly spaced |
| BedMap.IndexCoordSteps | src/bedmesh_panel.cpp:1309-1312 | index coordinates are 50 units apart and n/2 is in the middle |
| FovFit.TightenIsExact | src/bedmesh_panel.cpp:1535-1538 | one step of the search removes exactly the zooms that push the new offset out of the box |
| FovFit.PaddedBox | src/bedmesh_panel.cpp:1522-1527 | the padded box is the canvas right of the band less 5 percent of the canvas on each side, seen from the projection origin |
| FovFit.BoxSurroundsOrigin | src/bedmesh_panel.cpp:1522-1527 | the padded box contains the projection origin exactly for canvases at least 95 pixels wide and 1 high, and is empty in x below |
| FovFit.BestFitUnique | src/bedmesh_panel.cpp:1518-1541 | there is only one largest fitting zoom |
| FovFit.GuardKeepsFit | src/bedmesh_panel.cpp:1542-1542 | after the guard the measured corners fit if and only if the best zoom was at least 0.2 |
| FovFit.ExactCornerNearlyFits | src/bedmesh_panel.cpp:1518-1543 | the exact projection of a fitting corner leaves the box by less than 2k pixels |
| FovFit.RefinedViewNearlyFits | src/bedmesh_panel.cpp:1503-1544 | the same for every corner of the refined view, when the best fit is at least 0.2 |
| BoxFit.SegmentInSight | src/bedmesh_panel.cpp:1034-1071 | whatever lies between two points that are in front of the camera and inside the widened padded canvas is so too |
| BoxFit.RefinedViewShowsBox | src/bedmesh_panel.cpp:1503-1544 | when the eight corners of the box are in front of the camera and the best zoom k is at least 0.2, every point of the box is projected less than 2k pixels outside the padded canvas |
| MeshQuads.SurfaceHeight | src/bedmesh_panel.cpp:1298-1304 | the surface is scaled to 80 units between its lowest and highest point, except by 120 below a range of 2/3 mm, by 35 above 16/7 mm, and by 60 when flat |
| MeshQuads.GridSteps | src/bedmesh_panel.cpp:1309-1320 | grid points are 50 units apart, row 0 at the largest y, heights from mid-range |
| MeshQuads.ColorOfMeanHeight | src/bedmesh_panel.cpp:1335-1345 | while dragging a cell has the colour of the mean of its four heights |
| MeshQuads.QuadIsSeen | src/bedmesh_panel.cpp:1361-1410 | a quad contributes exactly the canvas pixels that one of its two triangles covers if at least one projected corner is less than 50 pixels off the canvas, and otherwise nothing |
| MeshQuads.CullingSkipsLargeQuads | src/bedmesh_panel.cpp:1370-1382 | so a quad that covers the canvas is skipped when all its corners are far outside |
| MeshQuads.SurfaceIgnoresOrder | src/bedmesh_panel.cpp:1351-1358 | sorting the quads by depth does not change which pixels the surface occupies |
| MeshQuads.DiagonalIsShared | src/bedmesh_panel.cpp:1384-1396 | the two triangles of a quad share the projected edge 1-2 |
| MeshQuads.RightBorderIsShared | src/bedmesh_panel.cpp:1309-1334 | horizontally neighbouring quads share a projected edge |
| MeshQuads.LowerBorderIsShared | src/bedmesh_panel.cpp:1309-1334 | vertically neighbouring quads share a projected edge |
| MeshQuads.SharedEdgeIsPaintedTwice | src/bedmesh_panel.cpp:1085-1146 | on every canvas scan line met by a shared non-horizontal edge both fills paint the same edge pixel, if it is on the canvas |
| MeshQuads.SurfaceHasNoCracks | src/bedmesh_panel.cpp:1289-1410 | for the quads GenerateMeshQuads returns and any walk over drawn facets, each step over a cell's diagonal or the border to its left, right, upper or lower neighbour where that edge crosses the scan line: every pixel between two pixels of the walk on that line is painted |
| MeshQuads.NearestOnTop | src/bedmesh_panel.cpp:1351-1358 | with the quads sorted back to front, the last quad to contribute a pixel has the smallest average depth of all that contribute it |
| BedMeshPanels.BedMeshPanel.SetupWorldTransform | src/bedmesh_panel.cpp:1413-1463 | identity layout without a usable extent; otherwise, along an axis with at least two columns or rows, the transform maps every column and mirrored row index to its scaled distance from the chosen bed's centre, with positive scale; along an axis with one, scale 1 and the source's offset, which misses that place unless the scaled extent is 50 (see BedMap.SingleColumnMapsIndex) |
| BedMeshPanels.BedMeshPanel.GridIsPlaced | src/bedmesh_panel.cpp:1413-1463 | with at least two rows and columns each mesh point lies at its column's and its mirrored row's distance from the centre of the configured area, or of the mesh where that is missing or empty, scaled so that its longer side is 300 |
| BedMeshPanels.BedMeshPanel.MeshStaysOnBed | src/bedmesh_panel.cpp:1443-1462 | after that, every grid point of a mesh probed inside the bed is mapped between plus and minus half the bed on both axes, and the bed measures at most 300 units |
| BedMeshPanels.BedMeshPanel.MeshIsInFront | src/bedmesh_panel.cpp:1034-1065 | such a grid point has positive depth at every pair of view angles while 2*150^2 plus its squared displayed height is below the squared camera distance |
| BedMeshPanels.BedMeshPanel.PeakPassesCamera | src/bedmesh_panel.cpp:1034-1065 | beyond that bound it can fail: with camera distance 450 and height scale 5 a 6 mm peak in the middle of a 3 by 3 mesh has no positive depth if and only if the cosine of the tilt is at least 6/7 |
| BedMeshPanels.BedMeshPanel.OutlineCorners | src/bedmesh_panel.cpp:1465-1487 | the outline's pre-transform corners are mapped to plus and minus half the bed |
| BedMeshPanels.BedMeshPanel.BoxCornersSpanBed | src/bedmesh_panel.cpp:1508-1516 | so are the eight corners measured by the fit, at both heights |
| BedMeshPanels.BedMeshPanel.LargestFit | src/bedmesh_panel.cpp:1529-1541 | the three nested loops find the largest zoom up to 5 that keeps all eight measured corners in the padded box |
| BedMeshPanels.BedMeshPanel.RefineFovToFill | src/bedmesh_panel.cpp:1503-1544 | the field of view is multiplied by the guarded best zoom and the user zoom; when the corners are in front of the camera, the best zoom is at least 0.2 and the user has not zoomed, the whole box is then shown up to twice the best zoom in pixels |
| BedMeshPanels.BedMeshPanel.MeshIsShown | src/bedmesh_panel.cpp:1503-1602 | and with it every grid point of a mesh probed inside the bed, for every height between the lowest and the highest probe |
| BedMeshPanels.BedMeshPanel.GenerateMeshQuads | src/bedmesh_panel.cpp:1289-1349 | one quad per cell in row order, its corners equal to the four grid points and its colours to theirs |
| BedMeshPanels.BedMeshPanel.DrawQuad | src/bedmesh_panel.cpp:1361-1410 | a culled quad changes nothing (which ones are culled: MeshQuads.QuadIsSeen); otherwise the union of its two triangles is painted, the same pixels whether dragging or not, in the centre colour or in the second triangle's gradient over the first's |
| BedMeshPanels.QuadIsAccurate | src/bedmesh_panel.cpp:1399-1409 | a pixel of a gradient quad keeps within the corner colours of one of its triangles and fits the exact colours of two sides of it |
| BedMeshPanels.BedMeshPanel.DrawSurface | src/bedmesh_panel.cpp:1648-1651 | the quad loop paints exactly the union of the unculled quads, every canvas pixel covered by a quad with a corner near the canvas included, leaves every other pixel alone, and each painted pixel has a colour of the last quad that contributes it |
| Calibration.SolveIsExact | lv_touch_calibration/lv_tc.c:89-135 | the coefficients are finite exactly for non-collinear touch points and then send each touch point to its screen point |
| Calibration.TapsHitCrosshairs | lv_touch_calibration/lv_tc.c:161-173 | rounding included, transforming a calibration tap gives its screen point |
| Calibration.TransformRounds | lv_touch_calibration/lv_tc.c:161-173 | any touch goes to the point nearest to its affine image, exact halves away from zero, when the coefficients are valid, and is left alone when they are not |
| Calibration.SolveIsUnique | lv_touch_calibration/lv_tc.c:89-135 | no other affine map sends the three touch points to the three screen points |
| Calibration.DeterminantIsAreaRatio | lv_touch_calibration/lv_tc.c:89-135 | a*e - b*d times the signed touch area is the signed screen area, so it is not zero for crosshairs off one line |
| Calibration.InvertibleIsInjective | lv_touch_calibration/lv_tc.c:161-166 | with a non-zero determinant different touch positions keep different images before rounding |
| Calibration.KeepsBarycentric | lv_touch_calibration/lv_tc.c:161-166 | before rounding every point keeps its barycentric coordinates |
| Crosshairs.AutoPointsOnScreen | lv_touch_calibration/lv_tc_screen.c:174-188 | the automatic crosshairs lie on the screen if and only if both sides have at least 7 pixels |
| Crosshairs.AutoPointsPlaces | lv_touch_calibration/lv_tc_screen.c:174-188 | they are 15 percent of the shorter side inside: top left, top right, and at the bottom in the middle column |
| Crosshairs.AutoPointsSpanArea | lv_touch_calibration/lv_tc_screen.c:174-188 | on every such screen they are not collinear |
| Crosshairs.RotationIsBijection | lv_touch_calibration/lv_tc_screen.c:259-287 | the rotation switch is a bijection and takes exactly the logical screen to the native one |
| Crosshairs.RotationOfCorners | lv_touch_calibration/lv_tc_screen.c:259-287 | which way it turns: the native places of the logical screen's corners in each orientation |
| Crosshairs.RotationKeepsArea | lv_touch_calibration/lv_tc_screen.c:259-287 | in every orientation the switch keeps signed area |
| Crosshairs.NativeCrosshairsAreUsable | lv_touch_calibration/lv_tc_screen.c:174-288 | the points handed to the solver are never collinear; they lie on the native screen with software rotation, on the application's screen without |
| CalibrationRun.RunAccountsForTaps | lv_touch_calibration/lv_tc_screen.c:190-289 | after any run of events the counted taps split into full groups whose truncated means are the stored touch points and a started group whose sum is the accumulator; at the finish the coefficients belong to those points |
| CalibrationRun.TapsMatchStep | lv_touch_calibration/lv_tc_screen.c:204-245 | (step - 1)*N + tapCount is the number of taps counted since the first step, and tapCount stays below N between samples |
| CalibrationRun.CountedWasTapped | lv_touch_calibration/lv_tc_screen.c:190-224 | every point counted is the raw point of a pressed sample that was a tap |
| CalibrationRun.MeanTruncates | lv_touch_calibration/lv_tc_screen.c:214-219 | the stored mean is the exact average without its fraction, in both coordinates and for either sign |
| CalibrationRun.FinishedRun | lv_touch_calibration/lv_tc_screen.c:190-294 | a finished run counted exactly 3N taps, stored the truncated mean of each third, and maps each mean exactly onto its rotated crosshair unless the means are collinear |
| CalibrationRun.ReleaseBetweenTaps | lv_touch_calibration/lv_tc_screen.c:190-202 | between any two counted taps of any run there is a released sample |
| CalibrationRun.PressAfterDelay | lv_touch_calibration/lv_tc_screen.c:76-111 | the first press after the start delay counts if and only if input was enabled at the start or the finger was lifted during the delay |
| CalibrationRun.GateDelivers | lv_touch_calibration/lv_tc.c:143-197 | after any run: a sample that leaves a shown screen unfinished is delivered as released at (0,0); among the others presses are transformed, the first release repeats the last press, later ones report (0,0) |
| CalibrationRun.PressIsDelivered | lv_touch_calibration/lv_tc.c:143-197 | so with valid coefficients a press that gets through after any run is delivered as the point nearest to its affine image, and so is the first release after it |
| CalibrationRun.DriverRemembersPassed | lv_touch_calibration/lv_tc.c:143-159 | the driver's two statics always describe the last sample that was passed through |
| CalibrationRun.MeanOfEqual | lv_touch_calibration/lv_tc_screen.c:214-219 | N taps on one spot average to that spot |
| CalibrationRun.CalibrationIsCorrect | lv_touch_calibration/lv_tc_screen.c:117-294 | end to end with automatic crosshairs, on every display: an invertible map that sends each mean tap to its crosshair's native point, which a display rotated in software, or not at all, turns back into the crosshair |
| TouchCalibration.TouchDriver.Compute | lv_touch_calibration/lv_tc.c:89-135 | stores the closed-form coefficients of the two point arrays, which map the second exactly onto the first when it is not collinear, and changes nothing else |
| TouchCalibration.TouchDriver.TransformSample | lv_touch_calibration/lv_tc.c:145-159 | new statics and delivered sample in the three cases press, first release, other release |
| TouchCalibration.CalibrationScreen.constructor | lv_touch_calibration/lv_tc_screen.c:117-134 | a new screen is enabled, fresh, and shows the automatic crosshairs |
| TouchCalibration.CalibrationScreen.Step | lv_touch_calibration/lv_tc_screen.c:232-290 | entering a step resets the tap group, stores the mean, and at the finish solves on the rotated crosshairs and saves |
| TouchCalibration.CalibrationScreen.NativePoints | lv_touch_calibration/lv_tc_screen.c:259-287 | the loop fills the array with the native image of every crosshair |
| TouchCalibration.CalibrationScreen.StartCalibration | lv_touch_calibration/lv_tc_screen.c:76-111 | starting is the machine's start event |
| TouchCalibration.CalibrationScreen.OnDelayElapsed | lv_touch_calibration/lv_tc_screen.c:345-350 | the timer is the machine's delay event |
| TouchCalibration.CalibrationScreen.ProcessInput | lv_touch_calibration/lv_tc_screen.c:204-230 | counts a tap between the first step and the finish, and only there |
| TouchCalibration.CalibrationScreen.InputCb | lv_touch_calibration/lv_tc_screen.c:190-202 | one sample is one step of the machine, passed on from the finish on |
| TouchCalibration.CalibrationScreen.ReadCb | lv_touch_calibration/lv_tc.c:179-197 | the driver callback is one read event of the machine with the machine's delivered sample |
| ConsoleLog.TrimAbsorbs | src/console_panel.cpp:381-401 | trimming before an append makes no difference after it |
| ConsoleLog.TrimIsLongestTail | src/console_panel.cpp:381-401 | the trimmed text is the longest suffix that starts at a line and holds at most 100 newlines |
| ConsoleLog.BoundedRefinesFull | src/console_panel.cpp:374-401 | after any run of appends the bounded log is the trimmed full log |
| ConsoleLog.BoundedLogOfSum | src/console_panel.cpp:374-401 | logging in batches leaves the same text as logging everything at once |
| ConsoleLog.CStrIsPrefix | src/console_panel.cpp:374-376 | what is logged of a line is everything before its first NUL |
| ConsoleLog.ReportForm | src/console_panel.cpp:21-26 | a temperature report is a line that starts with "ok T:" and a digit or minus sign, and no other |
| ConsoleLog.ReportsAreDropped | src/console_panel.cpp:363-372 | line by line a report is dropped and any other line stays in its place |
| ConsoleLog.OutputLog.AppendOutput | src/console_panel.cpp:374-379 | appends the line up to its first NUL and a newline, then trims |
| ConsoleLog.OutputLog.TrimOutputLines | src/console_panel.cpp:381-401 | the counting and searching loops cut exactly the surplus lines and never take the npos exit |
| ConsoleLog.OutputLog.ShowResponses | src/console_panel.cpp:363-372 | a batch of responses is logged without its temperature reports, in order |
| Keywords.MatchesKeys | src/console_panel.cpp:55-69 | true exactly when some non-empty bar-separated field is a substring of the command |
| Keywords.ContainedIsFactor | src/console_panel.cpp:60-61 | a keyword that is found splits the command into what is before and after it |
| Keywords.FactorIsContained | src/console_panel.cpp:60-61 | and whatever stands between two parts of a command is found |
| Keywords.OneKeyword | src/console_panel.cpp:55-69 | a single keyword matches if and only if it is not empty and occurs in the command |
| Keywords.JoinedKeywords | src/console_panel.cpp:55-69 | keywords joined by a bar match if and only if either side does |
| Keywords.GroupOf | src/console_panel.cpp:503-510 | the group chosen is the first one that matches |
| Keywords.MembersAreFirstMatches | src/console_panel.cpp:503-516 | a group lists exactly the commands whose first match it is, in input order |
| Keywords.SubsequenceHasPlaces | src/console_panel.cpp:503-516 | keeping the order means that every command listed has its place in the input, one behind the other |
| Keywords.PartitionConserves | src/console_panel.cpp:494-527 | the categories together hold every command exactly as often as the input |
| Keywords.CategoriesAreGroups | src/console_panel.cpp:518-526 | the categories are the groups with members, under their labels, in definition order, Other last |
| Keywords.ShownGroups | src/console_panel.cpp:518-526 | no empty group is shown and groups keep their order |
| Keywords.EveryGroupIsShown | src/console_panel.cpp:518-526 | no group with members is dropped |
| CategoryTable.NewBrowser | src/console_panel.cpp:34-45 | the panel's browser starts valid with the built-in category table |
| Keywords.BuildKeywordCats | src/console_panel.cpp:494-527 | the loops compute that partition |
| HistoryFavorites.HistoryIsFront | src/console_panel.cpp:417-424 | after any sent list the history is the front of the unbounded one, of length 20 or of the loaded length if that was larger |
| HistoryFavorites.HistoryOfSession | src/console_panel.cpp:417-424 | started empty it is the first 20 of the most-recent-first sent list with adjacent repeats collapsed |
| HistoryFavorites.HistoryShape | src/console_panel.cpp:417-424 | it has at most 20 entries, all of them sent, the last one sent in front, and none directly below itself |
| HistoryFavorites.ToggleKeepsDistinct | src/console_panel.cpp:790-801 | distinct favourites stay distinct and exactly the toggled command changes sides |
| HistoryFavorites.ToggleTwice | src/console_panel.cpp:790-801 | toggling twice restores the list if and only if the command was not in it or was last; otherwise it moves to the end |
| CommandNames.CommandListSelects | src/console_panel.cpp:349-358 | the list of commands is sorted and holds every name that is not empty and does not start with an underscore as often as it was sent, and nothing else |
| CommandNames.OrderByFirstDifference | src/console_panel.cpp:357-357 | the order is the ascending one of strings: a prefix first, else by the first differing character |
| CommandNames.SortedOnce | src/console_panel.cpp:357-357 | names have only one sorted arrangement, so the sorting algorithm does not matter |
| CommandNames.CollectNames | src/console_panel.cpp:350-357 | the loop and the sort compute that list |
| Screens.MatchingSelects | src/console_panel.cpp:643-650 | the filter keeps exactly the passing commands, in order and number |
| ScreenLaws.FilterIgnoresCase | src/console_panel.cpp:643-650 | a command passes the filter if and only if the typed text occurs in it somewhere, upper or lower case |
| ScreenLaws.FilterIsTyped | src/console_panel.cpp:637-697 | typing keeps the first 60 commands of the open list in which the text occurs, in order, and highlights the first |
| ScreenLaws.DownsMove | src/console_panel.cpp:746-768 | on either level k taps on Down from row h highlight row h + k or the last row and change nothing else |
| ScreenLaws.UpsMove | src/console_panel.cpp:746-768 | k taps on Up highlight row h - k or the first row |
| ScreenLaws.UpUndoesDown | src/console_panel.cpp:746-768 | Up after a Down that moved, and Down after an Up that moved, restore the screen |
| ScreenLaws.FirstKey | src/console_panel.cpp:746-758 | with no row highlighted either key takes the first row; without rows nothing happens |
| ScreenLaws.MenuIsOpened | src/console_panel.cpp:473-561 | the menu is Favorites, Recent, the keyword categories in order, All commands; opening it highlights the first and changes nothing else; going back leads from a list to it and from it to the terminal |
| ScreenLaws.CategoryIsOpened | src/console_panel.cpp:601-697 | tapping a line of the menu, or OK on it, shows its first 60 commands unfiltered, in order, with right stars and the first highlighted |
| ScreenLaws.RowIsChosen | src/console_panel.cpp:760-788 | tapping a row, or OK on it, puts exactly its command into the input line and brings the terminal to front |
| ScreenLaws.StarIsToggled | src/console_panel.cpp:790-810 | a star adds its command to the end of the favourites or takes it out, and only the Favorites list is shown anew |
| ScreenLaws.BrowserIsLeftAlone | src/console_panel.cpp:333-459 | typing, Clear, Send, loading and leaving change nothing of the browser's display |
| Browser.CommandBrowser.SetHighlight | src/console_panel.cpp:718-744 | exactly the addressed row of the active level is highlighted, the other level untouched |
| Browser.CommandBrowser.MoveHighlight | src/console_panel.cpp:746-758 | the highlight moves by delta, stops at the ends and starts at the first row |
| Browser.CommandBrowser.ShowCategories | src/console_panel.cpp:529-561 | the menu is Favorites, Recent, the keyword groups and all commands; first row highlighted, no command row visible |
| Browser.CommandBrowser.RebuildCommandList | src/console_panel.cpp:637-697 | visible rows are the first 60 matches in order, the first one alone highlighted, every star right |
| Browser.CommandBrowser.EnterCategory | src/console_panel.cpp:601-619 | a valid index opens that list with an empty filter, any other changes nothing |
| Browser.CommandBrowser.ToggleFavorite | src/console_panel.cpp:790-810 | the list is toggled and all stars are right afterwards if and only if no other visible row shows the same command, unless the Favorites list itself is rebuilt |
| Browser.CommandBrowser.SendCommand | src/console_panel.cpp:405-424 | an empty command is ignored, any other is pushed on the history |
| Browser.CommandBrowser.HandleSend | src/console_panel.cpp:434-444 | the input line is pushed on the history and emptied; an empty line is not sent |
| Browser.CommandBrowser.SelectCommand | src/console_panel.cpp:781-788 | the chosen match goes to the input line and the terminal comes to front |
| Browser.CommandBrowser.LoadAll | src/console_panel.cpp:333-361 | new data, the public names sorted and the rebuilt partition never disturb what is on display |
| Browser.CommandBrowser.ShowMode | src/console_panel.cpp:473-485 | the commands view starts at a fresh category menu; leaving it changes nothing but the mode |
| Browser.CommandBrowser.Confirm | src/console_panel.cpp:769-778 | OK opens the highlighted category or takes the highlighted command, and does nothing without one |
| Browser.CommandBrowser.HandleEvent | src/console_panel.cpp:434-839 | every user or server event, typing, Clear and Send included, keeps the browser's invariant and takes mode, level, highlight, open category, filter, input line, visible stars, menu, history and favourites to exactly the specified next screen |
| Browser.CommandBrowser.Run | src/console_panel.cpp:434-839 | so does every run of events; a history started or loaded empty is the first 20 of the lines sent since, most recent first, repeats collapsed; favourites stay distinct; and all visible stars are right if no favourites were loaded since the rows were drawn and no command is shown twice |
| Screens.HistoryOfRun | src/console_panel.cpp:405-444 | after any run of events the history is the front of the last loaded one with all lines sent since on top, of length 20 or of that one's if larger |
| Screens.FavoritesStayDistinct | src/console_panel.cpp:790-801 | in every run favourites without repeats stay so, if only such lists are loaded |
| Screens.StarsOfRun | src/console_panel.cpp:637-810 | after any run in which no favourites were loaded since the rows were last drawn, every visible star is right if the open list shows no command twice |
| Screens.CommandsOfRun | src/console_panel.cpp:349-361 | after any run the full list is sorted and it and the keyword categories together hold exactly the public names last sent by the server, as often as sent |
| Screens.LineOfRun | src/console_panel.cpp:434-459 | after any run the input line is what its last writer left: the line at the start, the text last typed, nothing after Clear or Send, or a command chosen from the category then open while it passed the filter then set |
| Screens.SentHasSource | src/console_panel.cpp:434-444 | everything sent in a run stood in the input line at its Send and was the line at the start, typed, or chosen in that way, with nothing written to the line in between |
| JsonTrees.PutThenGet | src/config.cpp:92-144 | a pointer is writable exactly when it is readable and reads back what was written |
| JsonTrees.PutElsewhere | src/config.cpp:92-144 | writing at a pointer leaves every value on another path alone |
| ConfigMigration.FirstStart | src/config.cpp:64-90 | the tree of a first start, member by member, with the printer k1 unless built for Android |
| ConfigMigration.FilledDevices | src/config.cpp:25-58 | the sensors and fans filled in, entry by entry |
| ConfigMigration.MigrateThrowsExactly | src/config.cpp:92-144 | init gets through if and only if the root, the printers and the default printer are objects or null and the printer's name is a string or null |
| ConfigMigration.MigrateFillsRoot | src/config.cpp:92-199 | every member of the root other than the printers ends with exactly the value in the table: display_rotate, touch_calibrated, prompt_emergency_stop, display_sleep_sec, default_extruder_temp, guppy_init_script, the two invert settings and their markers, config_path; all others unchanged |
| ConfigMigration.MigrateFillsPrinter | src/config.cpp:96-145 | every member of the default printer ends with exactly the value in the table (sensors, fans, macros, log_level; all others unchanged), other printers are left alone, and all are when none is the default |
| ConfigMigration.MigrateFillsMacros | src/config.cpp:113-134 | every macro entry ends with exactly the value in the table: cooldown, the two filament macros, all others unchanged |
| ConfigMigration.MigrateSettles | src/config.cpp:92-199 | the upgrade leaves nothing to fill in, repair or rename |
| ConfigMigration.UnchangedIffSettled | src/config.cpp:92-199 | init changes nothing exactly on trees with nothing left to do |
| ConfigMigration.MigrateIsIdempotent | src/config.cpp:68-202 | init applied to its own saved output changes nothing |
| ConfigMigration.MacrosKeep | src/config.cpp:113-134 | a macro object loses only the two dead names |
| ConfigMigration.PrinterKeeps | src/config.cpp:98-144 | a printer loses only an empty sensor array, a macro entry that is not an object, and dead macro names |
| ConfigMigration.MigrateKeepsUserValues | src/config.cpp:92-199 | a user value at any path, an empty object included, survives if and only if it is not one of the listed exceptions |
| ConfigFile.Config.Init | src/config.cpp:22-203 | the step-by-step edit through pointers throws exactly when the transformation does, otherwise computes it, writes the same tree to the file and remembers the path of the default printer |
| ConfigFile.Config.UpgradePrinter | src/config.cpp:96-145 | the printer part of the edit, including the one reference that can throw |
| ConfigFile.Config.UpgradeTouch | src/config.cpp:155-172 | a false touch flag without coefficients is treated as unset, and both members exist afterwards |
| ConfigFile.Config.UpgradedMacros | src/config.cpp:113-134 | the edits of the macro object compose to the specified upgrade |

## Left out

- LVGL widgets, layout, styles, fonts, images, keyboards, labels and timers; only the start-delay timer (as an event), visibility flags and text contents are kept.
- Web sockets, Moonraker, the file system, locks and logging; saving and parsing a configuration is assumed to give back the same tree.
- Float rounding and machine overflow: `real` and unbounded `int` are used, including `uint8_t` tap counters and 16-bit coordinates.
- The opacity with which rectangles are blended; a painted pixel simply takes its colour.
- Colour maps (a function parameter), the depth sort itself, axes, grid, ticks, labels, the gradient band and canvas resizing.
- calculate_dynamic_fov_scale: the square root of the diagonal; the fit is proved for any starting field of view.
- Projections with depth exactly zero, which divide by zero in C++: the projection requires a non-zero depth.
- BedMeshPanels.BedMeshPanel.RefineFovToFill: states nothing about the best zoom for canvases narrower than 95 pixels, whose padded box is empty.
- A configured probe area whose JSON arrays hold something other than numbers.
- lv_tc_screen_step's read of the crosshair at index -1 when it enters step 0, and the crosshair image position.
- Calibration.TransformPoint: gives no point when the divisor was zero, because C leaves converting an infinite or undefined float to a coordinate undefined.
- Several calibration screens or read callbacks at once, and coefficients set from outside during a run.
- The confirmation dialog while printing, and the echo of a sent command in the log.
- Single keystrokes: typing is one event with the resulting text, whatever it is; the text area's own limits on characters and length are not modelled, nor are commands that contain NUL.
- The wording of the empty-list message and the truncation footer of the command list.
- Input to widgets that are hidden on the current level; such events change nothing in the model. Widgets hidden with the whole terminal or browser view can still be used in it, which only adds runs.
- Browser.CommandBrowser.RebuildCommandList: requires that level 2 is shown, the only time its callers can reach it.
- ConfigMigration.MigrateThrowsExactly: takes the default printer's name as one plain pointer token; a name with `/` or `~`, a purely numeric one, `-` or the empty one is split, unescaped or used as an index by the JSON library, which is not part of this model.
- ConfigMigration.MigrateKeepsUserValues: the same.
- ConfigMigration.MigrateFillsPrinter: the same.
- ConfigFile.Config.Init: requires a default printer name that is one plain, non-numeric pointer token; the JSON library would split, unescape or index by other names. After an exception the tree in memory is left unspecified.
- Other panels (axis twist, calibration menu, belts, buttons), whose invariants follow from reading one branch.
