# Computer-graphics lab algorithms, modelled and verified in Dafny

This project models the computational core of a set of OpenGL lab programs. It also proves what those programs promise. The modelled programs are:

- **raster line, circle and ellipse algorithms**: DDA, Bresenham, midpoint circle and midpoint ellipse;
- **a line-graph plotter**;
- **three clipping algorithms**: Cohen–Sutherland and Liang–Barsky line clipping, and Sutherland–Hodgman polygon clipping;
- **homogeneous 3×3 transformations**:
  - the matrix builders, matrix multiplication and point transformation;
  - the composite transformations about a triangle's centroid;
  - the keyboard-driven mode state;
  - the pixel to normalized-device-coordinate conversion;
- **the `Perspective` camera class**: its clamping, shifting and key-dispatching methods.

Modelling conventions:

- Every emitted vertex (`glVertex*`) is an append to an output sequence, in emission order.
- C++ `float` is an exact `real`.
- C `round` (half away from zero) and float-to-int truncation are written out in `Numeric`.
- Reference parameters are method out-parameters.
- Program globals and the `Perspective` object are class fields updated in place.
- Loops in the source are loops here. Each is proved against a specification function, and the lemmas beside it say what that function means: the visible part of a segment, the nearest pixel row, a half-plane invariant, and so on.
- `cos θ` and `sin θ` are opaque parameters `c`, `s`.

Modules, with the source each one models:

| module | source |
|---|---|
| `Numeric` | C `abs`/`round`/truncation |
| `Geometry` | points, segments and the visible part of a segment |
| `Dda` | `Lab2/Question1.cpp` |
| `Bresenham` | `Lab2/Question2.cpp` |
| `MidpointCircle` | `Lab2/Question3.cpp` |
| `LineGraph` | `Lab2/Question4.cpp` |
| `TransformDemo` | `Lab2/Question5.cpp` |
| `MidpointEllipse` | `Lab3/Ellipse.cpp` |
| `Affine`, `Composite2D` | `Lab3/2DComposite.cpp` |
| `TransformModes`, `Transformations2D` | `Lab3/2DTransformations.cpp` |
| `CohenSutherland` | `Lab4/CohenSutherLand.cpp` |
| `LiangBarsky` | `Lab4/LiangBarsky.cpp` |
| `SutherlandHodgman` | `Lab4/SutherlandHodgemann.cpp` |
| `ClipAgreement` | the two line clippers compared |
| `PerspectiveProjection` | `Lab5/PerspectiveProjection.cpp` |

## Model

| member | source | states |
|---|---|---|
| Numeric.Round | Lab2/Question1.cpp:34 | the result is within ½ of the value, and a tie goes away from zero (C `round`) |
| Numeric.Trunc | Lab2/Question1.cpp:22 | float-to-int conversion drops the fraction toward zero: the result is the integer part for either sign |
| Numeric.RoundOfInt | Lab2/Question4.cpp:31 | rounding an integral coordinate returns it (the integer-endpoint DDA plots its own pixels) |
| Numeric.RoundOdd | Lab2/Question1.cpp:34 | `round` is symmetric about zero |
| Numeric.RoundCloseValues | Lab2/Question1.cpp:34-36 | values less than one apart round to integers at most one apart |
| Numeric.TruncOfInt | Lab2/Question1.cpp:22 | truncating an integral value returns it |
| Numeric.TruncMonotone | Lab2/Question4.cpp:38-46 | truncation preserves order |
| Dda.Steps | Lab2/Question1.cpp:19-22 | `steps` is max(\|dx\|, \|dy\|) truncated: n ≤ max < n + 1 |
| Dda.DdaPixels | Lab2/Question1.cpp:32-37 | exactly steps + 1 pixels are emitted, and the first is the rounded start point |
| Dda.DrawLineDda | Lab2/Question1.cpp:17-39 | the loop emits exactly the pixel sequence `DdaPixels` defines |
| Dda.AdvanceClosedForm | Lab2/Question1.cpp:35-36 | i accumulated increments equal start + i·increment |
| Dda.DdaLastIsRoundedEnd | Lab2/Question1.cpp:24-37 | with at least one step, the last pixel is the rounded end point |
| Dda.DdaShortSegment | Lab2/Question1.cpp:22-37 | a segment shorter than one unit on both axes (steps = 0) emits only the rounded start point |
| Dda.DominantAxis | Lab2/Question1.cpp:24-36 | along the longer axis of an integer segment the coordinate moves exactly one unit per step |
| Dda.MinorAxis | Lab2/Question1.cpp:24-36 | along the shorter axis consecutive rounded coordinates differ by at most one |
| Dda.DdaIntegerStep | Lab2/Question1.cpp:32-37 | one step between integer endpoints moves one unit on the major axis and at most one on the minor |
| Dda.DdaIntegerEndpoints | Lab2/Question1.cpp:19-37 | between integer endpoints steps = max(\|dx\|, \|dy\|), and the pixels start and end exactly at the endpoints |
| Dda.DdaIntegerPath | Lab2/Question1.cpp:32-37 | between integer endpoints the pixels form an 8-connected path advancing one unit per step on the major axis |
| Bresenham.LowSpec | Lab2/Question2.cpp:17-48 | definition of what `bresenhamLow` emits: one pixel per column from x1 to x2 (none when x1 > x2), the i-th one `Row` rows from y1 toward y2; `RowIsNearest` proves `Row` is the row nearest the true line |
| Bresenham.HighSpec | Lab2/Question2.cpp:51-82 | definition of what `bresenhamHigh` emits: `LowSpec` with the axes swapped, one pixel per row from y1 to y2 |
| Bresenham.DecisionStep | Lab2/Question2.cpp:37-45 | the incremental updates of d track the decision term 2a(i+1) − 2b·k − b after each choice |
| Bresenham.BresenhamLow | Lab2/Question2.cpp:17-48 | the loop emits x1..x2 with the rows `LowSpec` defines (nothing when x1 > x2) |
| Bresenham.BresenhamHigh | Lab2/Question2.cpp:51-82 | the steep routine emits y1..y2 with the columns `HighSpec` defines |
| Bresenham.RowIsNearest | Lab2/Question2.cpp:29-45 | each emitted minor coordinate is the integer nearest the ideal line, ties to the smaller |
| Bresenham.NearestUnique | Lab2/Question2.cpp:37 | the nearest row is unique, so the decision rule determines it |
| Bresenham.NearestInRange | Lab2/Question2.cpp:33-45 | the nearest row of a shallow segment lies between the two endpoint rows |
| Bresenham.RowStep | Lab2/Question2.cpp:37-41 | the minor coordinate moves by zero or one per step |
| Bresenham.RowRange | Lab2/Question2.cpp:33-45 | the minor coordinate stays within [0, \|dy\|] and ends at \|dy\| |
| Bresenham.HighIsTransposedLow | Lab2/Question2.cpp:51-82 | `bresenhamHigh` is `bresenhamLow` with the axes exchanged, in both directions |
| Bresenham.LowSpecLine | Lab2/Question2.cpp:17-48 | for a shallow segment: first pixel the start, last the end, x one step at a time, y nearest and moving by at most one |
| Bresenham.HighSpecLine | Lab2/Question2.cpp:51-82 | the steep counterpart of `LowSpecLine` |
| Bresenham.SpecsAreDeterministic | Lab2/Question2.cpp:17-82 | each routine's specification admits exactly one output |
| Bresenham.DrawLineBresenham | Lab2/Question2.cpp:85-117 | dispatch on \|dy\| < \|dx\| with endpoints ordered; max(\|dx\|, \|dy\|) + 1 pixels whose ends are the two endpoints |
| MidpointCircle.Octants | Lab2/Question3.cpp:14-26 | eight points, the first (xc + x, yc + y) |
| MidpointCircle.OctantsSymmetric | Lab2/Question3.cpp:17-24 | the eight points are closed under both mirror lines through the centre and under the diagonal swap |
| MidpointCircle.Plot | Lab2/Question3.cpp:43-60 | eight points per visited octant point |
| MidpointCircle.DecisionStep | Lab2/Question3.cpp:50-57 | the two updates of d keep it equal to the circle function at the next midpoint |
| MidpointCircle.PlotAppend | Lab2/Question3.cpp:60 | each iteration appends the eight reflections of the new point |
| MidpointCircle.DrawCircleMidpoint | Lab2/Question3.cpp:29-62 | the loop emits the reflections of exactly the octant walk `Arc(r)` |
| MidpointCircle.HeadStep | Lab2/Question3.cpp:46-58 | one iteration keeps x ≥ 0 and (x, y) within half a pixel of the circle |
| MidpointCircle.Arc | Lab2/Question3.cpp:31-61 | definition of the octant points the loop visits from (0, r): x grows by one per step, y drops by one exactly when the decision term is not negative, until x ≥ y; `ArcShape` and `BandWithinRadius` state its meaning |
| MidpointCircle.ArcFromShape | Lab2/Question3.cpp:46-61 | from a loop head the walk advances x by one and y by zero or one, within the band |
| MidpointCircle.ArcShape | Lab2/Question3.cpp:31-61 | the walk starts at (0, r), each point is within half a pixel of the circle, and it stops once x ≥ y |
| MidpointCircle.BandWithinRadius | Lab2/Question3.cpp:46 | band points with x ≥ 0 have x ≤ r |
| MidpointCircle.AxisPointsPlotted | Lab2/Question3.cpp:43 | the first eight points are the four axis points at distance r |
| MidpointCircle.PlotPrefix | Lab2/Question3.cpp:43-61 | the output after n iterations is a prefix of the whole output |
| MidpointEllipse.Quadrants | Lab3/Ellipse.cpp:13-21 | four points, the first (xc + x, yc + y) |
| MidpointEllipse.QuadrantsSymmetric | Lab3/Ellipse.cpp:16-19 | the four points are closed under both mirror lines |
| MidpointEllipse.Plot | Lab3/Ellipse.cpp:36-77 | four points per visited quadrant point |
| MidpointEllipse.PlotAppend | Lab3/Ellipse.cpp:56 | each step appends the four reflections |
| MidpointEllipse.Decision1FlatCase | Lab3/Ellipse.cpp:38-45 | with ry = 0 the region-1 term is never negative |
| MidpointEllipse.Region1Decreases | Lab3/Ellipse.cpp:40-54 | region 1 terminates: rx²·y − ry²·x strictly decreases |
| MidpointEllipse.Decision1Step | Lab3/Ellipse.cpp:42-54 | the region-1 updates of p1 track 4·F(x + 1, y − ½) |
| MidpointEllipse.Decision2Step | Lab3/Ellipse.cpp:63-75 | the region-2 updates of p2 track 4·F(x + ½, y − 1) |
| MidpointEllipse.Terms1Initial | Lab3/Ellipse.cpp:25-38 | the initial dx, dy, p1 are the running terms at (0, ry) |
| MidpointEllipse.Terms1StepAcross | Lab3/Ellipse.cpp:42-48 | the p1 < 0 branch keeps the running terms |
| MidpointEllipse.Terms1StepDown | Lab3/Ellipse.cpp:49-54 | the p1 ≥ 0 branch keeps the running terms |
| MidpointEllipse.Terms1Tests | Lab3/Ellipse.cpp:40-45 | the float tests `dx < dy` and `p1 < 0` are the exact region and decision tests |
| MidpointEllipse.Terms2Initial | Lab3/Ellipse.cpp:59 | the hand-off p2 is the region-2 term at the hand-off point |
| MidpointEllipse.Terms1Drop | Lab3/Ellipse.cpp:51-53 | lowering y (dy −= 2rx², p1 −= dy) keeps the region-1 running terms |
| MidpointEllipse.Terms2Keep | Lab3/Ellipse.cpp:63-68 | the p2 > 0 branch keeps the region-2 running terms |
| MidpointEllipse.Terms2Across | Lab3/Ellipse.cpp:72-74 | advancing x (dx += 2ry², p2 += dx) keeps the region-2 running terms |
| MidpointEllipse.Terms2Advance | Lab3/Ellipse.cpp:63-75 | the p2 ≤ 0 branch keeps the region-2 running terms |
| MidpointEllipse.Terms2Test | Lab3/Ellipse.cpp:66 | the float test `p2 > 0` is the exact region-2 decision test |
| MidpointEllipse.ArcPlot | Lab3/Ellipse.cpp:23-79 | the whole output is the start point's reflections, then region 1's, then region 2's |
| MidpointEllipse.PlotConcat | Lab3/Ellipse.cpp:36-77 | plotting two regions one after the other plots their concatenation |
| MidpointEllipse.Region1From | Lab3/Ellipse.cpp:40-57 | definition of the region-1 walk: x grows by one per step and y drops by one exactly when the exact decision term is not negative, while the slope is above −1; `Region1Ends` and `Region1NotInside` state its meaning |
| MidpointEllipse.Region2From | Lab3/Ellipse.cpp:61-78 | definition of the region-2 walk: y drops by one per step down to 0 and x grows by one exactly when the decision term is not positive; `Region2Ends` states its meaning |
| MidpointEllipse.Arc | Lab3/Ellipse.cpp:23-79 | definition of all quadrant points visited: (0, ry), region 1, then region 2 from where region 1 stopped; `ArcShape` and `ArcPlot` state its meaning |
| MidpointEllipse.Walk1IsRegion1 | Lab3/Ellipse.cpp:40-57 | the incremental float loop visits exactly the exact region-1 walk |
| MidpointEllipse.Walk2IsRegion2 | Lab3/Ellipse.cpp:61-78 | the incremental float loop visits exactly the exact region-2 walk |
| MidpointEllipse.Walk1Across | Lab3/Ellipse.cpp:42-48 | one region-1 step without lowering y, on the running terms |
| MidpointEllipse.Walk1Down | Lab3/Ellipse.cpp:49-54 | one region-1 step lowering y, on the running terms |
| MidpointEllipse.Region1 | Lab3/Ellipse.cpp:40-57 | the region-1 loop emits the reflections of its walk and hands off the exact dx, dy at its last point |
| MidpointEllipse.Region2 | Lab3/Ellipse.cpp:61-78 | the region-2 loop emits the reflections of its walk |
| MidpointEllipse.MidpointEllipse | Lab3/Ellipse.cpp:23-79 | the whole routine emits the reflections of exactly `Arc(rx, ry)` |
| MidpointEllipse.Decision2Scaled | Lab3/Ellipse.cpp:59 | the float formula for p2, times four, is the integer region-2 term |
| MidpointEllipse.Region1Stepwise | Lab3/Ellipse.cpp:42-56 | region-1 points move one column right and zero or one row down |
| MidpointEllipse.Region2Stepwise | Lab3/Ellipse.cpp:63-77 | region-2 points move one row down and zero or one column right |
| MidpointEllipse.Region1Ends | Lab3/Ellipse.cpp:40-57 | region 1 stays in the first quadrant and stops where ry²·x ≥ rx²·y |
| MidpointEllipse.Region2Ends | Lab3/Ellipse.cpp:61-78 | region 2 takes one step per row and ends on the x-axis |
| MidpointEllipse.Region1NotInside | Lab3/Ellipse.cpp:45-54 | the region-1 rule never leaves a point more than half a pixel inside the ellipse |
| MidpointEllipse.AboveMoves | Lab3/Ellipse.cpp:42-54 | moving right keeps the upper midpoint outside; dropping a row makes it the decision term |
| MidpointEllipse.AboveStart | Lab3/Ellipse.cpp:30-31 | the start (0, ry) lies on the ellipse |
| MidpointEllipse.Region1PartNotInside | Lab3/Ellipse.cpp:36-57 | the start and the region-1 points are not inside the ellipse by more than half a pixel |
| MidpointEllipse.ArcShape | Lab3/Ellipse.cpp:23-79 | the arc starts at (0, ry), stays in the first quadrant, moves between neighbours and ends on the x-axis |
| LineGraph.DrawLineDdaInt | Lab2/Question4.cpp:18-36 | the integer-endpoint DDA draws max(\|dx\|, \|dy\|) + 1 pixels from endpoint to endpoint, as an 8-connected path |
| LineGraph.LoHiBounds | Lab2/Question4.cpp:120-133 | the scan's extremes are elements of the data and bound every element |
| LineGraph.LoHiSnoc | Lab2/Question4.cpp:123-133 | one more sample updates the extremes exactly as one loop iteration does |
| LineGraph.PaddedBounds | Lab2/Question4.cpp:135-140 | 10% padding widens the bounds and keeps every sample inside |
| LineGraph.DemoPoints | Lab2/Question4.cpp:109-118 | the ten samples `loadData` appends, in order; `DemoBounds` proves the bounds computed from them |
| LineGraph.Map | Lab2/Question4.cpp:38-46 | definition of `mapX`/`mapY`: the value's position in [lo, hi], scaled to size − 2·MARGIN, shifted by MARGIN and truncated; `MapEnds` and `MapMonotone` state its meaning |
| LineGraph.MapEnds | Lab2/Question4.cpp:38-46 | the low end of the range maps to MARGIN and the high end to size − MARGIN |
| LineGraph.MapMonotone | Lab2/Question4.cpp:38-46 | over a positive range the mapping never decreases |
| LineGraph.Graph.constructor | Lab2/Question4.cpp:15-16 | the globals start empty and zeroed |
| LineGraph.Graph.LoadData | Lab2/Question4.cpp:107-141 | appends the ten samples and sets each bound to the scanned extreme widened by 10% of the range; all samples lie inside |
| LineGraph.Graph.MapX | Lab2/Question4.cpp:38-41 | minX maps to MARGIN and maxX to WIDTH − MARGIN |
| LineGraph.Graph.MapY | Lab2/Question4.cpp:43-46 | minY maps to MARGIN and maxY to HEIGHT − MARGIN |
| LineGraph.Graph.SegmentsJoin | Lab2/Question4.cpp:66-73 | each segment runs from the k-th mapped sample to the next, so consecutive segments join |
| LineGraph.Graph.DrawGraph | Lab2/Question4.cpp:61-83 | one DDA segment per consecutive pair and one marker per sample, at the mapped positions |
| LineGraph.DemoBounds | Lab2/Question4.cpp:109-140 | the demo samples span at least x ∈ [1, 10] and y ∈ [45, 95], so both padded ranges are non-empty |
| LineGraph.ScanBounds | Lab2/Question4.cpp:120-133 | the scan loop leaves the least and greatest x and y of the samples |
| CohenSutherland.ComputeCode | Lab4/CohenSutherLand.cpp:31-45 | the code is 0 exactly when the point is in the window, and never has both LEFT and RIGHT or both BOTTOM and TOP |
| CohenSutherland.CodeBits | Lab4/CohenSutherLand.cpp:35-42 | each bit is set exactly when the point is beyond that side |
| CohenSutherland.Chosen | Lab4/CohenSutherLand.cpp:78-97 | the side handled is one of the four and is a bit of the outside code |
| CohenSutherland.StraddlesApart | Lab4/CohenSutherLand.cpp:62-97 | when neither trivial case applies, the chosen side separates the endpoints, so the division is defined |
| CohenSutherland.CrossingTop | Lab4/CohenSutherLand.cpp:78-82 | the TOP crossing is the line's point at y = yMax |
| CohenSutherland.CrossingBottom | Lab4/CohenSutherLand.cpp:83-87 | the BOTTOM crossing is the line's point at y = yMin |
| CohenSutherland.CrossingRight | Lab4/CohenSutherLand.cpp:88-92 | the RIGHT crossing is the line's point at x = xMax |
| CohenSutherland.CrossingLeft | Lab4/CohenSutherLand.cpp:93-97 | the LEFT crossing is the line's point at x = xMin |
| CohenSutherland.Crossing | Lab4/CohenSutherLand.cpp:78-97 | definition of the intersection with the chosen window side (top, bottom, right, left in that order of priority); `CrossingIsLerp`, `CrossingCode` and the four `Crossing*` lemmas state its meaning |
| CohenSutherland.BoundBetween | Lab4/CohenSutherLand.cpp:78-97 | the chosen window bound lies between the endpoints' coordinates |
| CohenSutherland.CrossingIsLerp | Lab4/CohenSutherLand.cpp:78-97 | the crossing is a point of the current segment, on the chosen edge's line |
| CohenSutherland.CrossingCode | Lab4/CohenSutherLand.cpp:99-111 | the new point's code gains no bit and loses the chosen one |
| CohenSutherland.CodesShrink | Lab4/CohenSutherLand.cpp:54-113 | each pass removes a bit from the combined codes, so the loop terminates |
| CohenSutherland.CutOff | Lab4/CohenSutherLand.cpp:99-111 | the part cut off beyond the chosen edge contains no visible point |
| CohenSutherland.StepFirst | Lab4/CohenSutherLand.cpp:100-105 | replacing the first endpoint keeps the tracked sub-segment containing the visible part |
| CohenSutherland.StepSecond | Lab4/CohenSutherLand.cpp:106-111 | replacing the second endpoint keeps the tracked sub-segment containing the visible part |
| CohenSutherland.CrossingShrinks | Lab4/CohenSutherLand.cpp:78-111 | one pass strictly lowers the termination measure |
| CohenSutherland.AcceptIsVisiblePart | Lab4/CohenSutherLand.cpp:56-60 | at trivial accept, the tracked segment is exactly the visible part |
| CohenSutherland.RejectIsInvisible | Lab4/CohenSutherLand.cpp:62-66 | at trivial reject no point of the original segment is visible |
| CohenSutherland.Passes | Lab4/CohenSutherLand.cpp:54-113 | definition of the clipping loop: accept when both codes are 0, reject when they share a bit, else replace the outside endpoint by its crossing; it terminates because the codes lose a bit each pass (`CrossingShrinks`); `PassesCorrect` states its meaning |
| CohenSutherland.PassesCorrect | Lab4/CohenSutherLand.cpp:54-113 | the loop accepts exactly when some point of the segment is visible, and then outputs exactly the visible part |
| CohenSutherland.PassesInside | Lab4/CohenSutherLand.cpp:54-113 | accepted endpoints lie in the window |
| CohenSutherland.CohenSutherlandClip | Lab4/CohenSutherLand.cpp:48-116 | the loop returns `Passes`: accept iff some point is visible, and then the endpoints of the visible part |
| LiangBarsky.Boundaries | Lab4/LiangBarsky.cpp:34-41 | four (p, q) pairs for left, right, bottom and top |
| LiangBarsky.LiangBarskyClip | Lab4/LiangBarsky.cpp:25-90 | accept iff `Clip` is defined, and then the outputs are its endpoints; on rejection the inputs are unchanged |
| LiangBarsky.Narrow | Lab4/LiangBarsky.cpp:44-70 | definition of the boundary loop: reject on a parallel boundary with q < 0, else raise u1 to q/p for p < 0 and lower u2 to q/p for p > 0; `NarrowCorrect` proves the result is exactly the admitted parameter range |
| LiangBarsky.Clip | Lab4/LiangBarsky.cpp:25-90 | definition of what `liangBarskyClip` returns: reject when the range is empty, else the endpoints at u1 and u2 of the original segment; `ClipIsVisiblePart` states its meaning |
| LiangBarsky.BoundaryTest | Lab4/LiangBarsky.cpp:57-68 | p·u ≤ q is u ≥ q/p for p < 0 (entering) and u ≤ q/p for p > 0 (leaving) |
| LiangBarsky.AdmittedSplit | Lab4/LiangBarsky.cpp:44-70 | the remaining boundaries admit u iff this one and the rest do |
| LiangBarsky.StepRange | Lab4/LiangBarsky.cpp:46-69 | one iteration's new [u1, u2] is the old range restricted to this boundary |
| LiangBarsky.NarrowCorrect | Lab4/LiangBarsky.cpp:44-76 | the loop and the u1 > u2 test reject exactly when no parameter in [0, 1] passes all boundaries, and otherwise give that interval |
| LiangBarsky.AdmittedIsInside | Lab4/LiangBarsky.cpp:34-41 | all four boundaries admit u iff the segment's point at u lies in the window |
| LiangBarsky.ClipIsVisiblePart | Lab4/LiangBarsky.cpp:25-90 | accepted iff some point is visible, and then the output is exactly the visible part |
| LiangBarsky.InsideUnchanged | Lab4/LiangBarsky.cpp:25-90 | a segment inside the window is returned unchanged |
| LiangBarsky.PointSegment | Lab4/LiangBarsky.cpp:46-53 | a degenerate segment is accepted iff the point is in the window |
| ClipAgreement.ClippersAgree | Lab4/LiangBarsky.cpp:25-90 | Liang–Barsky and Cohen–Sutherland accept the same segments and return the same endpoints |
| SutherlandHodgman.Inside | Lab4/SutherlandHodgemann.cpp:20-23 | definition of `inside`: strictly left of the directed edge, with points on the line outside; `InsideIsSide` and `SideOfLerp` state its meaning |
| SutherlandHodgman.Intersection | Lab4/SutherlandHodgemann.cpp:26-40 | definition of `intersection`: the point of p1→p2 on the edge's line, p1 when the lines are parallel; `IntersectionOnEdge` states its meaning |
| SutherlandHodgman.InsideIsSide | Lab4/SutherlandHodgemann.cpp:20-23 | `inside` is a strictly positive cross product |
| SutherlandHodgman.SideOfLerp | Lab4/SutherlandHodgemann.cpp:20-23 | the cross product is affine along a segment |
| SutherlandHodgman.IntersectionTerms | Lab4/SutherlandHodgemann.cpp:28-37 | denom is the difference of the endpoints' cross products, and the numerator is the first one |
| SutherlandHodgman.IntersectionOnEdge | Lab4/SutherlandHodgemann.cpp:26-40 | for endpoints on opposite sides, the result is the segment's point on the edge's line, at a parameter in [0, 1] |
| SutherlandHodgman.ClipEdge | Lab4/SutherlandHodgemann.cpp:58-78 | definition of the inner loop over one clip edge, emitting per vertex pair as `Emit` says; `EdgeInOwnHalfPlane` and `AllInsideUnchanged` state its meaning |
| SutherlandHodgman.ClipAll | Lab4/SutherlandHodgemann.cpp:47-79 | definition of the outer loop over clip edges, stopping early at an empty polygon; `ClipAllInHalfPlanes` and `InsideVertexSurvives` state its meaning |
| SutherlandHodgman.SutherlandHodgmanClip | Lab4/SutherlandHodgemann.cpp:43-82 | the loops compute `ClipAll`, and every output vertex lies in the closed half-plane of every clip edge |
| SutherlandHodgman.EdgeSize | Lab4/SutherlandHodgemann.cpp:58-78 | one edge pass emits at most two vertices per input vertex |
| SutherlandHodgman.AllInsideUnchanged | Lab4/SutherlandHodgemann.cpp:66-72 | a polygon wholly inside an edge passes through unchanged |
| SutherlandHodgman.EmitInsideOnly | Lab4/SutherlandHodgemann.cpp:66-77 | of each vertex's emissions, exactly the current vertex is strictly inside when it is inside |
| SutherlandHodgman.CarriedAreInside | Lab4/SutherlandHodgemann.cpp:58-78 | the strictly-inside output vertices are exactly the strictly-inside input vertices, in order |
| SutherlandHodgman.EmitInHalfPlane | Lab4/SutherlandHodgemann.cpp:66-77 | everything emitted lies on or inside the edge |
| SutherlandHodgman.EmitKeeps | Lab4/SutherlandHodgemann.cpp:66-77 | emissions stay in any half-plane holding both endpoints |
| SutherlandHodgman.EdgeInHalfPlanes | Lab4/SutherlandHodgemann.cpp:58-78 | an edge pass keeps earlier half-plane constraints and adds its own |
| SutherlandHodgman.EdgeInOwnHalfPlane | Lab4/SutherlandHodgemann.cpp:58-78 | an edge pass's output lies in its own closed half-plane |
| SutherlandHodgman.ClipAllInHalfPlanes | Lab4/SutherlandHodgemann.cpp:47-79 | after all passes the output lies in every clip edge's closed half-plane |
| SutherlandHodgman.InsideOnlyMembers | Lab4/SutherlandHodgemann.cpp:66-72 | the strictly-inside filter keeps exactly the inside members |
| SutherlandHodgman.InsideVertexSurvives | Lab4/SutherlandHodgemann.cpp:47-79 | a subject vertex strictly inside every edge is in the output |
| SutherlandHodgman.RectangleResult | Lab4/SutherlandHodgemann.cpp:106-109 | against the demo rectangle, a subject with a vertex strictly inside gives a non-empty output within the rectangle |
| SutherlandHodgman.DemoResult | Lab4/SutherlandHodgemann.cpp:99-109 | the demo's clipped pentagon is non-empty and lies within [−180, 180] × [−160, 160] |
| Affine.Apply | Lab3/2DComposite.cpp:126-132 | definition of `transformPoint`: the first two rows applied to (x, y, 1); `ApplyMul` proves that applying a product whose right factor is affine is applying the factors in turn |
| Affine.Mul | Lab3/2DComposite.cpp:169-186 | definition of the 3×3 product; `MulEntry` proves each entry is the row-by-column sum |
| Affine.Centroid | Lab3/2DComposite.cpp:189-195 | definition of `getCentroid`: the coordinate-wise mean; `CentroidCommutes` proves that the image of the centroid is the centroid of the images |
| Affine.IdentityMat | Lab3/2DComposite.cpp:18-27 | the identity matrix; `MulIdentity` proves it is neutral |
| Affine.TranslateMat | Lab3/2DComposite.cpp:135-140 | the translation matrix; `BuildersAct` proves it moves a point by (tx, ty) and `TranslateInverse` that T(−t) undoes it |
| Affine.ScaleMat | Lab3/2DComposite.cpp:143-148 | the scaling matrix; `BuildersAct` proves it scales each coordinate |
| Affine.RotateMat | Lab3/2DComposite.cpp:151-158 | the rotation matrix for cos θ = c, sin θ = s; `BuildersAct` gives its action |
| Affine.ShearMat | Lab3/2DComposite.cpp:161-166 | the shear matrix; `BuildersAct` gives its action |
| Affine.ReflectXMat | Lab3/2DTransformations.cpp:292-308 | the reflection across the x axis; `BuildersAct` proves it negates y and `ReflectXInvolution` that it is its own inverse |
| Affine.ReflectYMat | Lab3/2DTransformations.cpp:311-327 | the reflection across the y axis; `BuildersAct` proves it negates x and `ReflectYInvolution` that it is its own inverse |
| Affine.MulEntry | Lab3/2DComposite.cpp:169-186 | each product entry is the sum of the row-by-column products |
| Affine.BuildersAct | Lab3/2DComposite.cpp:126-166 | what identity, translate, scale, rotate, shear and the reflections do to a point |
| Affine.BuildersAffine | Lab3/2DComposite.cpp:135-166 | every builder's matrix has bottom row (0, 0, 1), and all but translation are linear |
| Affine.ApplyMul | Lab3/2DComposite.cpp:126-132 | transforming by a product is transforming by the factors right to left |
| Affine.MulAffine | Lab3/2DComposite.cpp:169-186 | products of affine matrices are affine |
| Affine.MulIdentity | Lab3/2DComposite.cpp:18-27 | the identity is neutral on both sides |
| Affine.TranslateInverse | Lab3/2DComposite.cpp:135-140 | translating by t and by −t cancel |
| Affine.ReflectXInvolution | Lab3/2DTransformations.cpp:292-308 | reflecting in the x-axis twice is the identity matrix |
| Affine.ReflectYInvolution | Lab3/2DTransformations.cpp:311-327 | reflecting in the y-axis twice is the identity matrix |
| Affine.ReflectTwice | Lab3/2DTransformations.cpp:292-327 | each reflection undoes itself on points |
| Affine.CentroidCommutes | Lab3/2DComposite.cpp:189-195 | an affine map sends the centroid to the centroid of the images |
| Affine.LinearFixesOrigin | Lab3/2DComposite.cpp:143-166 | scale, rotate and shear matrices fix the origin |
| Affine.PivotAct | Lab3/2DComposite.cpp:234-258 | T(d)·T(k)·L·T(−k) applies L about the pivot k and then moves by d |
| Affine.ToMatEntry | Lab3/2DComposite.cpp:169-186 | each array entry is the same entry of its matrix value |
| Affine.EntriesToMat | Lab3/2DComposite.cpp:169-186 | an array holding a matrix's entries has that matrix value |
| Affine.MatrixMultiply | Lab3/2DComposite.cpp:169-186 | result holds the product of the old A and B, also when result aliases an input |
| Composite2D.Identity | Lab3/2DComposite.cpp:18-27 | the diagonal becomes 1 and the rest 0 |
| Composite2D.Translate | Lab3/2DComposite.cpp:135-140 | the array becomes the translation matrix |
| Composite2D.Scale | Lab3/2DComposite.cpp:143-148 | the array becomes the scaling matrix |
| Composite2D.Rotate | Lab3/2DComposite.cpp:151-158 | the array becomes the rotation matrix |
| Composite2D.Shear | Lab3/2DComposite.cpp:161-166 | the array becomes the shear matrix |
| Composite2D.StageAct | Lab3/2DComposite.cpp:234-289 | a pivot stage applied after the previous matrix acts as L about k, then moves by d |
| Composite2D.PivotCentroid | Lab3/2DComposite.cpp:234-289 | about the centroid the image centroid is the centroid moved by d |
| Composite2D.PivotStage | Lab3/2DComposite.cpp:234-289 | the four multiplications produce prev followed by L about k and a move by d |
| Composite2D.PivotTranslations | Lab3/2DComposite.cpp:238-248 | the three fresh arrays hold the translations to the pivot's origin, back to the pivot, and on by d |
| Composite2D.StageProduct | Lab3/2DComposite.cpp:234-289 | the same, stated for the matrix values |
| Composite2D.ShearStage | Lab3/2DComposite.cpp:296-310 | step 4 is prev followed by the shear and a move |
| Composite2D.ChainFacts | Lab3/2DComposite.cpp:211-314 | the four matrices' triangles have the chain's shape |
| Composite2D.DisplayChain | Lab3/2DComposite.cpp:211-314 | step 1 moves by (−0.65, 0); steps 2 and 3 rotate and scale ×1.3 about the centroid, each moving it by the stated offset; step 4 shears by 0.8 and moves |
| TransformModes.KeyMode | Lab3/2DTransformations.cpp:384-424 | definition of the mode switch: '1'–'6' pick the six transformations, '0' the original, any other key keeps the mode; `KeyModeSelects` states its meaning |
| TransformModes.KeyModeSelects | Lab3/2DTransformations.cpp:384-424 | '1'–'6' select their modes and '0' the original; other keys keep the mode; the mapping is injective |
| Transformations2D.MultiplyMatrix | Lab3/2DTransformations.cpp:44-61 | result holds m1·m2 |
| Transformations2D.PivotOnce | Lab3/2DTransformations.cpp:185-260 | T(k + d)·L·T(−k) applies L about k and moves by d, and is affine |
| Transformations2D.PivotTriangle | Lab3/2DTransformations.cpp:185-260 | about the centroid the image centroid is the centroid moved by d |
| Transformations2D.TranslateTriangle | Lab3/2DTransformations.cpp:167-182 | the triangle under T(tx, ty); `TranslateMoves` states its meaning |
| Transformations2D.ScaleTriangle | Lab3/2DTransformations.cpp:185-221 | the triangle under T2·(S·T1) about its centroid, moved 0.6 right; `ScaleAboutCentroid` states its meaning |
| Transformations2D.RotateTriangle | Lab3/2DTransformations.cpp:224-260 | the triangle under T2·(R·T1) about its centroid, moved by (0.6, 0.3); `RotateAboutCentroid` states its meaning |
| Transformations2D.ShearTriangle | Lab3/2DTransformations.cpp:263-289 | the triangle under SH·T with T a move by (0.6, −0.3); `ShearAfterMove` states its meaning |
| Transformations2D.ReflectXTriangle | Lab3/2DTransformations.cpp:292-308 | the triangle reflected across the x axis; `ReflectionsNegate` states its meaning |
| Transformations2D.ReflectYTriangle | Lab3/2DTransformations.cpp:311-327 | the triangle reflected across the y axis; `ReflectionsNegate` states its meaning |
| Transformations2D.TranslateMoves | Lab3/2DTransformations.cpp:167-182 | every vertex moves by (tx, ty) |
| Transformations2D.ScaleAboutCentroid | Lab3/2DTransformations.cpp:185-221 | vertices scale about the centroid, and the result moves by (0.6, 0) |
| Transformations2D.RotateAboutCentroid | Lab3/2DTransformations.cpp:224-260 | vertices rotate about the centroid, and the result moves by (0.6, 0.3) |
| Transformations2D.ShearAfterMove | Lab3/2DTransformations.cpp:263-289 | the triangle moves by (0.6, −0.3) first and is then sheared |
| Transformations2D.ReflectionsNegate | Lab3/2DTransformations.cpp:292-327 | reflectX negates y and reflectY negates x; each is an involution |
| Transformations2D.ModeState.constructor | Lab3/2DTransformations.cpp:29-30 | mode NONE and time 0 |
| Transformations2D.ModeState.Keyboard | Lab3/2DTransformations.cpp:384-424 | the mode follows `KeyMode`, time resets only on '0', and ESC quits |
| TransformDemo.NdcX | Lab2/Question5.cpp:44-47 | definition of `toNDCX`: 2x/width − 1; `NdcEnds`, `NdcMonotone` and `NdcVisible` state its meaning |
| TransformDemo.NdcY | Lab2/Question5.cpp:49-52 | definition of `toNDCY`: 1 − 2y/height, y flipped; `NdcEnds`, `NdcMonotone` and `NdcVisible` state its meaning |
| TransformDemo.NdcEnds | Lab2/Question5.cpp:44-52 | toNDCX(0) = −1 and toNDCX(width) = 1; toNDCY(0) = 1 and toNDCY(height) = −1 |
| TransformDemo.NdcMonotone | Lab2/Question5.cpp:44-52 | for positive sizes toNDCX preserves and toNDCY reverses order, both directions |
| TransformDemo.NdcVisible | Lab2/Question5.cpp:44-52 | a pixel is in the window iff its NDC coordinates are in [−1, 1] |
| TransformDemo.ModeMatrix | Lab2/Question5.cpp:256-278 | definition of the matrix `display` applies in each mode, none for the original; `ModeMatricesLinear` and `ModeMatricesAct` state its meaning |
| TransformDemo.ModeMatricesLinear | Lab2/Question5.cpp:256-278 | only NONE draws no transformed triangle; every matrix is affine, and all but translation are linear and fix the origin |
| TransformDemo.ModeMatricesAct | Lab2/Question5.cpp:128-233 | translate by (200, −150), scale by 1.8, rotate, shear by (0.6, 0.2), and the reflections negate one coordinate |
| TransformDemo.DemoState.constructor | Lab2/Question5.cpp:29-32 | mode NONE, time 0, window 800 × 600 |
| TransformDemo.DemoState.Idle | Lab2/Question5.cpp:284-291 | time advances by 0.01 only in ROTATE; nothing else changes |
| TransformDemo.DemoState.Keyboard | Lab2/Question5.cpp:294-335 | the mode follows `KeyMode`, time resets on '3' and '0', ESC quits, the window size is untouched |
| TransformDemo.DemoState.Reshape | Lab2/Question5.cpp:338-341 | stores the new size as given, which may be 0 |
| TransformDemo.AngleGrowsInRotate | Lab2/Question5.cpp:284-291 | after '3', n idle calls give time 0.01·n; outside ROTATE the time never moves |
| PerspectiveProjection.AfterAdjustFov | Lab5/PerspectiveProjection.cpp:97-108 | definition of `adjustFOV` on the camera state: add delta, clamp to [1, 179]; `AdjustFovClamps` states its meaning |
| PerspectiveProjection.AfterAdjustNearFar | Lab5/PerspectiveProjection.cpp:110-123 | definition of `adjustNearFar` as written: shift both planes, raise near to 0.1, then pull it to far − 1; `AdjustNearFarKeepsGap` states its meaning |
| PerspectiveProjection.AfterSetupViewport | Lab5/PerspectiveProjection.cpp:41-54 | definition of `setupViewport` on the state: the raw size is stored, the aspect divides by 1 in place of a zero height; `ViewportAspect` states its meaning |
| PerspectiveProjection.AfterReset | Lab5/PerspectiveProjection.cpp:255-273 | definition of `reset` with the guarded aspect; `ResetDefaults` states its meaning |
| PerspectiveProjection.AfterKey | Lab5/PerspectiveProjection.cpp:144-227 | definition of `handleKeyboard` on the state, key by key; `KeysKeepValid`, `UnmappedKeysIgnored` and `OppositeKeysCancel` state its meaning |
| PerspectiveProjection.AfterSpecialKey | Lab5/PerspectiveProjection.cpp:229-252 | definition of `handleSpecialKeys`: arrows and page keys move the eye by 0.5 along one axis; `KeysKeepValid` and `OppositeKeysCancel` state its meaning |
| PerspectiveProjection.AdjustFovClamps | Lab5/PerspectiveProjection.cpp:97-105 | fovy ends in [1, 179] for any δ, moves by exactly δ within range, and nothing else changes |
| PerspectiveProjection.ZoomRoundTrip | Lab5/PerspectiveProjection.cpp:148-157 | '+' then '-' (and '-' then '+') restore fovy when no clamp fires |
| PerspectiveProjection.AdjustNearFarKeepsGap | Lab5/PerspectiveProjection.cpp:110-120 | far moves by exactly δ; near = min(max(near + δ, 0.1), far′ − 1) ≤ far′ − 1; near ≥ 0.1 iff far′ ≥ 1.1; nothing else changes |
| PerspectiveProjection.FarPressesKeepNear | Lab5/PerspectiveProjection.cpp:163-166 | while the far plane stays at 1.5 or more, each press of 'f' keeps the near plane at 0.1 and moves the far plane 0.5 closer |
| PerspectiveProjection.NearPlaneGoesNegative | Lab5/PerspectiveProjection.cpp:110-123 | from the reset state, 198 presses of 'f' leave far 1.0 and near 0.0, and a 199th makes near −0.5, against the comment's promise of a positive near plane |
| PerspectiveProjection.AdjustNearFarKeepingFarPositive | Lab5/PerspectiveProjection.cpp:110-123 | the corrected update (far held at 1.1 or more) keeps 0.1 ≤ near ≤ far − 1, and equals the source's update exactly when the shifted far plane is already at least 1.1 |
| PerspectiveProjection.MovesAreTranslations | Lab5/PerspectiveProjection.cpp:125-141 | moveEye changes only the eye by (dx, dy, dz), moveCenter only the centre, and opposite moves cancel |
| PerspectiveProjection.ViewportAspect | Lab5/PerspectiveProjection.cpp:41-50 | the raw size is stored; aspect·height = width for a non-zero height, and aspect = width for height 0 |
| PerspectiveProjection.ResetDefaults | Lab5/PerspectiveProjection.cpp:255-273 | fovy 45, near 0.1, far 100, eye (5, 5, 10), centre 0, up (0, 1, 0), aspect·height = width, and the camera satisfies the invariant; the aspect agrees with the viewport's |
| PerspectiveProjection.ResetAfterZeroHeight | Lab5/PerspectiveProjection.cpp:41-50 | as written, reset after `setupViewport(800, 0)` has no defined aspect; the guarded reset gives 800 |
| PerspectiveProjection.KeysKeepValid | Lab5/PerspectiveProjection.cpp:144-252 | every key and special key keeps 1 ≤ fovy ≤ 179 and near ≤ far − 1 |
| PerspectiveProjection.KeysKeepUp | Lab5/PerspectiveProjection.cpp:144-252 | up changes only on 'r'/'R'; no key changes the window size; only movement keys touch the eye or the centre; special keys change only the eye |
| PerspectiveProjection.UnmappedKeysIgnored | Lab5/PerspectiveProjection.cpp:144-227 | keys outside the table, and 'p', leave the camera unchanged |
| PerspectiveProjection.OppositeKeysCancel | Lab5/PerspectiveProjection.cpp:168-251 | w/s, a/d, q/e, i/k, j/l, u/o and the arrow and page pairs undo each other |
| PerspectiveProjection.Perspective.constructor | Lab5/PerspectiveProjection.cpp:25-30 | an 800 × 600 window in the reset state |
| PerspectiveProjection.Perspective.SetupViewport | Lab5/PerspectiveProjection.cpp:41-54 | the new state is `AfterSetupViewport` of the old one |
| PerspectiveProjection.Perspective.SetPerspective | Lab5/PerspectiveProjection.cpp:57-63 | the projection fields take the given values and nothing else changes |
| PerspectiveProjection.Perspective.SetView | Lab5/PerspectiveProjection.cpp:65-78 | eye, centre and up take the given values and nothing else changes |
| PerspectiveProjection.Perspective.AdjustFov | Lab5/PerspectiveProjection.cpp:97-108 | the new state is `AfterAdjustFov` of the old one |
| PerspectiveProjection.Perspective.AdjustNearFar | Lab5/PerspectiveProjection.cpp:110-123 | the new state is `AfterAdjustNearFar` of the old one |
| PerspectiveProjection.Perspective.MoveEye | Lab5/PerspectiveProjection.cpp:125-132 | the new state is `AfterMoveEye` of the old one |
| PerspectiveProjection.Perspective.MoveCenter | Lab5/PerspectiveProjection.cpp:134-141 | the new state is `AfterMoveCenter` of the old one |
| PerspectiveProjection.Perspective.HandleKeyboard | Lab5/PerspectiveProjection.cpp:144-227 | the new state is `AfterKey` of the old one |
| PerspectiveProjection.Perspective.HandleSpecialKeys | Lab5/PerspectiveProjection.cpp:229-252 | the new state is `AfterSpecialKey` of the old one |
| PerspectiveProjection.Perspective.Reset | Lab5/PerspectiveProjection.cpp:255-273 | the new state is `AfterReset` of the old one, which uses the guarded aspect |

## Left out

- **Rendering and I/O.** OpenGL/GLUT plumbing is not modelled: window set-up, callbacks, colours, point sizes, buffer swaps, `glutPostRedisplay`. Emitted vertices are the output sequences. Console output, and the choice `Lab2/Question2.cpp` reads from `std::cin`, are I/O with no logic.
- **Decorative helpers.** `drawGrid`, `drawAxes`, `drawAxisLabels`, `drawTriangle`, `drawTriangleOutline`, `displayTransformInfo` and `displayInstructions` only draw or print.
- **`Lab1`.** `Lab1/Question1.cpp` only queries the monitor through GLFW. `Lab1/Question2.cpp` draws fixed letter shapes. Neither is part of this model.
- **`Lab5/3DTransformations.cpp`.** It uses GL fixed-function transforms whose matrices are not visible, and trigonometry. It is not part of this model.
- **`Perspective` GL calls.** `setupPerspective`, `applyProjection`, `applyView` and the GL calls inside `setupViewport` change no field, so they are not modelled. `printParameters` only prints.
- **Floating point.**
  - Every `float` is an exact real, so rounding error is not modelled.
  - `float` products of `int`s (`rx * rx` in the ellipse) are exact.
  - Sutherland–Hodgman's `fabs(denom) < 1e-10` test becomes `denom == 0`. Nearly parallel segments, which the source treats as parallel, are intersected exactly here.
- **Integer width.** `int` is unbounded. Overflow of `2 * dy - dx` and similar terms for coordinates near 2³¹ is not modelled.
- **Trigonometry.**
  - `cos θ` and `sin θ` are free parameters `c`, `s`.
  - No property needs c² + s² = 1.
  - The 60° and 45° literals and `animationTime` enter only through c and s.
- Dda.Increment: when `steps` is 0 the source divides by zero. The resulting infinity or NaN is never used, because the single pixel is emitted before the first increment, so the model uses 0.
- LineGraph.Map: requires a non-empty range (lo ≠ hi). The source would divide by zero, which cannot happen for its own data.
- LineGraph.Graph.DrawGraph: requires at least one sample. With no data `data.size() - 1` wraps around as a `size_t`, and the loop would read out of bounds.
- TransformDemo.NdcX: requires a non-zero window size. After `reshape` to a zero size, the float division yields an infinity or NaN.
- MidpointEllipse.ArcShape: does not claim that the arc ends at (rx, 0). For flat ellipses region 1 can stop before x reaches rx; region 2 then walks only the rows left.
- CohenSutherland.CohenSutherlandClip: on rejection the reference parameters hold partly clipped values. The model states the outputs only through `Passes`, not as a property of the rejected segment.
- The 2DTransformations `display` switch (which mode draws which composite) is covered by the per-mode functions and lemmas. The switch itself is not a separate member, and neither is the Question5 `display` beyond `ModeMatrix`.
- PerspectiveProjection.AfterReset: uses the guarded aspect ratio (see Findings), not the unguarded division `reset` performs.
- PerspectiveProjection.AfterAdjustNearFar keeps the near/far clamp as written, and so do `AfterKey` and the `Perspective` class: the second Findings row shows the near plane can go negative. The corrected `AfterAdjustNearFarKeepingFar` is stated and proved beside it, but the key handler is left as the program behaves.
- `Perspective` stores `eyeX, eyeY, eyeZ` (and likewise centre and up) as one `Vec3` field each. The grouping changes no behaviour.
- Keys in the modes: ESC calls `exit(0)`. The model returns `quit = true` and leaves the state unchanged.

## Findings

| source | as written | input that shows it | evidently intended | confidence | as-written member | corrected member |
|---|---|---|---|---|---|---|
| Lab5/PerspectiveProjection.cpp:41-50, 259 | `setupViewport` stores the raw height and guards only its own division. `reset` later divides by the stored `windowHeight` without a guard. | `setupViewport(800, 0)` (a minimized window), then key 'r': `reset` computes 800 / 0 = +∞ as the aspect ratio passed to `gluPerspective` | `reset` uses the same guard (height 0 → 1), so its aspect agrees with the viewport's | medium, not executed | PerspectiveProjection.ResetAfterZeroHeight | PerspectiveProjection.ResetDefaults |
| Lab5/PerspectiveProjection.cpp:110-123, 163-166 | `adjustNearFar` raises the near plane to 0.1 and then pulls it to far − 1, so the second clamp can undo the first; the comment says the near plane is kept positive. | `reset`, then 198 presses of 'f': far 1.0, near 0.0; a 199th press gives far 0.5, near −0.5 (a near plane gluPerspective rejects) | the near plane stays at 0.1 or more, which needs the far plane held at 1.1 or more | high, not executed | PerspectiveProjection.NearPlaneGoesNegative | PerspectiveProjection.AdjustNearFarKeepingFarPositive |
