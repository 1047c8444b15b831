# Map and planet renderer: verified model of its sequential core

This project models three pieces of logic from a small map and planet renderer:

- **`Region`** (`regions.dfy`, module `Regions`). A polygon is an ordered vertex list with an axis-aligned bounding box. The box is stored as a four-cell array `[min x, min y, max x, max y]` that starts at the origin. Each insertion widens it with four conditional overwrites. The class invariant is stronger than "the box contains every vertex": the box is *exactly* the hull of the origin and the vertices (`Hull`). That the box contains the origin and every vertex, never shrinks, and is no larger than needed are lemmas. Both point tests are strict, so points on the box edge are outside.
- **`MapAbstract.toImage`** (`map_image.dfy`, module `MapImage`, with the Java integer helpers in `java_int.dfy`, module `JavaInt`). Every pixel of a width × height grid is classified from its quantised altitude:
  - sea (the value itself) below `SEA_LEVEL` = 140;
  - a green ramp up to `SNOW_LINE` = 190;
  - grey snow above that.
  With contours on, the value is rounded toward zero to a multiple of 10. A pixel whose 2×2 neighbour block (clipped to the image) holds another contour level is an edge, and edge pixels are black on land and snow. The nested loop fills a flat raster at `x + y*width`. It is proved to write every cell exactly once, and to write the value `PixelAt` specifies. Java's `int` range, truncating `/`, `<<` and `|` are written out arithmetically.
- **The scalar camera logic of `draw-scene.js`** (`draw_scene.dfy`, module `DrawScene`).
  - The `(fov, zNear, zFar)` triple chosen from the sign of the precise zoom.
  - The camera's offset behind the tube centre.
  - The do-while of `getTerrainHeightScale`. It sums 1/2 + 1/4 + … until the next term is at most `zoom × terrainResolution`, and returns the reciprocal. Its loop keeps `scale + 2*height == 1`. It is proved equal to `HeightScale`, which is shown to lie in (1, 2], never to increase as the threshold decreases, and to give 1/0.875 for threshold 0.1.

Numbers that the sources only compare, or combine as floating point, are `real`s.

Three facts about the code that the model keeps:
- When zoomed out, the field of view is scaled by `view.zoom`, not by `view.zoomPrecise` (mapping/src/draw-scene.js:79).
- A threshold of 0.3 stops the do-while after its one required pass and gives 2; the result 4/3 needs a threshold in [1/8, 1/4).
- Every threshold of at least 1/4 stops the do-while after that one pass.

## Model

| member | source | states |
|---|---|---|
| `Regions.Region.constructor` | mapping/src/Region.java:7-10 | a fresh region has no vertices and the box [0, 0, 0, 0], which is the hull of the empty list |
| `Regions.Region.InsertVertex` | mapping/src/Region.java:16-23 | for 0 ≤ i ≤ size, (x, y) lands at index i, earlier vertices stay and later ones move up by one; the box is the old box widened by (x, y): min/max never shrink and the new point is inside; the hull invariant is kept |
| `Regions.Region.AddVertex` | mapping/src/Region.java:12-14 | inserts at index size-1, i.e. before the current last vertex, which stays last; needs a nonempty list (index -1 is rejected) |
| `Regions.Region.PointInBoundingBox` | mapping/src/Region.java:25-27 | is the strict open-box test `StrictlyInside` of the stored box, and true exactly when the point lies strictly between the least and greatest x (and y) of the origin and all vertices |
| `Regions.Region.PointInRegion` | mapping/src/Region.java:29-31 | is the bounding-box test, hence implies the point is strictly inside the stored box |
| `Regions.Region.BoxContainsVertices` | mapping/src/Region.java:16-23 | under the invariant the box contains the origin and every stored vertex (closed box) |
| `Regions.HullInserted` | mapping/src/Region.java:17-22 | inserting a vertex at any index changes the hull exactly as the four min/max updates change the box, so the order of vertices does not matter |
| `Regions.HullContains` | mapping/src/Region.java:19-22 | each hull side bounds the origin and every vertex coordinate on its axis |
| `Regions.HullAttained` | mapping/src/Region.java:19-22 | each hull side is the origin's coordinate or some vertex's coordinate: the box is no larger than needed |
| `Regions.WidenGrows` | mapping/src/Region.java:19-22 | the updated box never shrinks on any side and contains the inserted point |
| `Regions.FreshRegionContainsNothing` | mapping/src/Region.java:25-27 | the strict test rejects every point for the box of a fresh region |
| `Regions.EdgeVertexOutside` | mapping/src/Region.java:25-27 | a point on any side of the box is not inside |
| `Regions.InsertThenAdd` | mapping/src/Region.java:12-17 | from the contracts alone: after inserting (x0, y0) into a fresh region, adding (x1, y1) puts it first, and the box spans min/max of 0, x0 and x1 |
| `JavaInt.JavaDiv` | mapping/src/MapAbstract.java:50 | Java `/` truncates toward zero: the remainder has the dividend's sign and is smaller than the divisor |
| `JavaInt.OrBitsDisjoint` | mapping/src/MapAbstract.java:73 | bitwise or of operands whose bits do not overlap is their sum |
| `MapImage.Index` | mapping/src/MapAbstract.java:65-73 | every cell (x, y) of the grid maps to an index in [0, width*height) |
| `MapImage.IndexInjective` | mapping/src/MapAbstract.java:65-73 | distinct cells map to distinct indices |
| `MapImage.IndexOnto` | mapping/src/MapAbstract.java:41-44 | every raster index is the index of some cell visited by the loops |
| `MapImage.LandGreen` | mapping/src/MapAbstract.java:69 | the green channel ((val-140)*150)/50 + 75 lies in [75, 222] |
| `MapImage.SeaBand` | mapping/src/MapAbstract.java:64-65 | below the sea level the pixel is the value itself, whatever the edge flag |
| `MapImage.LandBand` | mapping/src/MapAbstract.java:67-69 | between sea level and snow line the pixel is the green channel shifted left by 8 (g·256, g in [75, 222]); an edge pixel is 0 |
| `MapImage.SnowBand` | mapping/src/MapAbstract.java:71-73 | from the snow line up an edge pixel is 0; for values below 256 the pixel is val·0x010101, grey with all three channels equal to val |
| `MapImage.ContourRounding` | mapping/src/MapAbstract.java:50-61 | dividing by 10 and multiplying back rounds toward zero to less than 10 from the value without overflowing an `int`, and keeps the value in the same band (sea, land or snow) |
| `MapImage.EdgeLocal` | mapping/src/MapAbstract.java:52-53 | the edge flag depends only on contour levels of cells inside the image |
| `MapImage.ContourEdge` | mapping/src/MapAbstract.java:52-59 | the neighbour loops, whose `break` leaves only the inner loop, set the edge flag exactly when some in-image cell of the 2×2 block has another contour level |
| `MapImage.PlainPixel` | mapping/src/MapAbstract.java:45-49 | without contours there is no edge and the value classified is the unmodified quantised altitude |
| `MapImage.Render` | mapping/src/MapAbstract.java:41-75 | the raster has width*height cells; cell (x, y) holds `PixelAt` for that cell; every cell is written exactly once |
| `MapImage.ToImage` | mapping/src/MapAbstract.java:37-81 | returns the very image it was given, whose raster now holds `PixelAt` for every cell in row-major order |
| `DrawScene.ZoomedIn` | mapping/src/draw-scene.js:73-76 | at precise zoom ≥ 0: fov unchanged, zNear = zoom·0.5, zFar = (zoom + large + small radius)·2 |
| `DrawScene.ZoomedOut` | mapping/src/draw-scene.js:78-82 | at precise zoom < 0: fov·zoom, zNear = 0.5, zFar = (large + small radius)·2 |
| `DrawScene.ProjectionDependsOnSign` | mapping/src/draw-scene.js:71-82 | only the sign of the precise zoom selects the branch; zoomed out, the clipping planes do not depend on the zoom |
| `DrawScene.CameraOffset` | mapping/src/draw-scene.js:94 | the camera sits at least smallRadius + 1 and at least smallRadius + zoom behind the tube centre, and exactly the larger of the two |
| `DrawScene.NearPlaneBeforeSurface` | mapping/src/draw-scene.js:71-94 | in both branches the near plane is closer than the tube surface straight ahead, max(zoom, 1) away, so that surface is never clipped |
| `DrawScene.FrustumOrdered` | mapping/src/draw-scene.js:73-86 | for positive zoom and radii summing above 1/4, 0 < zNear < zFar |
| `DrawScene.FarPlaneBeyondTorus` | mapping/src/draw-scene.js:73-94 | zoomed in with zoom ≥ 1/2, the far plane reaches past the far side of the torus |
| `DrawScene.SeriesClosedForm` | mapping/src/draw-scene.js:115-118 | after n passes scale = 1 - 0.5^n |
| `DrawScene.PassesFromLeast` | mapping/src/draw-scene.js:115-119 | the pass count is the least n ≥ 1 whose final height 0.5^(n+1) is at most the threshold |
| `DrawScene.TerrainHeightScale` | mapping/src/draw-scene.js:111-122 | the do-while keeps scale + 2·height = 1 and returns `HeightScale` of the zoomed terrain resolution |
| `DrawScene.HeightScaleBounds` | mapping/src/draw-scene.js:112-121 | at least one pass runs, so 1/2 ≤ scale < 1 and the result lies in (1, 2]; on exit height ≤ threshold |
| `DrawScene.CoarseThresholdOnePass` | mapping/src/draw-scene.js:115-121 | a threshold of at least 1/4 gives exactly one pass and the result 2 |
| `DrawScene.HeightScaleAntitone` | mapping/src/draw-scene.js:115-121 | a smaller threshold gives at least as many passes and a result that is not larger |
| `DrawScene.ThresholdTenth` | mapping/src/draw-scene.js:115-121 | threshold 0.1 gives three passes and the result 1/0.875 |

## Left out

- `drawStars`, `drawTorus` and `setPositionAttribute` (draw-scene.js:4-65) only configure and drive a WebGL context. That includes the uniform values `zoom × terrainResolution` and `zoom × terrainNormalResolution`. They are not modelled.
- The `mat4` builders and `getViewDirectionMatrix` are an external matrix library with trigonometric floating-point maths. Only the scalars handed to them are modelled: the perspective triple and the first camera translation.
- `properties.js` is not part of this model. The view and torus fields it provides are the `View` and `Torus` parameters.
- The abstract methods of `MapAbstract` have no implementation to model. `(int)(getAltitude(x, y) * 256)` and `(int)(getAltitude(x, y) * 25.6)` are two arbitrary functions into Java `int`, passed as parameters, so floating-point truncation is not modelled. The `showContours` field is a parameter of `ToImage`.
- `BufferedImage` is reduced to a width, a height and a row-major raster. `setRGB` replaces that raster; no other image I/O is modelled.
- The fields `width`, `height`, `zoom`, `currX`, `currY`, the noise lists and `regions` are never read by the modelled code and are left out.
- `Regions.Region.InsertVertex`: an index outside [0, size] makes Java's list throw; here it is a precondition. For the same reason `Regions.Region.AddVertex` requires a nonempty vertex list.
- `MapImage.Render`: the Java product `imgWidth * imgHeight` can overflow 32 bits for huge images; the model uses unbounded naturals.
- `DrawScene.TerrainHeightScale`: requires a positive threshold. In floating point a zero threshold ends only when `height` underflows to 0, and a negative one never ends; neither is modelled. The sums are exact reals; for realistic thresholds the binary terms are exact anyway.
- IEEE behaviour is not modelled: NaN coordinates in `Region` comparisons, and rounding in `(zoom + largeRadius + smallRadius) * 2` and the other real expressions.
