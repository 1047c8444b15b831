/** The scalar camera logic of the planet renderer: the (fov, zNear, zFar)
    triple handed to the perspective builder, the camera's distance from the
    tube centre in the view matrix, and the terrain height scale obtained by
    summing a geometric series. JavaScript numbers are modelled as reals. */
module DrawScene {

  /** Camera state read by the draw routines. */
  datatype View = View(zoom: real, zoomPrecise: real, fov: real, aspect: real, theta: real, phi: real)

  /** Static torus (planet) configuration. */
  datatype Torus = Torus(largeRadius: real, smallRadius: real, terrainResolution: real, terrainNormalResolution: real)

  /** The scalars of a perspective projection other than the aspect ratio. */
  datatype Perspective = Perspective(fov: real, zNear: real, zFar: real)

  function Max(a: real, b: real): real { if a > b then a else b }

  /** The branch of the projection builder: at or above neutral zoom the near
      plane follows the zoom; below it the field of view is scaled instead and
      the planes are fixed. */
  function ProjectionParameters(view: View, torus: Torus): Perspective
  {
    if view.zoomPrecise >= 0.0 then
      Perspective(view.fov, view.zoom * 0.5, (view.zoom + torus.largeRadius + torus.smallRadius) * 2.0)
    else
      Perspective(view.fov * view.zoom, 0.5, (torus.largeRadius + torus.smallRadius) * 2.0)
  }

  /** The z offset of the first translation of the view matrix: the camera
      sits behind the tube centre by the small radius plus the zoom, but never
      closer than one unit to the tube surface. */
  function CameraOffset(view: View, torus: Torus): (z: real)
    ensures z <= -(torus.smallRadius + 1.0) && z <= -(torus.smallRadius + view.zoom)
    ensures z == -(torus.smallRadius + 1.0) || z == -(torus.smallRadius + view.zoom)
  {
    -torus.smallRadius - Max(view.zoom, 1.0)
  }

  lemma ZoomedIn(view: View, torus: Torus)
    requires view.zoomPrecise >= 0.0
    ensures ProjectionParameters(view, torus).fov == view.fov
    ensures ProjectionParameters(view, torus).zNear == view.zoom * 0.5
    ensures ProjectionParameters(view, torus).zFar == (view.zoom + torus.largeRadius + torus.smallRadius) * 2.0
  {
  }

  lemma ZoomedOut(view: View, torus: Torus)
    requires view.zoomPrecise < 0.0
    ensures ProjectionParameters(view, torus).fov == view.fov * view.zoom
    ensures ProjectionParameters(view, torus).zNear == 0.5
    ensures ProjectionParameters(view, torus).zFar == (torus.largeRadius + torus.smallRadius) * 2.0
  {
  }

  /** Only the sign of the precise zoom is consulted, and when zoomed out the
      clipping planes do not depend on the zoom at all. */
  lemma ProjectionDependsOnSign(v1: View, v2: View, torus: Torus)
    requires (v1.zoomPrecise >= 0.0) == (v2.zoomPrecise >= 0.0)
    requires v1.zoomPrecise < 0.0 || v1.zoom == v2.zoom
    ensures ProjectionParameters(v1, torus).zNear == ProjectionParameters(v2, torus).zNear
    ensures ProjectionParameters(v1, torus).zFar == ProjectionParameters(v2, torus).zFar
    ensures v1.fov == v2.fov && v1.zoom == v2.zoom ==> ProjectionParameters(v1, torus) == ProjectionParameters(v2, torus)
  {
  }

  /** The point of the branch: in either mode the near plane lies closer to
      the camera than the tube surface straight ahead, which is
      max(zoom, 1) away, so that surface is never clipped. */
  lemma NearPlaneBeforeSurface(view: View, torus: Torus)
    ensures ProjectionParameters(view, torus).zNear < -CameraOffset(view, torus) - torus.smallRadius
  {
  }

  /** With a positive zoom and a torus wider than a quarter unit, the
      clipping planes are ordered as a perspective projection needs. */
  lemma FrustumOrdered(view: View, torus: Torus)
    requires view.zoom > 0.0
    requires torus.largeRadius >= 0.0 && torus.smallRadius >= 0.0
    requires torus.largeRadius + torus.smallRadius > 0.25
    ensures 0.0 < ProjectionParameters(view, torus).zNear < ProjectionParameters(view, torus).zFar
  {
  }

  /** Zoomed in (zoom at least 1/2), the far plane reaches beyond the far side
      of the torus: the camera is at most |offset| + largeRadius from the
      torus centre, and no point of the torus is further than
      largeRadius + smallRadius from it. */
  lemma FarPlaneBeyondTorus(view: View, torus: Torus)
    requires view.zoomPrecise >= 0.0 && view.zoom >= 0.5
    requires torus.largeRadius >= 0.0 && torus.smallRadius >= 0.0
    ensures ProjectionParameters(view, torus).zFar >=
            -CameraOffset(view, torus) + torus.largeRadius + torus.largeRadius + torus.smallRadius
  {
  }

  /** 0.5^n: the value of `height` after n halvings of 1. */
  function Half(n: nat): (h: real)
    ensures 0.0 < h <= 1.0
  {
    if n == 0 then 1.0 else Half(n - 1) * 0.5
  }

  lemma {:induction false} HalfAntitone(a: nat, b: nat)
    ensures a <= b ==> Half(b) <= Half(a)
  {
    if a < b {
      HalfAntitone(a, b - 1);
    }
  }

  /** 1/2 + 1/4 + ... + 1/2^n: `scale` after n passes of the loop. */
  function SeriesSum(n: nat): real
  {
    if n == 0 then 0.0 else SeriesSum(n - 1) + Half(n)
  }

  lemma {:induction false} SeriesClosedForm(n: nat)
    ensures SeriesSum(n) == 1.0 - Half(n)
  {
    if n > 0 {
      SeriesClosedForm(n - 1);
    }
  }

  lemma {:induction false} HalfTimesCount(n: nat)
    ensures Half(n) * (n + 1) as real <= 1.0
  {
    if n > 0 {
      HalfTimesCount(n - 1);
      assert Half(n) * (n + 1) as real == Half(n - 1) * (n as real) * 0.5 + Half(n - 1) * 0.5;
    }
  }

  lemma MulStrict(a: real, b: real, c: real)
    requires c > 0.0 && a < b
    ensures a * c < b * c
  {
  }

  lemma MulNonneg(a: real, c: real)
    ensures a >= 0.0 && c >= 0.0 ==> a * c >= 0.0
  {
  }

  lemma Distribute(a: real, b: real, c: real)
    ensures (a - b) * c == a * c - b * c
  {
  }

  lemma GapBelowOne(p: real, q: real)
    requires p <= 1.0 && q > 1.0
    ensures p - q < 0.0
  {
  }

  /** 1/t < c, with the division multiplied out. */
  lemma AboveByProduct(x: real, c: real, t: real)
    requires t > 0.0 && x * t == 1.0 && x < c
    ensures c * t > 1.0
  {
    MulStrict(x, c, t);
    AboveOne(x * t, c * t);
  }

  lemma AboveOne(p: real, q: real)
    requires p == 1.0 && p < q
    ensures q > 1.0
  {
  }

  /** h <= 1/c < t, with the divisions multiplied out. */
  lemma BelowByProduct(h: real, t: real, c: real)
    requires c > 0.0 && h * c <= 1.0 && c * t > 1.0
    ensures h < t
  {
    GapBelowOne(h * c, c * t);
    Distribute(h, t, c);
    MulNonneg(h - t, c);
    assert c * t == t * c;
  }

  lemma ReciprocalAntitone(a: real, b: real)
    requires 0.0 < a <= b
    ensures 1.0 / b <= 1.0 / a
  {
  }

  /** A number of halvings after which `height` is at most `t`. */
  function Enough(t: real): nat
    requires t > 0.0
  {
    var m := (1.0 / t).Floor;
    if m < 0 then 0 else m
  }

  lemma EnoughSuffices(t: real)
    requires t > 0.0
    ensures Half(Enough(t)) <= t
  {
    var x := 1.0 / t;
    var n := Enough(t);
    var c := n as real + 1.0;
    assert x * t == 1.0;
    assert x < c;
    AboveByProduct(x, c, t);
    HalfTimesCount(n);
    BelowByProduct(Half(n), t, c);
  }

  /** The number of passes the do-while makes when `n` passes are already
      done, its `height` is 0.5^(n+1) and the loop keeps going while that
      exceeds `t`. */
  function PassesFrom(n: nat, t: real): (m: nat)
    requires t > 0.0
    ensures m >= n
    decreases Enough(t) - n
  {
    EnoughSuffices(t);
    HalfAntitone(Enough(t), n + 1);
    if Half(n + 1) <= t then n else PassesFrom(n + 1, t)
  }

  /** The passes of the do-while: at least one, then as long as `height`
      exceeds the threshold. */
  function Passes(t: real): nat
    requires t > 0.0
  {
    PassesFrom(1, t)
  }

  /** The value `getTerrainHeightScale` returns for threshold `t`. */
  function HeightScale(t: real): real
    requires t > 0.0
  {
    SeriesClosedForm(Passes(t));
    1.0 / SeriesSum(Passes(t))
  }

  /** The pass count is the least n >= 1 whose final `height` 0.5^(n+1) is
      at most the threshold. */
  lemma {:induction false} PassesFromLeast(n: nat, t: real)
    requires t > 0.0
    ensures Half(PassesFrom(n, t) + 1) <= t
    ensures forall k :: n + 1 <= k <= PassesFrom(n, t) ==> Half(k) > t
    decreases Enough(t) - n
  {
    EnoughSuffices(t);
    HalfAntitone(Enough(t), n + 1);
    if Half(n + 1) > t {
      PassesFromLeast(n + 1, t);
    }
  }

  /** The do-while of `getTerrainHeightScale`; the threshold is the zoomed
      terrain resolution. */
  method TerrainHeightScale(view: View, torus: Torus) returns (r: real)
    requires view.zoom * torus.terrainResolution > 0.0
    ensures r == HeightScale(view.zoom * torus.terrainResolution)
  {
    ghost var t := view.zoom * torus.terrainResolution;
    var scale := 0.0;
    var height := 0.5;
    ghost var n: nat := 0;
    while true
      invariant scale == SeriesSum(n) && height == Half(n + 1)
      invariant scale + 2.0 * height == 1.0
      invariant PassesFrom(n + 1, t) == Passes(t)
      decreases Passes(t) - n
    {
      SeriesClosedForm(n + 1);
      scale := scale + height;
      height := height * 0.5;
      n := n + 1;
      if !(height > view.zoom * torus.terrainResolution) {
        break;
      }
    }
    r := 1.0 / scale;
  }

  /** The series has at least its first term and stays below 1, so the scale
      lies in (1, 2]; on exit `height` is at most the threshold. */
  lemma HeightScaleBounds(t: real)
    requires t > 0.0
    ensures Passes(t) >= 1
    ensures 0.5 <= SeriesSum(Passes(t)) < 1.0
    ensures 1.0 < HeightScale(t) <= 2.0
    ensures Half(Passes(t) + 1) <= t
  {
    var n := Passes(t);
    SeriesClosedForm(n);
    HalfAntitone(1, n);
    PassesFromLeast(1, t);
  }

  /** A threshold of 1/4 or more stops the loop after its one mandatory pass. */
  lemma CoarseThresholdOnePass(t: real)
    requires t >= 0.25
    ensures Passes(t) == 1 && HeightScale(t) == 2.0
  {
  }

  /** A smaller threshold means at least as many terms, hence a scale that is
      not larger. */
  lemma HeightScaleAntitone(t1: real, t2: real)
    requires 0.0 < t1 <= t2
    ensures Passes(t2) <= Passes(t1)
    ensures HeightScale(t1) <= HeightScale(t2)
  {
    var n1, n2 := Passes(t1), Passes(t2);
    PassesFromLeast(1, t1);
    PassesFromLeast(1, t2);
    SeriesClosedForm(n1);
    SeriesClosedForm(n2);
    HalfAntitone(n2, n1);
    HalfAntitone(1, n2);
    ReciprocalAntitone(SeriesSum(n2), SeriesSum(n1));
  }

  /** The threshold 0.1 is reached after three passes: 1 / (1/2 + 1/4 + 1/8). */
  lemma ThresholdTenth()
    ensures Passes(0.1) == 3 && HeightScale(0.1) == 1.0 / 0.875
  {
  }
}
