/** The lap-delta trail: segments between consecutive trail points,
    coloured green where the lap is faster than the previous one and red
    where it is slower, fading in from the oldest segment. Only the
    colours, the fade and the coordinate transform are modelled; drawing is
    left out. */
module LapDeltaRenderer {
  import opened Common

  type Color = (int, int, int, int)

  const Gray: Color := (150, 150, 150, 200)

  /** A trail point: world position and the time delta there in seconds. */
  datatype TrailPoint = TrailPoint(x: real, y: real, delta: real)

  /** The camera parameters, each optional. */
  datatype Camera = Camera(
    zoom: Option<real>, panX: Option<real>, panY: Option<real>,
    viewportWidth: Option<real>, viewportHeight: Option<real>)

  const NoCamera: Camera := Camera(None, None, None, None, None)

  /** How strongly a delta of this size is coloured: |d| / 0.5, capped at 1. */
  function Intensity(d: real): (i: real)
    ensures 0.0 <= i <= 1.0
  {
    MinReal(1.0, AbsReal(d) / 0.5)
  }

  /** `int(100 + 155 * intensity)`. */
  function Channel(intensity: real): int
  {
    Trunc(100.0 + 155.0 * intensity)
  }

  /** `_delta_to_color`. */
  function DeltaToColor(d: real): Color
  {
    if d < -0.05 then (0, Channel(Intensity(d)), 0, 200)
    else if d > 0.05 then (Channel(Intensity(d)), 0, 0, 200)
    else Gray
  }

  /** Faster by more than 0.05 s is green, slower by more than 0.05 s is
      red, each channel in [100, 255] and full from half a second on; in
      between is gray. */
  lemma DeltaToColorSpec(d: real)
    ensures d < -0.05 ==>
      var c := DeltaToColor(d);
      c.0 == 0 && c.2 == 0 && c.3 == 200 && 100 <= c.1 <= 255 && (d <= -0.5 <==> c.1 == 255)
    ensures d > 0.05 ==>
      var c := DeltaToColor(d);
      c.1 == 0 && c.2 == 0 && c.3 == 200 && 100 <= c.0 <= 255 && (d >= 0.5 <==> c.0 == 255)
    ensures -0.05 <= d <= 0.05 ==> DeltaToColor(d) == Gray
  {
    var i := Intensity(d);
    TruncBetween(100.0 + 155.0 * i, 100, 255);
  }

  /** Gaining and losing the same time give the same shade, in green and
      in red. */
  lemma DeltaToColorSymmetric(d: real)
    requires d > 0.05
    ensures DeltaToColor(-d).1 == DeltaToColor(d).0
  {
  }

  /** A larger loss is never a paler red. */
  lemma DeltaToColorMonotone(d1: real, d2: real)
    requires 0.05 < d1 <= d2
    ensures DeltaToColor(d1).0 <= DeltaToColor(d2).0
  {
    TruncMonotone(100.0 + 155.0 * Intensity(d1), 100.0 + 155.0 * Intensity(d2));
  }

  lemma TruncMonotone(x: real, y: real)
    requires 0.0 <= x <= y
    ensures Trunc(x) <= Trunc(y)
  {
  }

  /** The fade alpha of segment k of a trail of n points,
      `int(100 + 155 * k / max(1, n - 1))`. */
  function FadeAlpha(k: nat, n: nat): int
  {
    Trunc(100.0 + 155.0 * (k as real / (if n - 1 >= 1 then n - 1 else 1) as real))
  }

  /** The oldest segment has alpha 100, alphas never decrease along the
      trail, and no segment of the trail reaches 255. */
  lemma FadeAlphaSpec(j: nat, k: nat, n: nat)
    requires j <= k < n - 1
    ensures FadeAlpha(0, n) == 100
    ensures FadeAlpha(j, n) <= FadeAlpha(k, n)
    ensures 100 <= FadeAlpha(k, n) < 255
  {
    var d := (n - 1) as real;
    DivMonotone(j as real, k as real, d);
    assert 0.0 <= k as real / d < 1.0;
    TruncMonotone(100.0 + 155.0 * (j as real / d), 100.0 + 155.0 * (k as real / d));
  }

  /** `_world_to_screen`: zoom, then pan, then centre in the viewport
      (zoom 1, pan 0 and an 800 by 600 viewport by default). */
  function WorldToScreen(x: real, y: real, cam: Camera): (real, real)
  {
    var zoom := GetOr(cam.zoom, 1.0);
    (x * zoom + GetOr(cam.panX, 0.0) + GetOr(cam.viewportWidth, 800.0) / 2.0,
     y * zoom + GetOr(cam.panY, 0.0) + GetOr(cam.viewportHeight, 600.0) / 2.0)
  }

  /** The inverse transform, for a non-zero zoom. */
  function ScreenToWorld(sx: real, sy: real, cam: Camera): (real, real)
    requires GetOr(cam.zoom, 1.0) != 0.0
  {
    var zoom := GetOr(cam.zoom, 1.0);
    ((sx - GetOr(cam.panX, 0.0) - GetOr(cam.viewportWidth, 800.0) / 2.0) / zoom,
     (sy - GetOr(cam.panY, 0.0) - GetOr(cam.viewportHeight, 600.0) / 2.0) / zoom)
  }

  /** With no camera parameters the world origin is the centre of an 800
      by 600 viewport, and any non-zero zoom can be undone. */
  lemma WorldToScreenSpec(x: real, y: real, cam: Camera)
    ensures WorldToScreen(x, y, NoCamera) == (x + 400.0, y + 300.0)
    ensures GetOr(cam.zoom, 1.0) != 0.0 ==>
      var s := WorldToScreen(x, y, cam);
      ScreenToWorld(s.0, s.1, cam) == (x, y)
  {
    var zoom := GetOr(cam.zoom, 1.0);
    if zoom != 0.0 {
      var s := WorldToScreen(x, y, cam);
      assert s.0 - GetOr(cam.panX, 0.0) - GetOr(cam.viewportWidth, 800.0) / 2.0 == x * zoom;
      assert s.1 - GetOr(cam.panY, 0.0) - GetOr(cam.viewportHeight, 600.0) / 2.0 == y * zoom;
      MulDivCancel(x, zoom);
      MulDivCancel(y, zoom);
    }
  }

  lemma MulDivCancel(x: real, z: real)
    requires z != 0.0
    ensures x * z / z == x
  {
  }

  /** A drawn segment: screen end points and colour. */
  datatype Segment = Segment(x1: real, y1: real, x2: real, y2: real, color: Color)

  /** Segment k of a trail, `_render_car_delta`'s loop body: the colour of
      the two points' mean delta, with the fade alpha when fading is on. */
  function SegmentAt(points: seq<TrailPoint>, k: nat, cam: Camera, fade: bool): Segment
    requires k + 1 < |points|
  {
    var p, q := points[k], points[k + 1];
    var c := DeltaToColor((p.delta + q.delta) / 2.0);
    var color := if fade then (c.0, c.1, c.2, FadeAlpha(k, |points|)) else c;
    var (sx1, sy1) := WorldToScreen(p.x, p.y, cam);
    var (sx2, sy2) := WorldToScreen(q.x, q.y, cam);
    Segment(sx1, sy1, sx2, sy2, color)
  }

  /** The segments drawn for a trail, oldest first: none for fewer than two
      points. */
  function Segments(points: seq<TrailPoint>, cam: Camera, fade: bool): (r: seq<Segment>)
    ensures |points| < 2 ==> r == []
    ensures |points| >= 2 ==> |r| == |points| - 1
  {
    if |points| < 2 then []
    else seq(|points| - 1, k requires 0 <= k < |points| - 1 => SegmentAt(points, k, cam, fade))
  }

  /** The drawn trail is connected: each segment starts where the previous
      one ends, the first starts at the first point and the last ends at
      the last; and with fading on, the alphas rise from 100 and stay below
      255. */
  lemma SegmentsSpec(points: seq<TrailPoint>, cam: Camera, fade: bool)
    requires |points| >= 2
    ensures var r := Segments(points, cam, fade);
      (forall k :: 0 <= k < |r| - 1 ==> r[k].x2 == r[k + 1].x1 && r[k].y2 == r[k + 1].y1)
      && (r[0].x1, r[0].y1) == WorldToScreen(points[0].x, points[0].y, cam)
      && (r[|r| - 1].x2, r[|r| - 1].y2) == WorldToScreen(points[|points| - 1].x, points[|points| - 1].y, cam)
    ensures fade ==>
      var r := Segments(points, cam, fade);
      r[0].color.3 == 100
      && (forall j, k :: 0 <= j <= k < |r| ==> r[j].color.3 <= r[k].color.3)
      && (forall k :: 0 <= k < |r| ==> 100 <= r[k].color.3 < 255)
  {
    var r := Segments(points, cam, fade);
    if fade {
      FadeAlphaSpec(0, 0, |points|);
      forall j, k | 0 <= j <= k < |r| ensures r[j].color.3 <= r[k].color.3 && 100 <= r[k].color.3 < 255 {
        FadeAlphaSpec(j, k, |points|);
      }
    }
  }
}
