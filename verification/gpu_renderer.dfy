/** The non-drawing logic of the canvas renderer: colour ramps for
    deviation, acceleration and speed delta, the race timer fields, wheel
    zoom, and the HUD panel order, reordering, collapse and item toggles.
    Colour channels are integers; `int(...)` is truncation toward zero. */
module GpuRenderer {
  import opened Common

  datatype Rgb = Rgb(r: int, g: int, b: int)
  datatype Rgba = Rgba(r: int, g: int, b: int, a: int)

  /** `int(from + (to - from) * t)`. */
  function Channel(from: int, to: int, t: real): int
  {
    Trunc(from as real + t * (to as real - from as real))
  }

  /** A channel ramp starts at `from`, ends at `to`, and stays between
      them for t in [0, 1]. */
  lemma ChannelSpec(from: int, to: int, t: real)
    ensures t == 0.0 ==> Channel(from, to, t) == from
    ensures t == 1.0 ==> Channel(from, to, t) == to
    ensures 0.0 <= t <= 1.0 ==>
      (from <= Channel(from, to, t) <= to) || (to <= Channel(from, to, t) <= from)
  {
    if t == 0.0 || t == 1.0 { ChannelEnds(from, to, t); }
    if 0.0 <= t <= 1.0 { ChannelBetween(from, to, t); }
  }

  lemma ChannelEnds(from: int, to: int, t: real)
    requires t == 0.0 || t == 1.0
    ensures Channel(from, to, t) == if t == 0.0 then from else to
  {
  }

  lemma ChannelBetween(from: int, to: int, t: real)
    requires 0.0 <= t <= 1.0
    ensures (from <= Channel(from, to, t) <= to) || (to <= Channel(from, to, t) <= from)
  {
    var x := from as real + t * (to as real - from as real);
    assert Channel(from, to, t) == Trunc(x);
    LerpBetween(from as real, to as real, t);
    TruncBetweenEnds(x, from, to);
  }

  lemma TruncBetweenEnds(x: real, a: int, b: int)
    requires Between(x, a as real, b as real)
    ensures (a <= Trunc(x) <= b) || (b <= Trunc(x) <= a)
  {
    if a <= b { TruncBetween(x, a, b); } else { TruncBetween(x, b, a); }
  }

  function Lerp(a: Rgb, b: Rgb, t: real, alpha: int): Rgba
  {
    Rgba(Channel(a.r, b.r, t), Channel(a.g, b.g, t), Channel(a.b, b.b, t), alpha)
  }

  /** Channel by channel between the ends, for t in [0, 1]. */
  predicate BetweenColors(c: Rgba, a: Rgb, b: Rgb)
  {
    ((a.r <= c.r <= b.r) || (b.r <= c.r <= a.r))
    && ((a.g <= c.g <= b.g) || (b.g <= c.g <= a.g))
    && ((a.b <= c.b <= b.b) || (b.b <= c.b <= a.b))
  }

  lemma LerpSpec(a: Rgb, b: Rgb, t: real, alpha: int)
    ensures t == 0.0 ==> Lerp(a, b, t, alpha) == Rgba(a.r, a.g, a.b, alpha)
    ensures t == 1.0 ==> Lerp(a, b, t, alpha) == Rgba(b.r, b.g, b.b, alpha)
    ensures 0.0 <= t <= 1.0 ==> BetweenColors(Lerp(a, b, t, alpha), a, b)
  {
    ChannelSpec(a.r, b.r, t);
    ChannelSpec(a.g, b.g, t);
    ChannelSpec(a.b, b.b, t);
  }

  // ---------------------------------------------------------------------
  // Colour ramps
  // ---------------------------------------------------------------------

  const White := Rgb(255, 255, 255)
  const DeviationRed := Rgb(255, 68, 68)
  const DeviationBlue := Rgb(68, 119, 255)
  const HighlightAlpha: int := 80

  /** `get_deviation_color`: white at zero, toward red on the right and
      blue on the left, saturating at 2 m. */
  function DeviationColor(deviation: real): Rgba
  {
    var clamped := ClampReal(deviation, -2.0, 2.0);
    var t := AbsReal(clamped) / 2.0;
    if deviation > 0.0 then Lerp(White, DeviationRed, t, HighlightAlpha)
    else if deviation < 0.0 then Lerp(White, DeviationBlue, t, HighlightAlpha)
    else Rgba(255, 255, 255, HighlightAlpha)
  }

  lemma DeviationColorSpec(deviation: real)
    ensures var c := DeviationColor(deviation);
      c.a == HighlightAlpha
      && (deviation == 0.0 ==> c == Rgba(255, 255, 255, 80))
      && (deviation > 0.0 ==> BetweenColors(c, White, DeviationRed))
      && (deviation < 0.0 ==> BetweenColors(c, White, DeviationBlue))
      && (deviation >= 2.0 ==> c == Rgba(255, 68, 68, 80))
      && (deviation <= -2.0 ==> c == Rgba(68, 119, 255, 80))
  {
    var t := AbsReal(ClampReal(deviation, -2.0, 2.0)) / 2.0;
    LerpSpec(White, DeviationRed, t, HighlightAlpha);
    LerpSpec(White, DeviationBlue, t, HighlightAlpha);
  }

  /** `get_accel_color`: low → medium on [0, 0.5], medium → high above. */
  function AccelColor(low: Rgb, mid: Rgb, high: Rgb, accelNorm: real, alpha: int): Rgba
  {
    if accelNorm <= 0.5 then Lerp(low, mid, accelNorm * 2.0, alpha)
    else Lerp(mid, high, (accelNorm - 0.5) * 2.0, alpha)
  }

  lemma AccelColorSpec(low: Rgb, mid: Rgb, high: Rgb, accelNorm: real, alpha: int)
    ensures var c := AccelColor(low, mid, high, accelNorm, alpha);
      c.a == alpha
      && (accelNorm == 0.0 ==> c == Rgba(low.r, low.g, low.b, alpha))
      && (accelNorm == 0.5 ==> c == Rgba(mid.r, mid.g, mid.b, alpha))
      && (accelNorm == 1.0 ==> c == Rgba(high.r, high.g, high.b, alpha))
      && (0.0 <= accelNorm <= 0.5 ==> BetweenColors(c, low, mid))
      && (0.5 < accelNorm <= 1.0 ==> BetweenColors(c, mid, high))
  {
    LerpSpec(low, mid, accelNorm * 2.0, alpha);
    LerpSpec(mid, high, (accelNorm - 0.5) * 2.0, alpha);
  }

  const DeltaRangeKmh: real := 30.0

  /** `get_delta_speed_color`: the delta clamped to ±30 km/h and mapped to
      [0, 1]; slower → baseline on the lower half, baseline → faster above. */
  function DeltaSpeedColor(slower: Rgb, baseline: Rgb, faster: Rgb, deltaKmh: real, alpha: int): Rgba
  {
    var clamped := ClampReal(deltaKmh, -DeltaRangeKmh, DeltaRangeKmh);
    var normalized := (clamped + 30.0) / 60.0;
    if normalized <= 0.5 then Lerp(slower, baseline, normalized * 2.0, alpha)
    else Lerp(baseline, faster, (normalized - 0.5) * 2.0, alpha)
  }

  lemma DeltaSpeedColorSpec(slower: Rgb, baseline: Rgb, faster: Rgb, deltaKmh: real, alpha: int)
    ensures var c := DeltaSpeedColor(slower, baseline, faster, deltaKmh, alpha);
      c.a == alpha
      && (deltaKmh <= -30.0 ==> c == Rgba(slower.r, slower.g, slower.b, alpha))
      && (deltaKmh == 0.0 ==> c == Rgba(baseline.r, baseline.g, baseline.b, alpha))
      && (deltaKmh >= 30.0 ==> c == Rgba(faster.r, faster.g, faster.b, alpha))
      && (deltaKmh <= 0.0 ==> BetweenColors(c, slower, baseline))
      && (deltaKmh > 0.0 ==> BetweenColors(c, baseline, faster))
  {
    var clamped := ClampReal(deltaKmh, -DeltaRangeKmh, DeltaRangeKmh);
    var normalized := (clamped + 30.0) / 60.0;
    assert 0.0 <= normalized <= 1.0;
    LerpSpec(slower, baseline, normalized * 2.0, alpha);
    LerpSpec(baseline, faster, (normalized - 0.5) * 2.0, alpha);
  }

  // ---------------------------------------------------------------------
  // Race timer
  // ---------------------------------------------------------------------

  /** Python's float `x % 60` (floored, never negative). */
  function Mod60(x: real): (r: real)
    ensures 0.0 <= r < 60.0
  {
    x - 60.0 * (x / 60.0).Floor as real
  }

  function Mod1000(x: real): (r: real)
    ensures 0.0 <= r < 1000.0
  {
    x - 1000.0 * (x / 1000.0).Floor as real
  }

  datatype Clock = Clock(minutes: int, seconds: int, millis: int)

  /** `draw_race_timer`: minutes, seconds and milliseconds of the replay
      time. */
  function TimerFields(timeMs: real): Clock
  {
    var totalSeconds := timeMs / 1000.0;
    Clock((totalSeconds / 60.0).Floor, Trunc(Mod60(totalSeconds)), Trunc(Mod1000(timeMs)))
  }

  /** Seconds lie in [0, 59] and milliseconds in [0, 999] for every time
      (Python's `%` is floored), minutes are whole minutes elapsed. */
  lemma TimerFieldsSpec(timeMs: real)
    ensures var c := TimerFields(timeMs);
      0 <= c.seconds <= 59 && 0 <= c.millis <= 999
      && c.minutes as real * 60000.0 <= timeMs < (c.minutes + 1) as real * 60000.0
      && (timeMs >= 0.0 ==> c.minutes >= 0)
  {
  }

  // ---------------------------------------------------------------------
  // HUD order
  // ---------------------------------------------------------------------

  /** Appends each candidate not already present, in candidate order. */
  function AppendMissing(d: seq<string>, cands: seq<string>): (r: seq<string>)
    ensures |d| <= |r| && r[..|d|] == d
  {
    if cands == [] then d
    else
      var p := AppendMissing(d, cands[..|cands| - 1]);
      var c := cands[|cands| - 1];
      if c in p then p else p + [c]
  }

  /** The result holds exactly the ids of d and of the candidates, and
      repeats nothing that d does not. */
  lemma {:induction false} AppendMissingSpec(d: seq<string>, cands: seq<string>)
    ensures forall c :: c in AppendMissing(d, cands) <==> c in d || c in cands
    ensures Distinct(d) ==> Distinct(AppendMissing(d, cands))
  {
    if cands != [] {
      var q := cands[..|cands| - 1];
      AppendMissingSpec(d, q);
      assert cands == q + [cands[|cands| - 1]];
    }
  }

  /** The saved order restricted to the selected cars. */
  function SavedOrder(hudOrder: seq<string>, selected: seq<string>): seq<string>
  {
    Filter(hudOrder, c => c in selected)
  }

  /** Drawing order of the HUD panels: the saved order restricted to the
      selection, then newly selected cars in selection order; with no saved
      order, the selection itself. */
  function DisplayOrder(hudOrder: seq<string>, selected: seq<string>): seq<string>
  {
    if selected == [] then []
    else if hudOrder != [] then AppendMissing(SavedOrder(hudOrder, selected), selected)
    else selected
  }

  lemma DisplayOrderSpec(hudOrder: seq<string>, selected: seq<string>)
    ensures forall c :: c in DisplayOrder(hudOrder, selected) <==> c in selected
    ensures Distinct(hudOrder) && Distinct(selected) ==> Distinct(DisplayOrder(hudOrder, selected))
  {
    var kept := SavedOrder(hudOrder, selected);
    AppendMissingSpec(kept, selected);
    if Distinct(hudOrder) {
      FilterNoDuplicates(hudOrder, c => c in selected);
    }
  }

  lemma {:induction false} FilterNoDuplicates(s: seq<string>, keep: string -> bool)
    requires Distinct(s)
    ensures Distinct(Filter(s, keep))
  {
    if s != [] {
      FilterNoDuplicates(s[1..], keep);
      FilterSubset(s, keep);
    }
  }

  lemma FilterSubset(s: seq<string>, keep: string -> bool)
    requires s != []
    ensures Filter(s, keep) == if keep(s[0]) then [s[0]] + Filter(s[1..], keep) else Filter(s[1..], keep)
  {
  }

  /** Position of the first x (Python `list.index`). */
  function PositionOf(s: seq<string>, x: string): (k: nat)
    requires x in s
    ensures k < |s| && s[k] == x && forall j :: 0 <= j < k ==> s[j] != x
  {
    if s[0] == x then 0 else 1 + PositionOf(s[1..], x)
  }

  function RemoveAt(s: seq<string>, i: nat): (r: seq<string>)
    requires i < |s|
  {
    s[..i] + s[i + 1..]
  }

  const HudHeaderHeight: real := 30.0

  /** The drop index: `max(0, min(len - 1, int(y / 30)))`. */
  function DropIndex(len: nat, canvasY: real): int
  {
    if len == 0 then 0 else ClampInt(Trunc(canvasY / HudHeaderHeight), 0, len - 1)
  }

  /** Pop the dragged car and insert it at the drop index. */
  function Reorder(order: seq<string>, car: string, canvasY: real): (r: seq<string>)
    requires car in order
  {
    var k := DropIndex(|order|, canvasY);
    var rest := RemoveAt(order, PositionOf(order, car));
    rest[..k] + [car] + rest[k..]
  }

  /** Reordering is a permutation with the dragged car at the drop index,
      and the other cars keep their relative order. */
  lemma ReorderSpec(order: seq<string>, car: string, canvasY: real)
    requires car in order
    ensures var r := Reorder(order, car, canvasY);
      var k := DropIndex(|order|, canvasY);
      0 <= k < |r| && r[k] == car
      && multiset(r) == multiset(order)
      && RemoveAt(r, k) == RemoveAt(order, PositionOf(order, car))
  {
    var i := PositionOf(order, car);
    var k := DropIndex(|order|, canvasY);
    var rest := RemoveAt(order, i);
    InsertAtSpec(rest, k, car);
    RemoveAtMultiset(order, i);
  }

  lemma InsertAtSpec(s: seq<string>, k: int, x: string)
    requires 0 <= k <= |s|
    ensures var r := s[..k] + [x] + s[k..];
      r[k] == x && RemoveAt(r, k) == s && multiset(r) == multiset(s) + multiset{x}
  {
    var r := s[..k] + [x] + s[k..];
    assert r[..k] == s[..k] && r[k + 1..] == s[k..];
    assert s[..k] + s[k..] == s;
  }

  lemma RemoveAtMultiset(s: seq<string>, i: nat)
    requires i < |s|
    ensures multiset(RemoveAt(s, i)) + multiset{s[i]} == multiset(s)
  {
    assert s == s[..i] + [s[i]] + s[i + 1..];
  }

  // ---------------------------------------------------------------------
  // HUD toggle keys
  // ---------------------------------------------------------------------

  const KeySep: char := '_'

  /** Python `s.split(sep)`. */
  function SplitOn(s: string, sep: char): (parts: seq<string>)
    ensures |parts| >= 1
    decreases |s|
  {
    if sep !in s then [s]
    else
      var i := CharPos(s, sep);
      [s[..i]] + SplitOn(s[i + 1..], sep)
  }

  function CharPos(s: string, c: char): (k: nat)
    requires c in s
    ensures k < |s| && s[k] == c && forall j :: 0 <= j < k ==> s[j] != c
  {
    if s[0] == c then 0 else 1 + CharPos(s[1..], c)
  }

  /** Python `sep.join(parts)`. */
  function JoinWith(parts: seq<string>, sep: char): string
  {
    if parts == [] then ""
    else if |parts| == 1 then parts[0]
    else parts[0] + [sep] + JoinWith(parts[1..], sep)
  }

  /** Joining what was split restores the string. */
  lemma {:induction false} JoinSplit(s: string, sep: char)
    ensures JoinWith(SplitOn(s, sep), sep) == s
    decreases |s|
  {
    if sep in s {
      var i := CharPos(s, sep);
      var tail := SplitOn(s[i + 1..], sep);
      var parts := SplitOn(s, sep);
      assert parts == [s[..i]] + tail;
      assert |parts| >= 2 && parts[0] == s[..i] && parts[1..] == tail;
      JoinSplit(s[i + 1..], sep);
      calc {
        JoinWith(parts, sep);
        parts[0] + [sep] + JoinWith(tail, sep);
        s[..i] + [sep] + s[i + 1..];
        { SplitAround(s, i); }
        s;
      }
    }
  }

  lemma SplitAround(s: string, i: nat)
    requires i < |s|
    ensures s[..i] + [s[i]] + s[i + 1..] == s
  {
  }

  /** The key of a HUD item toggle: "{toggle}_{car_id}". */
  function ToggleKey(toggle: string, carId: string): string
  {
    toggle + [KeySep] + carId
  }

  /** The first '_' segment and the rejoined rest. */
  function ParseToggleKey(key: string): (string, string)
  {
    var parts := SplitOn(key, KeySep);
    (parts[0], JoinWith(parts[1..], KeySep))
  }

  /** A toggle name without '_' and any car id, underscores included, are
      recovered from their key. */
  lemma ToggleKeyRoundTrip(toggle: string, carId: string)
    requires KeySep !in toggle
    ensures ParseToggleKey(ToggleKey(toggle, carId)) == (toggle, carId)
  {
    var key := ToggleKey(toggle, carId);
    assert key[|toggle|] == KeySep;
    assert forall j :: 0 <= j < |toggle| ==> key[j] == toggle[j];
    var i := CharPos(key, KeySep);
    assert i == |toggle|;
    assert key[..i] == toggle && key[i + 1..] == carId;
    JoinSplit(carId, KeySep);
  }

  // ---------------------------------------------------------------------
  // The renderer's interaction state
  // ---------------------------------------------------------------------

  const MinZoom: real := 0.5
  const MaxZoom: real := 10.0
  const ZoomStep: real := 0.1

  /** The renderer's view and HUD state, together with the world-model
      fields its handlers update (selection, HUD order, collapse and
      per-item visibility). */
  class Renderer {
    var zoom: real
    var panX: real
    var panY: real
    var trackDrawn: bool
    var backgroundDrawn: bool
    var draggingHud: Option<string>
    var dragStartY: real
    var hudOrder: seq<string>
    var hudCollapsed: map<string, bool>
    var hudVisible: map<string, map<string, bool>>
    var selected: seq<string>

    /** The zoom level stays inside the wheel clamp. */
    predicate Valid()
      reads this
    {
      MinZoom <= zoom <= MaxZoom
    }

    constructor ()
      ensures Valid()
      ensures zoom == 1.0 && panX == 0.0 && panY == 0.0 && !trackDrawn && !backgroundDrawn
      ensures draggingHud == None && dragStartY == 0.0
      ensures hudOrder == [] && hudCollapsed == map[] && hudVisible == map[] && selected == []
    {
      zoom, panX, panY := 1.0, 0.0, 0.0;
      trackDrawn, backgroundDrawn := false, false;
      draggingHud, dragStartY := None, 0.0;
      hudOrder, hudCollapsed, hudVisible, selected := [], map[], map[], [];
    }

    /** `reset_view`: zoom 1, no pan, track redrawn. */
    method ResetView()
      modifies this
      ensures Valid()
      ensures zoom == 1.0 && panX == 0.0 && panY == 0.0 && !trackDrawn && !backgroundDrawn
      ensures draggingHud == old(draggingHud) && dragStartY == old(dragStartY)
      ensures hudOrder == old(hudOrder) && hudCollapsed == old(hudCollapsed)
      ensures hudVisible == old(hudVisible) && selected == old(selected)
    {
      zoom, panX, panY := 1.0, 0.0, 0.0;
      trackDrawn, backgroundDrawn := false, false;
    }

    /** `on_mouse_wheel`: outside the canvas nothing happens; otherwise
        zoom by 1.1 (wheel up) or 0.9, clamped to [0.5, 10]. */
    method OnMouseWheel(delta: real, overCanvas: bool)
      requires Valid()
      modifies this
      ensures Valid()
      ensures !overCanvas ==>
        (zoom == old(zoom) && trackDrawn == old(trackDrawn) && backgroundDrawn == old(backgroundDrawn))
      ensures overCanvas ==>
        zoom == ClampReal(old(zoom) * (if delta > 0.0 then 1.0 + ZoomStep else 1.0 - ZoomStep), MinZoom, MaxZoom)
        && !trackDrawn && !backgroundDrawn
      ensures overCanvas && delta > 0.0 ==> zoom >= old(zoom)
      ensures overCanvas && delta <= 0.0 ==> zoom <= old(zoom)
      ensures panX == old(panX) && panY == old(panY)
      ensures draggingHud == old(draggingHud) && dragStartY == old(dragStartY)
      ensures hudOrder == old(hudOrder) && hudCollapsed == old(hudCollapsed)
      ensures hudVisible == old(hudVisible) && selected == old(selected)
    {
      if !overCanvas {
        return;
      }
      if delta > 0.0 {
        zoom := zoom * (1.0 + ZoomStep);
      } else {
        zoom := zoom * (1.0 - ZoomStep);
      }
      zoom := ClampReal(zoom, MinZoom, MaxZoom);
      trackDrawn, backgroundDrawn := false, false;
    }

    /** The HUD-order part of `draw_hud`: the panels to draw, saving the
        selection as the order when none is saved yet. */
    method DisplayCars() returns (display: seq<string>)
      modifies this
      ensures display == DisplayOrder(old(hudOrder), selected)
      ensures hudOrder == if old(hudOrder) == [] && selected != [] then selected else old(hudOrder)
      ensures zoom == old(zoom) && panX == old(panX) && panY == old(panY)
      ensures trackDrawn == old(trackDrawn) && backgroundDrawn == old(backgroundDrawn)
      ensures draggingHud == old(draggingHud) && dragStartY == old(dragStartY)
      ensures hudCollapsed == old(hudCollapsed) && hudVisible == old(hudVisible) && selected == old(selected)
    {
      if selected == [] {
        return [];
      }
      if hudOrder != [] {
        display := SavedOrder(hudOrder, selected);
        ghost var kept := display;
        var i := 0;
        while i < |selected|
          invariant 0 <= i <= |selected|
          invariant display == AppendMissing(kept, selected[..i])
        {
          assert selected[..i + 1][..i] == selected[..i];
          if selected[i] !in display {
            display := display + [selected[i]];
          }
          i := i + 1;
        }
        assert selected[..i] == selected;
      } else {
        display := selected;
        hudOrder := display;
      }
    }

    /** A click on a collapse button flips that panel (default expanded). */
    method ToggleCollapse(carId: string)
      modifies this
      ensures hudCollapsed == old(hudCollapsed)[carId := !MapGet(old(hudCollapsed), carId, false)]
      ensures zoom == old(zoom) && panX == old(panX) && panY == old(panY)
      ensures trackDrawn == old(trackDrawn) && backgroundDrawn == old(backgroundDrawn)
      ensures draggingHud == old(draggingHud) && dragStartY == old(dragStartY)
      ensures hudOrder == old(hudOrder) && hudVisible == old(hudVisible) && selected == old(selected)
    {
      hudCollapsed := hudCollapsed[carId := !MapGet(hudCollapsed, carId, false)];
    }

    /** A click on a drag handle starts dragging that panel. */
    method StartDrag(carId: string, canvasY: real)
      modifies this
      ensures draggingHud == Some(carId) && dragStartY == canvasY
      ensures zoom == old(zoom) && panX == old(panX) && panY == old(panY)
      ensures trackDrawn == old(trackDrawn) && backgroundDrawn == old(backgroundDrawn)
      ensures hudOrder == old(hudOrder) && hudCollapsed == old(hudCollapsed)
      ensures hudVisible == old(hudVisible) && selected == old(selected)
    {
      draggingHud, dragStartY := Some(carId), canvasY;
    }

    /** A click on an item toggle: the key is parsed back into item and car,
        and the item's visibility (default shown) flips for a car that has
        a visibility table; otherwise nothing changes. */
    method ToggleHudItem(key: string)
      modifies this
      ensures var (name, carId) := ParseToggleKey(key);
        hudVisible == if carId in old(hudVisible)
          then old(hudVisible)[carId := old(hudVisible)[carId][name := !MapGet(old(hudVisible)[carId], name, true)]]
          else old(hudVisible)
      ensures zoom == old(zoom) && panX == old(panX) && panY == old(panY)
      ensures trackDrawn == old(trackDrawn) && backgroundDrawn == old(backgroundDrawn)
      ensures draggingHud == old(draggingHud) && dragStartY == old(dragStartY)
      ensures hudOrder == old(hudOrder) && hudCollapsed == old(hudCollapsed) && selected == old(selected)
    {
      var (name, carId) := ParseToggleKey(key);
      if carId in hudVisible {
        var items := hudVisible[carId];
        hudVisible := hudVisible[carId := items[name := !MapGet(items, name, true)]];
      }
    }

    /** The drag part of `on_mouse_release`: a dragged car still in the
        order moves to the drop index; dragging ends either way. */
    method EndDrag(canvasY: real)
      modifies this
      ensures draggingHud == None
      ensures old(draggingHud).Some? && old(draggingHud).value in old(hudOrder) ==>
        hudOrder == Reorder(old(hudOrder), old(draggingHud).value, canvasY)
      ensures old(draggingHud).Some? && old(draggingHud).value !in old(hudOrder) ==> hudOrder == old(hudOrder)
      ensures old(draggingHud).None? ==> hudOrder == old(hudOrder) && draggingHud == None && dragStartY == old(dragStartY)
      ensures old(draggingHud).Some? ==> draggingHud == None && dragStartY == 0.0
      ensures zoom == old(zoom) && panX == old(panX) && panY == old(panY)
      ensures trackDrawn == old(trackDrawn) && backgroundDrawn == old(backgroundDrawn)
      ensures hudCollapsed == old(hudCollapsed) && hudVisible == old(hudVisible) && selected == old(selected)
    {
      if draggingHud.Some? {
        var car := draggingHud.value;
        if car in hudOrder {
          var newIndex := DropIndex(|hudOrder|, canvasY);
          var oldIndex := PositionOf(hudOrder, car);
          var rest := hudOrder[..oldIndex] + hudOrder[oldIndex + 1..];
          hudOrder := rest[..newIndex] + [car] + rest[newIndex..];
        }
        draggingHud, dragStartY := None, 0.0;
      }
    }

    /** A click on a car flips its selection: the first occurrence is
        removed, or the car is appended. */
    method ClickCar(carId: string)
      modifies this
      ensures carId in old(selected) ==>
        selected == RemoveAt(old(selected), PositionOf(old(selected), carId))
      ensures carId !in old(selected) ==> selected == old(selected) + [carId]
      ensures zoom == old(zoom) && panX == old(panX) && panY == old(panY)
      ensures trackDrawn == old(trackDrawn) && backgroundDrawn == old(backgroundDrawn)
      ensures draggingHud == old(draggingHud) && dragStartY == old(dragStartY)
      ensures hudOrder == old(hudOrder) && hudCollapsed == old(hudCollapsed) && hudVisible == old(hudVisible)
    {
      if carId in selected {
        var k := PositionOf(selected, carId);
        selected := selected[..k] + selected[k + 1..];
      } else {
        selected := selected + [carId];
      }
    }

    /** The box-selection part of `on_mouse_release`: every boxed car not
        yet selected is appended, in box order. */
    method AddBoxSelection(boxed: seq<string>)
      modifies this
      ensures selected == AppendMissing(old(selected), boxed)
      ensures zoom == old(zoom) && panX == old(panX) && panY == old(panY)
      ensures trackDrawn == old(trackDrawn) && backgroundDrawn == old(backgroundDrawn)
      ensures draggingHud == old(draggingHud) && dragStartY == old(dragStartY)
      ensures hudOrder == old(hudOrder) && hudCollapsed == old(hudCollapsed) && hudVisible == old(hudVisible)
    {
      var i := 0;
      while i < |boxed|
        invariant 0 <= i <= |boxed|
        invariant selected == AppendMissing(old(selected), boxed[..i])
        invariant zoom == old(zoom) && panX == old(panX) && panY == old(panY)
        invariant trackDrawn == old(trackDrawn) && backgroundDrawn == old(backgroundDrawn)
        invariant draggingHud == old(draggingHud) && dragStartY == old(dragStartY)
        invariant hudOrder == old(hudOrder) && hudCollapsed == old(hudCollapsed) && hudVisible == old(hudVisible)
      {
        assert boxed[..i + 1][..i] == boxed[..i];
        if boxed[i] !in selected {
          selected := selected + [boxed[i]];
        }
        i := i + 1;
      }
      assert boxed[..i] == boxed;
    }
  }
}
