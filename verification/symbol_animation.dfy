/** The loading screen's falling-symbols animation: a progress value
    mapped onto fill/drain/reveal phases, symbols that fall and pile up,
    and the logo cycle that forms and disperses a picture. Random draws
    are inputs (the `Draws` record); drawing is left out. */
module SymbolAnimation {
  import opened Common

  datatype Phase = Fill1 | Drain1 | Fill2 | Drain2 | FinalFill | Reveal | Complete

  datatype Mode = FillDrainCycles | LogoCycle

  datatype Symbol = Symbol(
    ch: string,
    x: real, y: real,
    vx: real, vy: real,
    rotation: real, rotationSpeed: real,
    color: (int, int, int, int),
    size: int,
    tag: string,
    finalX: real, finalY: real,
    isSettled: bool,
    settleY: real)

  /** A point of the loaded picture: position, character and brightness. */
  datatype PortraitPoint = PortraitPoint(px: real, py: real, ch: string, intensity: real)

  /** The random choices an animation step consumes. */
  datatype Draws = Draws(
    /** Whether the fractional part of this frame's spawn count rounds up. */
    spawnExtra: bool,
    /** The k-th symbol spawned this frame. */
    spawned: nat -> Symbol,
    /** Start x, start y, rotation and size of the k-th logo symbol. */
    scattered: nat -> (real, real, real, int),
    /** A symbol after one dispersing frame. */
    dispersed: Symbol -> Symbol,
    /** Outward speed and upward speed pushing the k-th settled symbol when
        a drain starts. */
    pushes: nat -> (real, real))

  const Gravity: real := 400.0
  const SpawnRate: real := 50.0
  const BucketWidth: real := 8.0
  const CycleDuration: real := 4.0
  const DefaultMaxSymbols: int := 800
  const BaseColor: (int, int, int) := (212, 165, 116)

  // -----------------------------------------------------------------------
  // Phases
  // -----------------------------------------------------------------------

  /** Each phase with the progress range [start, end) it covers, in the
      order they are looked up. */
  const PhaseTable: seq<(Phase, real, real)> := [
    (Fill1, 0.0, 0.20), (Drain1, 0.20, 0.35), (Fill2, 0.35, 0.60),
    (Drain2, 0.60, 0.75), (FinalFill, 0.75, 0.95), (Reveal, 0.95, 1.0),
    (Complete, 1.0, 1.0)]

  predicate InRange(k: int, p: real)
    requires 0 <= k < |PhaseTable|
  {
    PhaseTable[k].1 <= p < PhaseTable[k].2
  }

  /** The ranges tile [0, 1): they start at 0, each ends where the next
      starts, the last real one ends at 1, and COMPLETE's range is empty. */
  lemma PhaseRangesContiguous()
    ensures PhaseTable[0].1 == 0.0 && PhaseTable[5].2 == 1.0
    ensures forall k :: 0 <= k < 5 ==> PhaseTable[k].2 == PhaseTable[k + 1].1
    ensures forall k :: 0 <= k < 6 ==> PhaseTable[k].1 < PhaseTable[k].2
    ensures PhaseTable[6].1 == PhaseTable[6].2
  {
  }

  /** Every progress in [0, 1) lies in exactly one range; no other does. */
  lemma PhaseRangesPartition(p: real)
    ensures 0.0 <= p < 1.0 ==> exists k :: 0 <= k < |PhaseTable| && InRange(k, p)
    ensures forall j, k :: 0 <= j < k < |PhaseTable| && InRange(j, p) ==> !InRange(k, p)
    ensures !(0.0 <= p < 1.0) ==> forall k :: 0 <= k < |PhaseTable| ==> !InRange(k, p)
  {
    if 0.0 <= p < 1.0 {
      if p < 0.20 { assert InRange(0, p); }
      else if p < 0.35 { assert InRange(1, p); }
      else if p < 0.60 { assert InRange(2, p); }
      else if p < 0.75 { assert InRange(3, p); }
      else if p < 0.95 { assert InRange(4, p); }
      else { assert InRange(5, p); }
    }
  }

  /** The loop of `set_progress` over the table: the phase of the first
      range holding p, if any. */
  method LookupPhase(p: real) returns (r: Option<Phase>)
    ensures r.Some? ==> exists k :: 0 <= k < |PhaseTable| && InRange(k, p) && PhaseTable[k].0 == r.value
    ensures r.None? <==> forall k :: 0 <= k < |PhaseTable| ==> !InRange(k, p)
  {
    var i := 0;
    while i < |PhaseTable|
      invariant 0 <= i <= |PhaseTable|
      invariant forall k :: 0 <= k < i ==> !InRange(k, p)
    {
      var (phase, start, end) := PhaseTable[i];
      if start <= p < end {
        assert InRange(i, p);
        return Some(phase);
      }
      i := i + 1;
    }
    return None;
  }

  // -----------------------------------------------------------------------
  // Per-symbol steps
  // -----------------------------------------------------------------------

  /** `t * t * (3 - 2 * t)`. */
  function SmoothStep(t: real): real
  {
    t * t * (3.0 - 2.0 * t)
  }

  /** The smooth step fixes 0, 1/2 and 1 and keeps [0, 1] in [0, 1]. */
  lemma SmoothStepSpec(t: real)
    ensures SmoothStep(0.0) == 0.0 && SmoothStep(0.5) == 0.5 && SmoothStep(1.0) == 1.0
    ensures 0.0 <= t <= 1.0 ==> 0.0 <= SmoothStep(t) <= 1.0
  {
    if 0.0 <= t <= 1.0 {
      var u := t * t;
      MulNonneg(t, t);
      MulNonneg(u, 3.0 - 2.0 * t);
      assert SmoothStep(t) == u * (3.0 - 2.0 * t);
      var w := (1.0 - t) * (1.0 - t);
      MulNonneg(1.0 - t, 1.0 - t);
      MulNonneg(w, 1.0 + 2.0 * t);
      assert 1.0 - SmoothStep(t) == w * (1.0 + 2.0 * t);
    }
  }

  /** An int channel of the base colour scaled by a brightness. */
  function Shade(channel: int, intensity: real): int
  {
    Trunc(channel as real * intensity)
  }

  /** A channel scaled by a brightness in [0, 1] stays within [0, channel]. */
  lemma ShadeBounds(channel: int, intensity: real)
    requires 0 <= channel && 0.0 <= intensity <= 1.0
    ensures 0 <= Shade(channel, intensity) <= channel
  {
    var c := channel as real;
    MulLeftMono(intensity, 1.0, c);
    MulNonneg(c, intensity);
    assert 0.0 <= c * intensity <= c * 1.0 == c;
    TruncBetween(c * intensity, 0, channel);
  }

  /** The colour of a picture point of the given brightness. */
  function ShadeColor(intensity: real): (int, int, int, int)
  {
    (Shade(BaseColor.0, intensity), Shade(BaseColor.1, intensity), Shade(BaseColor.2, intensity), 255)
  }

  /** One physics frame of a symbol that has not settled: gravity, motion,
      landing on the floor or pile below (settling when slow, which raises
      that pile), then bouncing off the side walls. */
  function PhysicsStep(s: Symbol, piles: map<int, real>, width: int, height: int, dt: real)
    : (r: (Symbol, map<int, real>))
    ensures !s.isSettled && 0 <= width ==> 0.0 <= r.0.x <= width as real
    ensures s.isSettled ==> r == (s, piles)
  {
    if s.isSettled then (s, piles)
    else
      var vy := s.vy + Gravity * dt;
      var x := s.x + s.vx * dt;
      var y := s.y + vy * dt;
      var rotation := s.rotation + s.rotationSpeed * dt;
      var bucket := Trunc(x / BucketWidth);
      var pile := if bucket in piles then piles[bucket] else 0.0;
      var floor := (height - 10) as real - pile;
      var (landed, piles') :=
        if y >= floor && vy > 0.0 then
          var vx := s.vx * 0.3;
          var s1 := s.(x := x, y := floor, vx := vx, vy := 0.0, rotation := rotation,
                       rotationSpeed := s.rotationSpeed * 0.5);
          if AbsReal(vx) < 10.0 then
            (s1.(isSettled := true, vx := 0.0, settleY := floor), piles[bucket := pile + s.size as real * 0.8])
          else (s1, piles)
        else (s.(x := x, y := y, vy := vy, rotation := rotation), piles);
      if landed.x < 0.0 then (landed.(x := 0.0, vx := AbsReal(landed.vx) * 0.5), piles')
      else if landed.x > width as real then (landed.(x := width as real, vx := -AbsReal(landed.vx) * 0.5), piles')
      else (landed, piles')
  }

  /** The physics frame over a list, symbol by symbol, the pile heights
      threaded through. */
  function PhysicsAll(ss: seq<Symbol>, piles: map<int, real>, width: int, height: int, dt: real)
    : (r: (seq<Symbol>, map<int, real>))
    ensures |r.0| == |ss|
  {
    if ss == [] then ([], piles)
    else
      var (init, p) := PhysicsAll(ss[..|ss| - 1], piles, width, height, dt);
      var (last, p') := PhysicsStep(ss[|ss| - 1], p, width, height, dt);
      (init + [last], p')
  }

  /** After a physics frame, settled symbols are untouched and every other
      symbol is between the walls. */
  lemma {:induction false} PhysicsAllSpec(ss: seq<Symbol>, piles: map<int, real>, width: int, height: int, dt: real)
    ensures var r := PhysicsAll(ss, piles, width, height, dt).0;
      forall k :: 0 <= k < |ss| ==>
        (if ss[k].isSettled then r[k] == ss[k] else 0 <= width ==> 0.0 <= r[k].x <= width as real)
  {
    if ss != [] {
      PhysicsAllSpec(ss[..|ss| - 1], piles, width, height, dt);
    }
  }

  /** Whether a draining symbol is still near the screen. */
  predicate OnScreen(s: Symbol, width: int, height: int)
  {
    -50.0 < s.x < (width + 50) as real && s.y < (height + 50) as real
  }

  /** One frame of the reveal: every symbol moves the fraction t dt 5 of
      its way to its picture position (t the eased progress in the reveal
      range), and its rotation decays. */
  function RevealStep(s: Symbol, t: real, dt: real): Symbol
  {
    s.(x := s.x + (s.finalX - s.x) * t * dt * 5.0,
       y := s.y + (s.finalY - s.y) * t * dt * 5.0,
       rotation := s.rotation * (1.0 - t * dt * 3.0))
  }

  /** The eased position within the reveal range [0.95, 1.0]. */
  function RevealFactor(progress: real): (t: real)
    ensures 0.0 <= t <= 1.0
  {
    var t := ClampReal((progress - 0.95) / (1.0 - 0.95), 0.0, 1.0);
    SmoothStepSpec(t);
    SmoothStep(t)
  }

  /** With a step fraction in [0, 1] a revealed symbol lands between where
      it was and its picture position. */
  lemma RevealStepToward(s: Symbol, t: real, dt: real)
    requires 0.0 <= t * dt * 5.0 <= 1.0
    ensures Between(RevealStep(s, t, dt).x, s.x, s.finalX)
    ensures Between(RevealStep(s, t, dt).y, s.y, s.finalY)
  {
    var f := t * dt * 5.0;
    assert (s.finalX - s.x) * t * dt * 5.0 == f * (s.finalX - s.x);
    assert (s.finalY - s.y) * t * dt * 5.0 == f * (s.finalY - s.y);
    LerpBetween(s.x, s.finalX, f);
    LerpBetween(s.y, s.finalY, f);
  }

  /** One forming frame of the logo cycle at eased cycle position t. */
  function ToLogoStep(s: Symbol, t: real, dt: real): Symbol
  {
    var x := s.x + (s.finalX - s.x) * t * 3.0 * dt;
    var y := s.y + (s.finalY - s.y) * t * 3.0 * dt;
    if t > 0.7 then
      var lerp := (t - 0.7) / 0.3;
      s.(x := x + (s.finalX - x) * lerp * 0.3, y := y + (s.finalY - y) * lerp * 0.3)
    else s.(x := x, y := y)
  }

  /** A symbol on its picture position stays there while forming. */
  lemma ToLogoFixesFinal(s: Symbol, t: real, dt: real)
    requires s.x == s.finalX && s.y == s.finalY
    ensures ToLogoStep(s, t, dt).x == s.finalX && ToLogoStep(s, t, dt).y == s.finalY
  {
  }

  function MapSymbols(ss: seq<Symbol>, f: Symbol -> Symbol): (r: seq<Symbol>)
    ensures |r| == |ss| && forall k :: 0 <= k < |ss| ==> r[k] == f(ss[k])
  {
    seq(|ss|, k requires 0 <= k < |ss| => f(ss[k]))
  }

  function Snap(s: Symbol): Symbol
  {
    s.(x := s.finalX, y := s.finalY)
  }

  // -----------------------------------------------------------------------
  // The animator
  // -----------------------------------------------------------------------

  class SymbolAnimator {
    const width: int
    const height: int
    const mode: Mode
    var symbols: seq<Symbol>
    var phase: Phase
    var progress: real
    var time: real
    var symbolCounter: nat
    var maxSymbols: int
    var pileHeights: map<int, real>
    var portraitPositions: seq<PortraitPoint>
    var portraitLoaded: bool
    var cycleTime: real
    var isForming: bool
    var symbolsInitialized: bool
    /** The phases `_on_phase_change` has been called with, in order. */
    var phaseChanges: seq<Phase>

    constructor (w: int, h: int, m: Mode)
      ensures width == w && height == h && mode == m
      ensures symbols == [] && phase == Fill1 && progress == 0.0 && time == 0.0 && symbolCounter == 0
      ensures maxSymbols == DefaultMaxSymbols && pileHeights == map[] && portraitPositions == []
      ensures cycleTime == 0.0 && isForming && !symbolsInitialized && phaseChanges == []
    {
      width, height, mode := w, h, m;
      symbols, phase, progress, time, symbolCounter := [], Fill1, 0.0, 0.0, 0;
      maxSymbols, pileHeights, portraitPositions, portraitLoaded := DefaultMaxSymbols, map[], [], false;
      cycleTime, isForming, symbolsInitialized, phaseChanges := 0.0, true, false, [];
    }

    /** The outcome of `load_portrait` (image sampling or the random
        fallback): the picture points, which also cap the symbol count. */
    method SetPortrait(points: seq<PortraitPoint>)
      modifies this
      ensures portraitPositions == points && portraitLoaded && maxSymbols == |points|
      ensures symbols == old(symbols) && phase == old(phase) && progress == old(progress)
    {
      portraitPositions := points;
      portraitLoaded := true;
      maxSymbols := |points|;
    }

    /** `set_progress`: progress clamped into [0, 1]; the phase becomes the
        one whose range holds it, or COMPLETE at 1. The change hook runs
        only when a range is found and its phase differs from the current
        one. */
    method SetProgress(p: real, draws: Draws)
      modifies this
      ensures progress == ClampReal(p, 0.0, 1.0)
      ensures progress < 1.0 ==> exists k :: 0 <= k < 6 && InRange(k, progress) && phase == PhaseTable[k].0
      ensures progress == 1.0 ==> phase == Complete
      ensures phaseChanges == old(phaseChanges) + (if progress < 1.0 && phase != old(phase) then [phase] else [])
    {
      progress := ClampReal(p, 0.0, 1.0);
      PhaseRangesPartition(progress);
      var found := LookupPhase(progress);
      if found.Some? {
        if phase != found.value {
          OnPhaseChange(found.value, draws);
        }
        phase := found.value;
      } else if progress >= 1.0 {
        phase := Complete;
      }
    }

    /** `_on_phase_change`: a drain pushes every settled symbol off its pile
        and clears the piles; the reveal gives the symbols their picture
        positions, characters and shades. */
    method OnPhaseChange(newPhase: Phase, draws: Draws)
      modifies this
      ensures phaseChanges == old(phaseChanges) + [newPhase]
      ensures progress == old(progress) && phase == old(phase)
      ensures |symbols| == |old(symbols)|
      ensures newPhase in {Drain1, Drain2} ==>
        pileHeights == map[] && forall k :: 0 <= k < |symbols| ==> !symbols[k].isSettled
      ensures newPhase in {Drain1, Drain2} ==>
        forall k :: 0 <= k < |symbols| ==>
          symbols[k].x == old(symbols)[k].x && symbols[k].y == old(symbols)[k].y
      ensures newPhase == Reveal ==>
        forall k :: 0 <= k < |symbols| ==>
          if k < |portraitPositions| then
            symbols[k].finalX == portraitPositions[k].px && symbols[k].finalY == portraitPositions[k].py
            && symbols[k].ch == portraitPositions[k].ch
            && symbols[k].color == ShadeColor(portraitPositions[k].intensity)
          else symbols[k] == old(symbols)[k]
      ensures newPhase !in {Drain1, Drain2, Reveal} ==> symbols == old(symbols) && pileHeights == old(pileHeights)
    {
      phaseChanges := phaseChanges + [newPhase];
      if newPhase == Drain1 || newPhase == Drain2 {
        var ss := symbols;
        var i := 0;
        while i < |ss|
          invariant 0 <= i <= |ss| && |ss| == |symbols|
          invariant forall k :: 0 <= k < i ==> !ss[k].isSettled
          invariant forall k :: 0 <= k < |ss| ==> ss[k].x == symbols[k].x && ss[k].y == symbols[k].y
          invariant forall k :: i <= k < |ss| ==> ss[k] == symbols[k]
        {
          var s := ss[i];
          if s.isSettled {
            var (out, up) := draws.pushes(i);
            var vx := if s.x < width as real / 2.0 then -out else out;
            ss := ss[i := s.(vx := vx, vy := -up, isSettled := false)];
          }
          i := i + 1;
        }
        symbols := ss;
        pileHeights := map[];
      } else if newPhase == Reveal {
        if portraitPositions != [] {
          var ss := symbols;
          var i := 0;
          while i < |ss|
            invariant 0 <= i <= |ss| && |ss| == |symbols|
            invariant forall k :: 0 <= k < |ss| ==>
              if k < i && k < |portraitPositions| then
                ss[k].finalX == portraitPositions[k].px && ss[k].finalY == portraitPositions[k].py
                && ss[k].ch == portraitPositions[k].ch
                && ss[k].color == ShadeColor(portraitPositions[k].intensity)
              else ss[k] == symbols[k]
          {
            if i < |portraitPositions| {
              var pt := portraitPositions[i];
              ss := ss[i := ss[i].(finalX := pt.px, finalY := pt.py, ch := pt.ch,
                                   color := ShadeColor(pt.intensity))];
            }
            i := i + 1;
          }
          symbols := ss;
        }
      }
    }

    /** `update`: the clock advances; the logo cycle runs in its mode;
        otherwise nothing more happens once COMPLETE, fill phases spawn,
        the reveal eases symbols home, other phases run the physics, and
        drains drop the symbols that left the screen. */
    method Update(dt: real, draws: Draws)
      modifies this
      ensures time == old(time) + dt && phase == old(phase) && progress == old(progress)
      ensures mode == FillDrainCycles && phase == Complete ==>
        symbols == old(symbols) && pileHeights == old(pileHeights) && symbolCounter == old(symbolCounter)
      ensures mode == FillDrainCycles && phase in {Drain1, Drain2} ==>
        forall k :: 0 <= k < |symbols| ==> OnScreen(symbols[k], width, height)
      ensures |old(symbols)| <= maxSymbols && mode == FillDrainCycles ==> |symbols| <= maxSymbols
    {
      time := time + dt;
      if mode == LogoCycle {
        UpdateLogoCycle(dt, draws);
        return;
      }
      if phase == Complete {
        return;
      }
      if phase in {Fill1, Fill2, FinalFill} {
        SpawnSymbols(dt, draws);
      }
      if phase == Reveal {
        var t := RevealFactor(progress);
        symbols := MapSymbols(symbols, s => RevealStep(s, t, dt));
      } else {
        UpdatePhysics(dt);
      }
      if phase in {Drain1, Drain2} {
        symbols := KeepOnScreen(symbols, width, height);
      }
    }

    /** `_update_physics`: symbol by symbol, the piles threaded through. */
    method UpdatePhysics(dt: real)
      modifies this
      ensures (symbols, pileHeights) == PhysicsAll(old(symbols), old(pileHeights), width, height, dt)
      ensures time == old(time) && phase == old(phase) && progress == old(progress)
      ensures maxSymbols == old(maxSymbols) && symbolCounter == old(symbolCounter)
    {
      var ss, piles := symbols, pileHeights;
      var i := 0;
      while i < |ss|
        invariant 0 <= i <= |ss| == |symbols|
        invariant (ss[..i], piles) == PhysicsAll(symbols[..i], pileHeights, width, height, dt)
        invariant ss[i..] == symbols[i..]
      {
        var (s, piles') := PhysicsStep(ss[i], piles, width, height, dt);
        assert symbols[..i + 1][..i] == symbols[..i];
        assert ss[i] == symbols[i];
        ss := ss[i := s];
        piles := piles';
        assert ss[..i + 1] == ss[..i] + [s];
        i := i + 1;
      }
      assert symbols[..i] == symbols;
      assert ss[..i] == ss;
      symbols, pileHeights := ss, piles;
    }

    /** `_spawn_symbols`: int(50 dt) symbols, one more when the draw rounds
        up, appended one at a time while the list is below the cap. */
    method SpawnSymbols(dt: real, draws: Draws)
      modifies this
      ensures |old(symbols)| >= maxSymbols ==> symbols == old(symbols) && symbolCounter == old(symbolCounter)
      ensures |old(symbols)| < maxSymbols ==>
        var n := MaxInt(0, Trunc(SpawnRate * dt) + (if draws.spawnExtra then 1 else 0));
        |symbols| == MinInt(|old(symbols)| + n, maxSymbols)
        && symbols[..|old(symbols)|] == old(symbols)
        && symbolCounter == old(symbolCounter) + (|symbols| - |old(symbols)|)
      ensures |symbols| <= MaxInt(|old(symbols)|, maxSymbols)
      ensures time == old(time) && phase == old(phase) && progress == old(progress)
      ensures maxSymbols == old(maxSymbols) && pileHeights == old(pileHeights)
    {
      if |symbols| >= maxSymbols {
        return;
      }
      var count := Trunc(SpawnRate * dt);
      if draws.spawnExtra {
        count := count + 1;
      }
      var ss := symbols;
      var k := 0;
      while k < count
        invariant 0 <= k <= MaxInt(0, count)
        invariant |ss| == MinInt(|symbols| + k, maxSymbols)
        invariant ss[..|symbols|] == symbols
      {
        if |ss| >= maxSymbols {
          break;
        }
        ss := ss + [draws.spawned(k)];
        k := k + 1;
      }
      symbolCounter := symbolCounter + (|ss| - |symbols|);
      symbols := ss;
    }

    /** `_update_logo_cycle`: symbols made from the picture on first use;
        with none, nothing advances; otherwise the cycle clock runs, wrapping
        to 0 and switching between forming and dispersing when it reaches
        the cycle duration. */
    method UpdateLogoCycle(dt: real, draws: Draws)
      modifies this
      ensures symbolsInitialized == (old(symbolsInitialized) || old(portraitPositions) != [])
      ensures !old(symbolsInitialized) && old(portraitPositions) != [] ==> |symbols| == |portraitPositions|
      ensures symbols == [] ==> cycleTime == old(cycleTime) && isForming == old(isForming)
      ensures symbols != [] && old(cycleTime) + dt >= CycleDuration ==>
        cycleTime == 0.0 && isForming == !old(isForming)
      ensures symbols != [] && old(cycleTime) + dt < CycleDuration ==>
        cycleTime == old(cycleTime) + dt && isForming == old(isForming)
      ensures time == old(time) && phase == old(phase) && progress == old(progress)
    {
      if !symbolsInitialized && portraitPositions != [] {
        InitializeLogoSymbols(draws);
        symbolsInitialized := true;
      }
      if symbols == [] {
        return;
      }
      cycleTime := cycleTime + dt;
      if cycleTime >= CycleDuration {
        cycleTime := 0.0;
        isForming := !isForming;
      }
      var t := SmoothStep(cycleTime / CycleDuration);
      if isForming {
        symbols := MapSymbols(symbols, s => ToLogoStep(s, t, dt));
      } else {
        symbols := MapSymbols(symbols, draws.dispersed);
      }
    }

    /** `_initialize_logo_symbols`: one black symbol per picture point,
        scattered, heading for that point. */
    method InitializeLogoSymbols(draws: Draws)
      modifies this
      ensures |symbols| == |portraitPositions|
      ensures forall k :: 0 <= k < |symbols| ==>
        symbols[k].finalX == portraitPositions[k].px && symbols[k].finalY == portraitPositions[k].py
        && symbols[k].ch == portraitPositions[k].ch && symbols[k].color == (0, 0, 0, 255)
      ensures symbolCounter == old(symbolCounter) + |portraitPositions|
      ensures time == old(time) && phase == old(phase) && progress == old(progress)
      ensures symbolsInitialized == old(symbolsInitialized) && portraitPositions == old(portraitPositions)
      ensures cycleTime == old(cycleTime) && isForming == old(isForming)
    {
      var ss: seq<Symbol> := [];
      var counter := symbolCounter;
      var i := 0;
      while i < |portraitPositions|
        invariant 0 <= i <= |portraitPositions| && |ss| == i
        invariant counter == symbolCounter + i
        invariant forall k :: 0 <= k < i ==>
          ss[k].finalX == portraitPositions[k].px && ss[k].finalY == portraitPositions[k].py
          && ss[k].ch == portraitPositions[k].ch && ss[k].color == (0, 0, 0, 255)
      {
        var pt := portraitPositions[i];
        var (sx, sy, rotation, size) := draws.scattered(i);
        var s := Symbol(pt.ch, sx, sy, 0.0, 0.0, rotation, 0.0, (0, 0, 0, 255), size,
                        "sym_" + NatToDecimal(counter), pt.px, pt.py, false, 0.0);
        ss := ss + [s];
        counter := counter + 1;
        i := i + 1;
      }
      symbols, symbolCounter := ss, counter;
    }

    /** `complete_animation`: in the logo cycle, every symbol snaps onto its
        picture point and the cycle rests at the end of a forming pass. */
    method CompleteAnimation()
      modifies this
      ensures mode == LogoCycle && old(symbols) != [] ==>
        symbols == MapSymbols(old(symbols), Snap) && isForming && cycleTime == CycleDuration
      ensures !(mode == LogoCycle && old(symbols) != []) ==>
        symbols == old(symbols) && isForming == old(isForming) && cycleTime == old(cycleTime)
      ensures time == old(time) && phase == old(phase) && progress == old(progress)
    {
      if mode == LogoCycle && symbols != [] {
        var ss := symbols;
        var i := 0;
        while i < |ss|
          invariant 0 <= i <= |ss| == |symbols|
          invariant forall k :: 0 <= k < |ss| ==> ss[k] == if k < i then Snap(symbols[k]) else symbols[k]
        {
          ss := ss[i := Snap(ss[i])];
          i := i + 1;
        }
        symbols := ss;
        isForming := true;
        cycleTime := CycleDuration;
      }
    }

    /** `clear`. */
    method Clear()
      modifies this
      ensures symbols == [] && pileHeights == map[] && symbolCounter == 0
      ensures time == old(time) && phase == old(phase) && progress == old(progress)
      ensures cycleTime == old(cycleTime) && isForming == old(isForming)
    {
      symbols := [];
      pileHeights := map[];
      symbolCounter := 0;
    }

    /** `reset`: cleared and back at the start of the first fill. */
    method Reset()
      modifies this
      ensures symbols == [] && pileHeights == map[] && symbolCounter == 0
      ensures phase == Fill1 && progress == 0.0 && time == 0.0
    {
      Clear();
      phase := Fill1;
      progress := 0.0;
      time := 0.0;
    }
  }

  function MinInt(a: int, b: int): int { if a <= b then a else b }
  function MaxInt(a: int, b: int): int { if a >= b then a else b }

  /** The drain's list comprehension: the symbols still near the screen,
      in order. */
  function KeepOnScreen(ss: seq<Symbol>, width: int, height: int): (r: seq<Symbol>)
    ensures |r| <= |ss|
    ensures forall k :: 0 <= k < |r| ==> OnScreen(r[k], width, height) && r[k] in ss
    ensures forall k :: 0 <= k < |ss| && OnScreen(ss[k], width, height) ==> ss[k] in r
  {
    if ss == [] then []
    else
      var rest := KeepOnScreen(ss[1..], width, height);
      assert forall k :: 1 <= k < |ss| ==> ss[k] == ss[1..][k - 1];
      if OnScreen(ss[0], width, height) then [ss[0]] + rest else rest
  }
}
