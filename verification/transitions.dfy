/** Screen transitions and fades: a queue of timed fade-outs and fade-ins
    (with the crossfade that chains them), an element whose alpha steps
    toward a target each frame, and a progress value that eases toward its
    target. `time.time()` is the parameter `now`; callbacks are recorded by
    an id in the order they fire. */
module Transitions {
  import opened Common

  datatype Kind = FadeOut | FadeIn

  /** What a transition does when it completes: nothing, call a callback,
      or (the fade-out half of a crossfade) call the optional midpoint
      callback and then queue the fade-in half. */
  datatype OnComplete =
    | Nothing
    | Call(id: nat)
    | CrossfadeMidpoint(midpoint: Option<nat>, complete: Option<nat>, half: int)

  datatype Transition = Transition(kind: Kind, startTime: real, durationMs: int, onComplete: OnComplete)

  /** A transition the update loop can time: a positive duration (a zero
      one divides by zero), and so does the fade-in a crossfade queues. */
  predicate Timed(t: Transition)
  {
    t.durationMs > 0 && (t.onComplete.CrossfadeMidpoint? ==> t.onComplete.half > 0)
  }

  /** `min(1.0, elapsed_ms / duration_ms)`. */
  function Progress(t: Transition, now: real): (p: real)
    requires t.durationMs > 0
    ensures p <= 1.0
    ensures now >= t.startTime ==> 0.0 <= p
    ensures p == 1.0 <==> (now - t.startTime) * 1000.0 >= t.durationMs as real
  {
    MinReal(1.0, (now - t.startTime) * 1000.0 / t.durationMs as real)
  }

  predicate Done(t: Transition, now: real)
  {
    t.durationMs > 0 && Progress(t, now) >= 1.0
  }

  /** The overlay's opacity at progress p: rising for a fade-out, falling
      for a fade-in. */
  function FadeAlpha(kind: Kind, p: real): (alpha: int)
    ensures 0.0 <= p <= 1.0 ==> 0 <= alpha <= 255
  {
    match kind
    case FadeOut => Trunc(255.0 * p)
    case FadeIn => Trunc(255.0 * (1.0 - p))
  }

  /** The two fades mirror each other: at any progress their alphas add up
      to 254 or 255, a fade-out ends opaque and a fade-in ends clear. */
  lemma FadeAlphaSpec(p: real)
    requires 0.0 <= p <= 1.0
    ensures 254 <= FadeAlpha(FadeOut, p) + FadeAlpha(FadeIn, p) <= 255
    ensures FadeAlpha(FadeOut, 0.0) == 0 && FadeAlpha(FadeIn, 0.0) == 255
    ensures FadeAlpha(FadeOut, 1.0) == 255 && FadeAlpha(FadeIn, 1.0) == 0
  {
  }

  /** The callbacks a completed transition fires, in order. */
  function Fired(t: Transition): seq<nat>
  {
    match t.onComplete
    case Nothing => []
    case Call(id) => [id]
    case CrossfadeMidpoint(m, _, _) => if m.Some? then [m.value] else []
  }

  /** The transition a completed one queues: the fade-in half of a
      crossfade, started now. */
  function Spawned(t: Transition, now: real): seq<Transition>
  {
    match t.onComplete
    case CrossfadeMidpoint(_, c, h) =>
      [Transition(FadeIn, now, h, if c.Some? then Call(c.value) else Nothing)]
    case _ => []
  }

  /** What a sweep over the queue does, transition by transition: the
      ones still running, the callbacks fired and the transitions queued. */
  function Kept(ts: seq<Transition>, now: real): (r: seq<Transition>)
    requires forall k :: 0 <= k < |ts| ==> Timed(ts[k])
    ensures |r| <= |ts|
    ensures forall k :: 0 <= k < |r| ==> Timed(r[k]) && !Done(r[k], now)
  {
    if ts == [] then []
    else
      var last := ts[|ts| - 1];
      assert Timed(last);
      Kept(ts[..|ts| - 1], now) + (if Done(last, now) then [] else [last])
  }

  function FiredAll(ts: seq<Transition>, now: real): seq<nat>
    requires forall k :: 0 <= k < |ts| ==> Timed(ts[k])
  {
    if ts == [] then []
    else
      var last := ts[|ts| - 1];
      assert Timed(last);
      FiredAll(ts[..|ts| - 1], now) + (if Done(last, now) then Fired(last) else [])
  }

  function SpawnedAll(ts: seq<Transition>, now: real): (r: seq<Transition>)
    requires forall k :: 0 <= k < |ts| ==> Timed(ts[k])
    ensures forall k :: 0 <= k < |r| ==>
      Timed(r[k]) && r[k].kind == FadeIn && r[k].startTime == now && !r[k].onComplete.CrossfadeMidpoint?
  {
    if ts == [] then []
    else
      var last := ts[|ts| - 1];
      assert Timed(last);
      SpawnedAll(ts[..|ts| - 1], now) + (if Done(last, now) then Spawned(last, now) else [])
  }

  /** A transition that has not completed stays queued and fires nothing;
      one that completed leaves the queue, firing its callbacks exactly
      once. */
  lemma {:induction false} SweepSplits(ts: seq<Transition>, now: real, t: Transition)
    requires forall k :: 0 <= k < |ts| ==> Timed(ts[k])
    requires Timed(t)
    ensures Kept(ts + [t], now) == Kept(ts, now) + (if Done(t, now) then [] else [t])
    ensures FiredAll(ts + [t], now) == FiredAll(ts, now) + (if Done(t, now) then Fired(t) else [])
    ensures SpawnedAll(ts + [t], now) == SpawnedAll(ts, now) + (if Done(t, now) then Spawned(t, now) else [])
  {
    assert (ts + [t])[..|ts + [t]| - 1] == ts;
  }

  /** Every transition left after a sweep is one that was queued and had
      not yet completed; none that completed survives. */
  lemma {:induction false} KeptAreRunning(ts: seq<Transition>, now: real)
    requires forall k :: 0 <= k < |ts| ==> Timed(ts[k])
    ensures forall t :: t in Kept(ts, now) ==> t in ts && !Done(t, now)
    ensures forall k :: 0 <= k < |ts| && !Done(ts[k], now) ==> ts[k] in Kept(ts, now)
  {
    if ts != [] {
      var init := ts[..|ts| - 1];
      KeptAreRunning(init, now);
      assert ts == init + [ts[|ts| - 1]];
    }
  }

  /** The overlay alpha after the queued transitions of a sweep have each
      set it, starting from a: a completed crossfade half makes it opaque
      as it queues its fade-in. */
  function SweepAlpha(ts: seq<Transition>, now: real, a: int): int
    requires forall k :: 0 <= k < |ts| ==> Timed(ts[k])
  {
    if ts == [] then a
    else
      var last := ts[|ts| - 1];
      assert Timed(last);
      if Done(last, now) && last.onComplete.CrossfadeMidpoint? then 255
      else FadeAlpha(last.kind, Progress(last, now))
  }

  /** The second pass of `update`: the fade-ins queued during the sweep
      start now, at progress 0, so each sets the overlay opaque and none
      completes; all of them stay queued. */
  method StartFadeIns(spawned: seq<Transition>, now: real, overlayCreated: bool,
                      kept0: seq<Transition>, alpha0: int)
    returns (kept: seq<Transition>, alpha: int)
    requires forall k :: 0 <= k < |spawned| ==>
      Timed(spawned[k]) && spawned[k].kind == FadeIn && spawned[k].startTime == now
    ensures kept == kept0 + spawned
    ensures alpha == if overlayCreated && spawned != [] then 255 else alpha0
  {
    kept, alpha := kept0, alpha0;
    var i := 0;
    while i < |spawned|
      invariant 0 <= i <= |spawned|
      invariant kept == kept0 + spawned[..i]
      invariant alpha == if overlayCreated && i > 0 then 255 else alpha0
    {
      var t := spawned[i];
      if overlayCreated {
        alpha := FadeAlpha(t.kind, Progress(t, now));
      }
      kept := kept + [t];
      i := i + 1;
    }
    assert spawned[..i] == spawned;
  }

  /** The first pass of `update` over the transitions queued before it:
      the queue grown by the fade-ins completed crossfades queue, the
      transitions kept, the callbacks fired and the overlay alpha. */
  method Sweep(ts: seq<Transition>, now: real, overlayCreated: bool, alpha0: int)
    returns (queue: seq<Transition>, kept: seq<Transition>, fired: seq<nat>, alpha: int)
    requires forall k :: 0 <= k < |ts| ==> Timed(ts[k])
    ensures queue == ts + SpawnedAll(ts, now)
    ensures kept == Kept(ts, now)
    ensures fired == FiredAll(ts, now)
    ensures alpha == if overlayCreated then SweepAlpha(ts, now, alpha0) else alpha0
  {
    queue, kept, fired, alpha := ts, [], [], alpha0;
    var i := 0;
    while i < |ts|
      invariant 0 <= i <= |ts|
      invariant queue == ts + SpawnedAll(ts[..i], now)
      invariant kept == Kept(ts[..i], now)
      invariant fired == FiredAll(ts[..i], now)
      invariant alpha == if overlayCreated then SweepAlpha(ts[..i], now, alpha0) else alpha0
    {
      var t := queue[i];
      assert t == ts[i];
      assert ts[..i + 1] == ts[..i] + [t];
      SweepSplits(ts[..i], now, t);
      var p := Progress(t, now);
      if overlayCreated {
        alpha := FadeAlpha(t.kind, p);
      }
      if p >= 1.0 {
        fired := fired + Fired(t);
        match t.onComplete {
          case CrossfadeMidpoint(_, c, h) =>
            queue := queue + [Transition(FadeIn, now, h, if c.Some? then Call(c.value) else Nothing)];
            if overlayCreated {
              alpha := 255;
            }
          case _ =>
        }
      } else {
        kept := kept + [t];
      }
      i := i + 1;
    }
    assert ts[..i] == ts;
  }

  class TransitionManager {
    var active: seq<Transition>
    var overlayCreated: bool
    /** The opacity of the full-screen fade rectangle. */
    var fillAlpha: int
    /** The callbacks fired so far, in order. */
    var fired: seq<nat>

    ghost predicate Valid()
      reads this
    {
      forall k :: 0 <= k < |active| ==> Timed(active[k])
    }

    constructor ()
      ensures Valid() && active == [] && !overlayCreated && fired == []
    {
      active, overlayCreated, fillAlpha, fired := [], false, 0, [];
    }

    /** `create_fade_overlay`: once only, with a clear rectangle. */
    method CreateFadeOverlay()
      requires Valid()
      modifies this
      ensures Valid() && overlayCreated
      ensures fillAlpha == if old(overlayCreated) then old(fillAlpha) else 0
      ensures active == old(active) && fired == old(fired)
    {
      if overlayCreated {
        return;
      }
      fillAlpha := 0;
      overlayCreated := true;
    }

    /** `fade_out`: queued behind the running transitions. */
    method StartFadeOut(now: real, durationMs: int, onComplete: OnComplete)
      requires Valid() && Timed(Transition(FadeOut, now, durationMs, onComplete))
      modifies this
      ensures Valid()
      ensures active == old(active) + [Transition(FadeOut, now, durationMs, onComplete)]
      ensures fillAlpha == old(fillAlpha) && fired == old(fired) && overlayCreated == old(overlayCreated)
    {
      active := active + [Transition(FadeOut, now, durationMs, onComplete)];
    }

    /** `fade_in`: queued, with the overlay made opaque to fade from. */
    method StartFadeIn(now: real, durationMs: int, onComplete: Option<nat>)
      requires Valid() && durationMs > 0
      modifies this
      ensures Valid()
      ensures active == old(active) + [Transition(FadeIn, now, durationMs, if onComplete.Some? then Call(onComplete.value) else Nothing)]
      ensures fillAlpha == if overlayCreated then 255 else old(fillAlpha)
      ensures fired == old(fired) && overlayCreated == old(overlayCreated)
    {
      active := active + [Transition(FadeIn, now, durationMs, if onComplete.Some? then Call(onComplete.value) else Nothing)];
      if overlayCreated {
        fillAlpha := 255;
      }
    }

    /** `crossfade`: a fade-out of half the duration whose completion calls
        the midpoint callback and then queues a fade-in of the other half. */
    method Crossfade(now: real, durationMs: int, onMidpoint: Option<nat>, onComplete: Option<nat>)
      requires Valid() && durationMs >= 2
      modifies this
      ensures Valid()
      ensures active == old(active)
        + [Transition(FadeOut, now, durationMs / 2, CrossfadeMidpoint(onMidpoint, onComplete, durationMs / 2))]
      ensures fillAlpha == old(fillAlpha) && fired == old(fired) && overlayCreated == old(overlayCreated)
    {
      var half := durationMs / 2;
      StartFadeOut(now, half, CrossfadeMidpoint(onMidpoint, onComplete, half));
    }

    /** `update` at time `now`: every queued transition, and then every
        fade-in queued during the sweep, sets the overlay's alpha from its
        progress; completed ones fire their callbacks once and leave the
        queue, in which the fade-ins queued by completed crossfades follow
        the transitions still running. */
    method Update(now: real)
      requires Valid()
      modifies this
      ensures Valid()
      ensures active == Kept(old(active), now) + SpawnedAll(old(active), now)
      ensures fired == old(fired) + FiredAll(old(active), now)
      ensures overlayCreated == old(overlayCreated)
      ensures fillAlpha == if !overlayCreated then old(fillAlpha)
                           else if SpawnedAll(old(active), now) != [] then 255
                           else SweepAlpha(old(active), now, old(fillAlpha))
    {
      var queue, kept, firedNow, alpha := Sweep(active, now, overlayCreated, fillAlpha);
      assert queue[|active|..] == SpawnedAll(active, now);
      kept, alpha := StartFadeIns(queue[|active|..], now, overlayCreated, kept, alpha);
      active, fired, fillAlpha := kept, fired + firedNow, alpha;
    }

    /** `is_transitioning`. */
    function IsTransitioning(): (r: bool)
      reads this
      ensures r <==> active != []
    {
      |active| > 0
    }
  }

  // -------------------------------------------------------------------------
  // FadingElement
  // -------------------------------------------------------------------------

  /** One frame of a fade: `fade_speed` toward the target, without passing
      it. */
  function FadeStep(current: int, target: int, speed: int): (r: int)
    ensures current <= target ==> r <= target
    ensures current >= target ==> r >= target
    ensures speed >= 0 ==> MinInt(current, target) <= r <= MaxInt(current, target)
    ensures speed >= 0 ==> Dist(r, target) == MaxInt(0, Dist(current, target) - speed)
  {
    if current == target then current
    else if current < target then MinInt(target, current + speed)
    else MaxInt(target, current - speed)
  }

  function MinInt(a: int, b: int): int { if a <= b then a else b }
  function MaxInt(a: int, b: int): int { if a >= b then a else b }
  function Dist(a: int, b: int): nat { if a >= b then a - b else b - a }

  /** n frames of a fade. */
  function FadeSteps(current: int, target: int, speed: int, n: nat): int
    decreases n
  {
    if n == 0 then current else FadeSteps(FadeStep(current, target, speed), target, speed, n - 1)
  }

  /** With a positive speed a fade reaches its target after enough frames,
      however far it started. */
  lemma {:induction false} FadeReachesTarget(current: int, target: int, speed: int, n: nat)
    requires speed > 0 && n * speed >= Dist(current, target)
    ensures FadeSteps(current, target, speed, n) == target
    decreases n
  {
    if n > 0 {
      var next := FadeStep(current, target, speed);
      assert (n - 1) * speed >= Dist(next, target);
      FadeReachesTarget(next, target, speed, n - 1);
    } else {
      assert Dist(current, target) == 0;
    }
  }

  class FadingElement {
    var targetAlpha: int
    var currentAlpha: int
    var fadeSpeed: int

    constructor (initialAlpha: int)
      ensures targetAlpha == initialAlpha && currentAlpha == initialAlpha && fadeSpeed == 5
    {
      targetAlpha, currentAlpha, fadeSpeed := initialAlpha, initialAlpha, 5;
    }

    /** `fade_to`: the target clamped into [0, 255]. */
    method FadeTo(target: int, speed: int)
      modifies this
      ensures targetAlpha == ClampInt(target, 0, 255) && fadeSpeed == speed
      ensures currentAlpha == old(currentAlpha)
    {
      targetAlpha := if 0 >= (if 255 <= target then 255 else target) then 0
                     else (if 255 <= target then 255 else target);
      fadeSpeed := speed;
    }

    /** `show`: fade to opaque. */
    method Show(speed: int)
      modifies this
      ensures targetAlpha == 255 && fadeSpeed == speed && currentAlpha == old(currentAlpha)
    {
      FadeTo(255, speed);
    }

    /** `hide`: fade to clear. */
    method Hide(speed: int)
      modifies this
      ensures targetAlpha == 0 && fadeSpeed == speed && currentAlpha == old(currentAlpha)
    {
      FadeTo(0, speed);
    }

    /** `update`: one frame; reports whether the target is reached. */
    method Update() returns (reached: bool)
      modifies this
      ensures currentAlpha == FadeStep(old(currentAlpha), targetAlpha, fadeSpeed)
      ensures targetAlpha == old(targetAlpha) && fadeSpeed == old(fadeSpeed)
      ensures reached <==> currentAlpha == targetAlpha
    {
      if currentAlpha != targetAlpha {
        if currentAlpha < targetAlpha {
          currentAlpha := MinInt(targetAlpha, currentAlpha + fadeSpeed);
        } else {
          currentAlpha := MaxInt(targetAlpha, currentAlpha - fadeSpeed);
        }
      }
      reached := currentAlpha == targetAlpha;
    }
  }

  // -------------------------------------------------------------------------
  // AnimatedProgress
  // -------------------------------------------------------------------------

  const ProgressSpeed: real := 0.05
  const Tolerance: real := 0.001

  /** One frame as written: move 5% of the gap when it exceeds the
      tolerance, and report done when it is below the tolerance. */
  function ProgressStepAsWritten(current: real, target: real): (real, bool)
  {
    var next := if AbsReal(current - target) > Tolerance then current + (target - current) * ProgressSpeed
                else current;
    (next, AbsReal(next - target) < Tolerance)
  }

  /** As written, a gap of exactly the tolerance neither moves nor
      reports done, on every frame: from 0 toward 0.001 the bar never
      settles. */
  lemma {:induction false} ProgressAsWrittenStuck(n: nat)
    ensures ProgressStepsAsWritten(0.0, 0.001, n) == (0.0, n == 0)
  {
    if n > 0 {
      ProgressAsWrittenStuck(n - 1);
    }
  }

  /** The current value and the last report after n frames as written
      (the report is `true` before any frame). */
  function ProgressStepsAsWritten(current: real, target: real, n: nat): (real, bool)
  {
    if n == 0 then (current, true)
    else
      var (c, _) := ProgressStepsAsWritten(current, target, n - 1);
      ProgressStepAsWritten(c, target)
  }

  /** One frame, corrected: a gap within the tolerance reports done. */
  function ProgressStep(current: real, target: real): (r: (real, bool))
    ensures r.1 <==> AbsReal(r.0 - target) <= Tolerance
    ensures !r.1 ==> AbsReal(current - target) > Tolerance
  {
    if AbsReal(current - target) > Tolerance then
      var next := current + (target - current) * ProgressSpeed;
      (next, AbsReal(next - target) <= Tolerance)
    else (current, true)
  }

  /** Every corrected frame either reports done or closes 5% of the gap,
      never overshooting. */
  lemma ProgressStepSpec(current: real, target: real)
    ensures var (next, done) := ProgressStep(current, target);
      done || (Between(next, current, target)
               && AbsReal(next - target) == (1.0 - ProgressSpeed) * AbsReal(current - target))
  {
    var (next, done) := ProgressStep(current, target);
    if AbsReal(current - target) > Tolerance {
      LerpBetween(current, target, ProgressSpeed);
      assert next - target == (1.0 - ProgressSpeed) * (current - target);
    }
  }

  class AnimatedProgress {
    var currentValue: real
    var targetValue: real

    constructor ()
      ensures currentValue == 0.0 && targetValue == 0.0
    {
      currentValue, targetValue := 0.0, 0.0;
    }

    /** `set_progress`: the target clamped into [0, 1]; `instant` jumps to
        it. */
    method SetProgress(value: real, instant: bool)
      modifies this
      ensures targetValue == ClampReal(value, 0.0, 1.0)
      ensures currentValue == if instant then targetValue else old(currentValue)
    {
      targetValue := ClampReal(value, 0.0, 1.0);
      if instant {
        currentValue := targetValue;
      }
    }

    /** `update` with the corrected report. */
    method Update() returns (done: bool)
      modifies this
      ensures (currentValue, done) == ProgressStep(old(currentValue), targetValue)
      ensures targetValue == old(targetValue)
    {
      if AbsReal(currentValue - targetValue) > Tolerance {
        var diff := targetValue - currentValue;
        currentValue := currentValue + diff * ProgressSpeed;
      }
      done := AbsReal(currentValue - targetValue) <= Tolerance;
    }
  }
}
