/** The playback clock: play, pause, restart, speed and scrubbing over the
    replay time the world model holds. Wall-clock readings (`time.time()`)
    are parameters. */
module Controls {

  /** The part of the world model the controls move: the replay time and
      its end. */
  class Playhead {
    var currentTimeMs: real
    var totalDurationMs: real

    constructor (totalMs: real)
      ensures currentTimeMs == 0.0 && totalDurationMs == totalMs
    {
      currentTimeMs, totalDurationMs := 0.0, totalMs;
    }
  }

  /** One playing step of the replay time: advance by dtMs, stopping at
      the end. Returns the new time and whether playback continues. */
  function Advance(timeMs: real, totalMs: real, dtMs: real): (r: (real, bool))
    ensures r.0 == (if timeMs + dtMs < totalMs then timeMs + dtMs else totalMs)
    ensures r.1 <==> timeMs + dtMs < totalMs
  {
    var t := timeMs + dtMs;
    if t >= totalMs then (totalMs, false) else (t, true)
  }

  /** After a playing step the time never passes the end, never goes back
      for a forward step from within the race, and playback goes on only
      strictly before the end. */
  lemma AdvanceSpec(timeMs: real, totalMs: real, dtMs: real)
    ensures Advance(timeMs, totalMs, dtMs).0 <= totalMs
    ensures dtMs >= 0.0 && timeMs <= totalMs ==> Advance(timeMs, totalMs, dtMs).0 >= timeMs
    ensures Advance(timeMs, totalMs, dtMs).1 ==> Advance(timeMs, totalMs, dtMs).0 < totalMs
  {
  }

  /** The scrubber's upper end in whole seconds, `int(total // 1000)`. */
  function ScrubberMax(totalMs: real): (r: int)
    ensures r as real * 1000.0 <= totalMs < (r + 1) as real * 1000.0
  {
    (totalMs / 1000.0).Floor
  }

  /** Any scrubber position lands inside the race. */
  lemma ScrubInRange(seconds: int, totalMs: real)
    requires 0 <= seconds <= ScrubberMax(totalMs)
    ensures 0.0 <= seconds as real * 1000.0 <= totalMs
  {
  }

  class PlaybackControls {
    const world: Playhead
    var isPlaying: bool
    var speedFactor: real
    var lastFrameTime: real
    /** The value shown on the time scrubber, in whole seconds. */
    var scrubberSeconds: int

    constructor (w: Playhead, now: real)
      ensures world == w && !isPlaying && speedFactor == 1.0 && lastFrameTime == now
      ensures scrubberSeconds == 0
    {
      world := w;
      isPlaying, speedFactor, lastFrameTime, scrubberSeconds := false, 1.0, now, 0;
    }

    /** `update_simulation` at wall-clock time `now` (seconds): nothing
        while paused; otherwise the replay time advances by the elapsed
        time scaled by the speed, clamped at the end, where playback
        stops. */
    method UpdateSimulation(now: real)
      modifies this, world
      ensures world.totalDurationMs == old(world.totalDurationMs) && speedFactor == old(speedFactor)
      ensures !old(isPlaying) ==>
        isPlaying == old(isPlaying) && lastFrameTime == old(lastFrameTime)
        && world.currentTimeMs == old(world.currentTimeMs) && scrubberSeconds == old(scrubberSeconds)
      ensures old(isPlaying) ==>
        var step := Advance(old(world.currentTimeMs), world.totalDurationMs,
                            (now - old(lastFrameTime)) * 1000.0 * speedFactor);
        lastFrameTime == now && world.currentTimeMs == step.0 && isPlaying == step.1
        && scrubberSeconds == (world.currentTimeMs / 1000.0).Floor
      ensures old(isPlaying) ==> world.currentTimeMs <= world.totalDurationMs
    {
      if isPlaying {
        var dtReal := now - lastFrameTime;
        lastFrameTime := now;
        var dtMs := dtReal * 1000.0 * speedFactor;
        world.currentTimeMs := world.currentTimeMs + dtMs;
        if world.currentTimeMs >= world.totalDurationMs {
          world.currentTimeMs := world.totalDurationMs;
          isPlaying := false;
        }
        scrubberSeconds := (world.currentTimeMs / 1000.0).Floor;
      }
    }

    /** `play`: starts playback and restarts the frame clock. */
    method Play(now: real)
      modifies this
      ensures isPlaying && lastFrameTime == now
      ensures speedFactor == old(speedFactor) && scrubberSeconds == old(scrubberSeconds)
    {
      isPlaying := true;
      lastFrameTime := now;
    }

    /** `pause`. */
    method Pause()
      modifies this
      ensures !isPlaying
      ensures speedFactor == old(speedFactor) && lastFrameTime == old(lastFrameTime)
      ensures scrubberSeconds == old(scrubberSeconds)
    {
      isPlaying := false;
    }

    /** `restart`: back to time 0, stopped. */
    method Restart()
      modifies this, world
      ensures world.currentTimeMs == 0.0 && !isPlaying && scrubberSeconds == 0
      ensures world.totalDurationMs == old(world.totalDurationMs)
      ensures speedFactor == old(speedFactor) && lastFrameTime == old(lastFrameTime)
    {
      world.currentTimeMs := 0.0;
      isPlaying := false;
      scrubberSeconds := 0;
    }

    /** `set_speed`. */
    method SetSpeed(speed: real)
      modifies this
      ensures speedFactor == speed
      ensures isPlaying == old(isPlaying) && lastFrameTime == old(lastFrameTime)
      ensures scrubberSeconds == old(scrubberSeconds)
    {
      speedFactor := speed;
    }

    /** `scrub_time`: the scrubber's seconds become the replay time. */
    method ScrubTime(seconds: int)
      modifies world
      ensures world.currentTimeMs == seconds as real * 1000.0
      ensures world.totalDurationMs == old(world.totalDurationMs)
    {
      world.currentTimeMs := seconds as real * 1000.0;
    }
  }
}
