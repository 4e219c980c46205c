/** Subtitle-style messages over the replay: a queue shown one message at
    a time, each for its duration, fading out over its last half second.
    The module-level globals of the overlay become the fields of one
    object; `time.time()` is the parameter `now`. */
module MessageOverlay {
  import opened Common

  datatype Message = Message(text: string, duration: real)

  const DefaultDuration: real := 3.0
  /** Seconds over which a message fades out before it expires. */
  const FadeDuration: real := 0.5

  /** The opacity of a message with `remaining` seconds left: opaque until
      the last half second, then `int(255 * remaining / 0.5)`. */
  function FadeAlpha(remaining: real): (alpha: int)
    requires remaining >= 0.0
    ensures 0 <= alpha <= 255
    ensures remaining >= FadeDuration <==> alpha == 255
    ensures remaining < FadeDuration ==>
      alpha as real <= 255.0 * (remaining / FadeDuration) < alpha as real + 1.0
  {
    if remaining < FadeDuration then Trunc(255.0 * (remaining / FadeDuration)) else 255
  }

  /** Less time left never means more opaque. */
  lemma FadeAlphaMonotone(a: real, b: real)
    requires 0.0 <= a <= b
    ensures FadeAlpha(a) <= FadeAlpha(b)
  {
    if b < FadeDuration {
      assert 255.0 * (a / FadeDuration) <= 255.0 * (b / FadeDuration);
    }
  }

  class Overlay {
    var queue: seq<Message>
    var active: Option<Message>
    var activeUntil: real
    var canvas: Option<string>
    /** Every message posted since the last clear, in posting order. */
    ghost var posted: seq<Message>
    /** The messages activated since the last clear, in activation order. */
    ghost var shown: seq<Message>

    /** First in, first out: the activated messages followed by the queue
        are the posted messages in order, and the one active message is the
        last activated. */
    ghost predicate Valid()
      reads this
    {
      posted == shown + queue
      && (active.Some? ==> |shown| > 0 && active.value == shown[|shown| - 1])
    }

    constructor ()
      ensures Valid()
      ensures queue == [] && active == None && activeUntil == 0.0 && canvas == None
    {
      queue, active, activeUntil, canvas := [], None, 0.0, None;
      posted, shown := [], [];
    }

    /** `init_message_overlay`. */
    method Init(canvasTag: string)
      requires Valid()
      modifies this
      ensures Valid() && canvas == Some(canvasTag)
      ensures queue == old(queue) && active == old(active) && activeUntil == old(activeUntil)
    {
      canvas := Some(canvasTag);
    }

    /** `show_message`: the message joins the back of the queue. */
    method ShowMessage(text: string, duration: real)
      requires Valid()
      modifies this
      ensures Valid()
      ensures queue == old(queue) + [Message(text, duration)]
      ensures active == old(active) && activeUntil == old(activeUntil) && canvas == old(canvas)
    {
      queue := queue + [Message(text, duration)];
      posted := posted + [Message(text, duration)];
    }

    /** `_activate_next_message`: the front of the queue becomes active
        until now + its duration; an empty queue changes nothing. */
    method ActivateNext(now: real)
      requires Valid()
      modifies this
      ensures Valid() && canvas == old(canvas)
      ensures old(queue) == [] ==> queue == [] && active == old(active) && activeUntil == old(activeUntil)
      ensures old(queue) != [] ==>
        active == Some(old(queue)[0]) && queue == old(queue)[1..]
        && activeUntil == now + old(queue)[0].duration
    {
      if queue != [] {
        var msg := queue[0];
        shown := shown + [msg];
        queue := queue[1..];
        active := Some(msg);
        activeUntil := now + msg.duration;
      }
    }

    /** The state part of `render_overlay` at time `now`: with no canvas
        nothing changes; an idle overlay first activates the next message;
        an expired message is dropped and the next one activated, with
        nothing drawn that frame. Returns the alpha drawn, if anything was. */
    method RenderOverlay(now: real) returns (alpha: Option<int>)
      requires Valid()
      modifies this
      ensures Valid() && canvas == old(canvas)
      ensures old(canvas).None? ==>
        alpha == None && queue == old(queue) && active == old(active) && activeUntil == old(activeUntil)
      ensures alpha.Some? ==>
        active.Some? && now < activeUntil && alpha.value == FadeAlpha(activeUntil - now)
      ensures old(canvas).Some? && old(active).Some? && now < old(activeUntil) ==>
        alpha.Some? && active == old(active) && queue == old(queue) && activeUntil == old(activeUntil)
      ensures old(canvas).Some? && old(active).Some? && now >= old(activeUntil) ==>
        alpha == None && queue == (if old(queue) == [] then [] else old(queue)[1..])
        && active == (if old(queue) == [] then None else Some(old(queue)[0]))
      ensures old(canvas).Some? && old(active).None? && old(queue) == [] ==>
        alpha == None && queue == [] && active == None && activeUntil == old(activeUntil)
      ensures old(canvas).Some? && old(active).None? && old(queue) != [] && old(queue)[0].duration > 0.0 ==>
        alpha.Some? && active == Some(old(queue)[0]) && queue == old(queue)[1..]
        && activeUntil == now + old(queue)[0].duration
    {
      if canvas.None? {
        return None;
      }
      if active.None? && queue != [] {
        ActivateNext(now);
      }
      if active.Some? {
        if now >= activeUntil {
          active := None;
          if queue != [] {
            ActivateNext(now);
          }
          return None;
        }
        return Some(FadeAlpha(activeUntil - now));
      }
      return None;
    }

    /** `clear_all_messages`: nothing queued and nothing active. */
    method ClearAll()
      modifies this
      ensures Valid()
      ensures queue == [] && active == None
      ensures activeUntil == old(activeUntil) && canvas == old(canvas)
    {
      queue := [];
      active := None;
      posted, shown := [], [];
    }
  }
}
