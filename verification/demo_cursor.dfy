/** The animated cursor of the training demo: it glides to a target with
    cubic easing and plays a short click bounce. Drawing is left out. */
module DemoCursor {
  import opened Common

  const ClickDuration: real := 0.3

  function Cube(u: real): real { u * u * u }

  /** Squaring keeps [0, 1] in [0, 1] and [0, 1/2] in [0, 1/4]. */
  lemma SquareBounds(u: real)
    requires 0.0 <= u <= 1.0
    ensures 0.0 <= u * u <= u
    ensures u <= 0.5 ==> u * u <= 0.25
  {
    MulLeftMono(u, 1.0, u);
    MulNonneg(u, u);
    if u <= 0.5 { MulLeftMono(u, 0.5, u); }
  }

  /** Cubing keeps [0, 1] in [0, 1], and [0, 1/2] in [0, 1/8]. */
  lemma CubeBounds(u: real)
    requires 0.0 <= u <= 1.0
    ensures 0.0 <= Cube(u) <= 1.0
    ensures u <= 0.5 ==> Cube(u) <= 0.125
  {
    SquareBounds(u);
    var s := u * u;
    assert Cube(u) == s * u;
    MulLeftMono(u, 1.0, s);
    MulNonneg(s, u);
    if u <= 0.5 { MulLeftMono(u, 0.5, s); }
  }

  /** `_ease_in_out_cubic`: 4 t^3 below one half, 1 - (2 - 2t)^3 / 2 from
      there on. */
  function EaseInOutCubic(t: real): real
  {
    if t < 0.5 then 4.0 * Cube(t) else 1.0 - Cube(-2.0 * t + 2.0) / 2.0
  }

  /** The easing fixes 0, 1/2 and 1, where its two halves meet. */
  lemma EaseInOutCubicFixes()
    ensures EaseInOutCubic(0.0) == 0.0 && EaseInOutCubic(0.5) == 0.5 && EaseInOutCubic(1.0) == 1.0
  {
    assert Cube(0.0) == 0.0;
    assert Cube(1.0) == 1.0;
  }

  /** The easing maps [0, 1] into [0, 1]. */
  lemma EaseInOutCubicInUnit(t: real)
    requires 0.0 <= t <= 1.0
    ensures 0.0 <= EaseInOutCubic(t) <= 1.0
  {
    if t < 0.5 {
      CubeBounds(t);
    } else {
      CubeBounds(-2.0 * t + 2.0);
    }
  }

  /** The cursor's coordinate at glide progress p. */
  function Glide(start: real, target: real, p: real): real
  {
    start + (target - start) * EaseInOutCubic(p)
  }

  /** The cursor's position on its way: between start and target while
      the progress is in [0, 1], on the start at 0 and on the target at 1. */
  lemma GlideSpec(start: real, target: real, p: real)
    requires 0.0 <= p <= 1.0
    ensures Between(Glide(start, target, p), start, target)
    ensures p == 0.0 ==> Glide(start, target, p) == start
    ensures p == 1.0 ==> Glide(start, target, p) == target
  {
    var e := EaseInOutCubic(p);
    EaseInOutCubicInUnit(p);
    LerpBetween(start, target, e);
    assert (target - start) * e == e * (target - start);
    EaseInOutCubicFixes();
  }

  /** The arrow's scale while clicking: up from 1 to 1.3 over the first
      half, back down over the second; 1 when not clicking. */
  function ClickScale(clickActive: bool, clickProgress: real): real
  {
    if !clickActive then 1.0
    else if clickProgress < 0.5 then 1.0 + (clickProgress * 2.0) * 0.3
    else 1.3 - ((clickProgress - 0.5) * 2.0) * 0.3
  }

  /** Over a click's progress in [0, 1] the scale stays within [1, 1.3],
      peaking at one half. */
  lemma ClickScaleBounds(active: bool, p: real)
    requires 0.0 <= p <= 1.0
    ensures 1.0 <= ClickScale(active, p) <= 1.3
    ensures active ==> (ClickScale(active, p) == 1.3 <==> p == 0.5)
  {
  }

  class Cursor {
    var visible: bool
    var x: real
    var y: real
    var targetX: real
    var targetY: real
    var startX: real
    var startY: real
    var moveProgress: real
    var moveDuration: real
    var clickActive: bool
    var clickProgress: real

    /** A click in progress is short of its end; an idle click is reset. */
    predicate ClickValid()
      reads this
    {
      (clickActive ==> clickProgress < 1.0) && (!clickActive ==> clickProgress == 0.0)
    }

    constructor ()
      ensures visible && x == 0.0 && y == 0.0 && moveProgress == 1.0 && moveDuration == 1.0
      ensures !clickActive && clickProgress == 0.0 && ClickValid()
    {
      visible, x, y := true, 0.0, 0.0;
      targetX, targetY, startX, startY := 0.0, 0.0, 0.0, 0.0;
      moveProgress, moveDuration := 1.0, 1.0;
      clickActive, clickProgress := false, 0.0;
    }

    /** `move_to`: a new glide from where the cursor is now. */
    method MoveTo(tx: real, ty: real, duration: real)
      modifies this
      ensures startX == old(x) && startY == old(y) && targetX == tx && targetY == ty
      ensures moveProgress == 0.0 && moveDuration == duration
      ensures x == old(x) && y == old(y) && visible == old(visible)
      ensures clickActive == old(clickActive) && clickProgress == old(clickProgress)
    {
      startX, startY := x, y;
      targetX, targetY := tx, ty;
      moveProgress := 0.0;
      moveDuration := duration;
    }

    /** `trigger_click`. */
    method TriggerClick()
      modifies this
      ensures clickActive && clickProgress == 0.0 && ClickValid()
      ensures x == old(x) && y == old(y) && moveProgress == old(moveProgress) && visible == old(visible)
      ensures moveDuration == old(moveDuration)
    {
      clickActive := true;
      clickProgress := 0.0;
    }

    method Show()
      modifies this
      ensures visible
      ensures x == old(x) && y == old(y) && clickActive == old(clickActive) && clickProgress == old(clickProgress)
      ensures moveProgress == old(moveProgress) && moveDuration == old(moveDuration)
    {
      visible := true;
    }

    method Hide()
      modifies this
      ensures !visible
      ensures x == old(x) && y == old(y) && clickActive == old(clickActive) && clickProgress == old(clickProgress)
      ensures moveProgress == old(moveProgress) && moveDuration == old(moveDuration)
    {
      visible := false;
    }

    /** Where `update` leaves the cursor, dt seconds on. */
    function NextPosition(dt: real): (real, real)
      requires moveProgress < 1.0 ==> moveDuration != 0.0
      reads this
    {
      if moveProgress < 1.0 then
        var p := MinReal(1.0, moveProgress + dt / moveDuration);
        (Glide(startX, targetX, p), Glide(startY, targetY, p))
      else (x, y)
    }

    /** `update`: an unfinished glide advances by dt / duration, capped at 1,
        and the cursor moves to the eased point between start and target;
        a click advances by dt / 0.3 and stops, reset, once it reaches 1. */
    method Update(dt: real)
      requires moveProgress < 1.0 ==> moveDuration != 0.0
      requires ClickValid()
      modifies this
      ensures (x, y) == old(NextPosition(dt))
      ensures startX == old(startX) && startY == old(startY) && targetX == old(targetX) && targetY == old(targetY)
      ensures moveDuration == old(moveDuration)
      ensures ClickValid() && visible == old(visible)
      ensures old(moveProgress) >= 1.0 ==> moveProgress == old(moveProgress) && x == old(x) && y == old(y)
      ensures old(moveProgress) < 1.0 ==>
        moveProgress == MinReal(1.0, old(moveProgress) + dt / moveDuration)
        && x == Glide(startX, targetX, moveProgress) && y == Glide(startY, targetY, moveProgress)
      ensures old(moveProgress) < 1.0 && moveProgress == 1.0 ==> x == targetX && y == targetY
      ensures old(clickActive) && old(clickProgress) + dt / ClickDuration >= 1.0 ==>
        !clickActive && clickProgress == 0.0
      ensures old(clickActive) && old(clickProgress) + dt / ClickDuration < 1.0 ==>
        clickActive && clickProgress == old(clickProgress) + dt / ClickDuration
      ensures !old(clickActive) ==> !clickActive && clickProgress == 0.0
    {
      if moveProgress < 1.0 {
        moveProgress := moveProgress + dt / moveDuration;
        moveProgress := MinReal(1.0, moveProgress);
        x := Glide(startX, targetX, moveProgress);
        y := Glide(startY, targetY, moveProgress);
        if moveProgress == 1.0 {
          GlideSpec(startX, targetX, 1.0);
          GlideSpec(startY, targetY, 1.0);
        }
      }
      if clickActive {
        clickProgress := clickProgress + dt / ClickDuration;
        if clickProgress >= 1.0 {
          clickActive := false;
          clickProgress := 0.0;
        }
      }
    }
  }
}
