/** The scripted training demo: an executor that runs or schedules the
    script's actions, a camera that eases the view between zoom levels, and
    the step manager that walks through the script. Widgets, the config
    file and the wall clock are left out; `now` is a parameter. */
module TrainingDemo {
  import opened Common
  import DemoCursor

  /** The actions a script step can carry. */
  datatype ActionKind =
    | UiClick(target: string)
    | EnableCheckbox(target: string)
    | SetDropdown(target: string, value: string)
    | AnimateSlider(target: string, to: real)
    | SelectCar(carIndex: nat, addToSelection: bool)
    | SimulateTrackClick
    | Wait
    | CloseColorMenu
    | DemoZoom(zoomTo: real)
    | DemoPan(panX: real, panY: real)
    | TriggerCursorClick
    | Other(name: string)

  /** An action and its delay in seconds (0 when the script gives none). */
  datatype Action = Action(kind: ActionKind, delay: real)

  /** What the actions act on: the selected cars, the playback state and
      replay time, and the view's zoom and pan. */
  datatype Scene = Scene(selected: seq<string>, playing: bool, timeMs: real, zoom: real, panX: real, panY: real)

  /** `_execute_select_car` on the selection: an index past the cars is
      ignored; otherwise the car is added once, or replaces the selection. */
  function SelectCarIn(carIds: seq<string>, selected: seq<string>, index: nat, add: bool): seq<string>
  {
    if index < |carIds| then
      var car := carIds[index];
      if add then (if car in selected then selected else selected + [car])
      else [car]
    else selected
  }

  /** Selecting keeps a selection free of repeats; adding keeps what was
      selected and includes the car; replacing leaves only the car. */
  lemma SelectCarSpec(carIds: seq<string>, selected: seq<string>, index: nat, add: bool)
    ensures index >= |carIds| ==> SelectCarIn(carIds, selected, index, add) == selected
    ensures index < |carIds| && add ==>
      var r := SelectCarIn(carIds, selected, index, add);
      carIds[index] in r && r[..|selected|] == selected
      && |r| == |selected| + (if carIds[index] in selected then 0 else 1)
    ensures index < |carIds| && !add ==> SelectCarIn(carIds, selected, index, add) == [carIds[index]]
    ensures Distinct(selected) ==> Distinct(SelectCarIn(carIds, selected, index, add))
  {
  }

  /** `_execute_now` on the scene. The Play, Pause, Restart and Reset View
      buttons drive playback and the view; the other widget actions, the
      other telemetry-panel calls and the cursor click touch nothing
      modelled here. */
  function Apply(carIds: seq<string>, sc: Scene, a: Action): Scene
  {
    match a.kind
    case UiClick(target) =>
      if target == "Play" then sc.(playing := true)
      else if target == "Pause" then sc.(playing := false)
      else if target == "Restart" then sc.(timeMs := 0.0, playing := false)
      else if target == "Reset View" then sc.(zoom := 1.0, panX := 0.0, panY := 0.0)
      else sc
    case SelectCar(index, add) => sc.(selected := SelectCarIn(carIds, sc.selected, index, add))
    case SimulateTrackClick => sc.(playing := !sc.playing)
    case DemoZoom(z) => sc.(zoom := z)
    case DemoPan(x, y) => sc.(panX := sc.panX + x, panY := sc.panY + y)
    case _ => sc
  }

  /** The actions run one after another. */
  function ApplyAll(carIds: seq<string>, sc: Scene, actions: seq<Action>): Scene
  {
    if actions == [] then sc
    else Apply(carIds, ApplyAll(carIds, sc, actions[..|actions| - 1]), actions[|actions| - 1])
  }

  /** Pans add up: a run of pans moves the view by their sum. */
  lemma {:induction false} PansAdd(carIds: seq<string>, sc: Scene, xs: seq<real>)
    ensures ApplyAll(carIds, sc, seq(|xs|, k requires 0 <= k < |xs| => Action(DemoPan(xs[k], 0.0), 0.0))).panX
      == sc.panX + SumReal(xs)
  {
    var pans := seq(|xs|, k requires 0 <= k < |xs| => Action(DemoPan(xs[k], 0.0), 0.0));
    if xs != [] {
      var init := xs[..|xs| - 1];
      var initPans := seq(|init|, k requires 0 <= k < |init| => Action(DemoPan(init[k], 0.0), 0.0));
      assert pans[..|pans| - 1] == initPans;
      PansAdd(carIds, sc, init);
      SumRealSnoc(init, xs[|xs| - 1]);
      assert init + [xs[|xs| - 1]] == xs;
    }
  }

  lemma {:induction false} SumRealSnoc(xs: seq<real>, x: real)
    ensures SumReal(xs + [x]) == SumReal(xs) + x
  {
    if xs != [] {
      assert (xs + [x])[1..] == xs[1..] + [x];
      SumRealSnoc(xs[1..], x);
    }
  }

  /** The actions of a schedule that are due at `now`, in order. */
  function Due(s: seq<(real, Action)>, now: real): seq<Action>
  {
    if s == [] then []
    else
      var last := s[|s| - 1];
      Due(s[..|s| - 1], now) + (if now >= last.0 then [last.1] else [])
  }

  /** The entries of a schedule not yet due at `now`, in order. */
  function Pending(s: seq<(real, Action)>, now: real): seq<(real, Action)>
  {
    if s == [] then []
    else
      var last := s[|s| - 1];
      Pending(s[..|s| - 1], now) + (if now >= last.0 then [] else [last])
  }

  /** Every entry is either run or kept: the counts add up, the kept ones
      are exactly the entries not yet due, and every due action is one of
      the schedule's. */
  lemma {:induction false} DuePendingPartition(s: seq<(real, Action)>, now: real)
    ensures |Due(s, now)| + |Pending(s, now)| == |s|
    ensures forall e :: e in Pending(s, now) <==> e in s && now < e.0
    ensures forall a :: a in Due(s, now) ==> exists e :: e in s && e.1 == a && now >= e.0
  {
    if s != [] {
      var init := s[..|s| - 1];
      DuePendingPartition(init, now);
      assert s == init + [s[|s| - 1]];
      forall a | a in Due(s, now) ensures exists e :: e in s && e.1 == a && now >= e.0 {
        if a in Due(init, now) {
          var e :| e in init && e.1 == a && now >= e.0;
          assert e in s;
        } else {
          assert s[|s| - 1] in s;
        }
      }
    }
  }

  /** The actions that run at once (no positive delay), in order. */
  function Immediate(actions: seq<Action>): seq<Action>
  {
    if actions == [] then []
    else
      var last := actions[|actions| - 1];
      Immediate(actions[..|actions| - 1]) + (if last.delay > 0.0 then [] else [last])
  }

  /** The schedule entries a batch of actions adds at `now`, in order. */
  function Delayed(actions: seq<Action>, now: real): seq<(real, Action)>
  {
    if actions == [] then []
    else
      var last := actions[|actions| - 1];
      Delayed(actions[..|actions| - 1], now) + (if last.delay > 0.0 then [(now + last.delay, last)] else [])
  }

  /** A delayed action is never due at the moment it is scheduled. */
  lemma {:induction false} DelayedNotDue(actions: seq<Action>, now: real)
    ensures Due(Delayed(actions, now), now) == []
    ensures Pending(Delayed(actions, now), now) == Delayed(actions, now)
  {
    if actions != [] {
      var init := actions[..|actions| - 1];
      DelayedNotDue(init, now);
      var last := actions[|actions| - 1];
      var d := Delayed(actions, now);
      if last.delay > 0.0 {
        assert d == Delayed(init, now) + [(now + last.delay, last)];
        assert d[..|d| - 1] == Delayed(init, now);
        assert d[|d| - 1] == (now + last.delay, last);
        assert Due(d, now) == Due(Delayed(init, now), now);
        assert Pending(d, now) == Pending(Delayed(init, now), now) + [(now + last.delay, last)];
      } else {
        assert d == Delayed(init, now);
      }
    }
  }

  /** One more action of a batch: a delayed one adds its schedule entry,
      an immediate one is executed after the earlier immediate ones. */
  lemma BatchStep(carIds: seq<string>, sc: Scene, actions: seq<Action>, i: nat, now: real)
    requires i < |actions|
    ensures var a := actions[i];
      Delayed(actions[..i + 1], now) == Delayed(actions[..i], now) + (if a.delay > 0.0 then [(now + a.delay, a)] else [])
      && Immediate(actions[..i + 1]) == Immediate(actions[..i]) + (if a.delay > 0.0 then [] else [a])
      && ApplyAll(carIds, sc, Immediate(actions[..i + 1]))
         == if a.delay > 0.0 then ApplyAll(carIds, sc, Immediate(actions[..i]))
            else Apply(carIds, ApplyAll(carIds, sc, Immediate(actions[..i])), a)
  {
    var a := actions[i];
    assert actions[..i + 1][..i] == actions[..i];
    assert actions[..i + 1][i] == a;
    var before := Immediate(actions[..i]);
    var m := Immediate(actions[..i + 1]);
    if a.delay <= 0.0 {
      assert m == before + [a];
      assert m[..|m| - 1] == before && m[|m| - 1] == a;
    } else {
      assert m == before;
    }
  }

  /** One more schedule entry: a due one runs after the earlier due ones,
      and one not yet due is kept after the earlier kept ones. */
  lemma DueStep(carIds: seq<string>, sc: Scene, items: seq<(real, Action)>, i: nat, now: real)
    requires i < |items|
    ensures var (t, a) := items[i];
      Due(items[..i + 1], now) == Due(items[..i], now) + (if now >= t then [a] else [])
      && Pending(items[..i + 1], now) == Pending(items[..i], now) + (if now >= t then [] else [(t, a)])
      && ApplyAll(carIds, sc, Due(items[..i + 1], now))
         == if now >= t then Apply(carIds, ApplyAll(carIds, sc, Due(items[..i], now)), a)
            else ApplyAll(carIds, sc, Due(items[..i], now))
  {
    var (t, a) := items[i];
    assert items[..i + 1][..i] == items[..i];
    assert items[..i + 1][i] == (t, a);
    var before := Due(items[..i], now);
    var d := Due(items[..i + 1], now);
    if now >= t {
      assert d == before + [a];
      assert d[..|d| - 1] == before && d[|d| - 1] == a;
    } else {
      assert d == before;
    }
  }

  /** The renderer's view, shared by the executor and the camera. */
  class View {
    var zoomLevel: real
    var panOffsetX: real
    var panOffsetY: real

    constructor ()
      ensures zoomLevel == 1.0 && panOffsetX == 0.0 && panOffsetY == 0.0
    {
      zoomLevel, panOffsetX, panOffsetY := 1.0, 0.0, 0.0;
    }
  }

  class ActionExecutor {
    const carIds: seq<string>
    const view: View
    var selected: seq<string>
    var playing: bool
    var timeMs: real
    /** (time, action) pairs waiting to run, in scheduling order. */
    var scheduled: seq<(real, Action)>
    /** Every action run so far, in order. */
    var executed: seq<Action>

    function Current(): Scene
      reads this, view
    {
      Scene(selected, playing, timeMs, view.zoomLevel, view.panOffsetX, view.panOffsetY)
    }

    constructor (ids: seq<string>, v: View)
      ensures carIds == ids && view == v && selected == [] && !playing && timeMs == 0.0
      ensures scheduled == [] && executed == []
    {
      carIds, view := ids, v;
      selected, playing, timeMs := [], false, 0.0;
      scheduled, executed := [], [];
    }

    /** The executor after running a batch of `actions` at `now`, from the
        schedule `sched`, the run list `done` and the scene `sc`: the
        undelayed actions ran in order and the delayed ones were scheduled
        in order. */
    predicate RanBatch(actions: seq<Action>, now: real, sched: seq<(real, Action)>, done: seq<Action>, sc: Scene)
      reads this, view
    {
      scheduled == sched + Delayed(actions, now) && executed == done + Immediate(actions)
      && Current() == ApplyAll(carIds, sc, Immediate(actions))
    }

    /** The executor after `update` at `now`, from the schedule `sched`, the
        run list `done` and the scene `sc`: the due actions ran in schedule
        order and the rest stay scheduled in their order. */
    predicate RanDue(now: real, sched: seq<(real, Action)>, done: seq<Action>, sc: Scene)
      reads this, view
    {
      executed == done + Due(sched, now) && scheduled == Pending(sched, now)
      && Current() == ApplyAll(carIds, sc, Due(sched, now))
    }

    /** `_execute_now`. */
    method ExecuteNow(a: Action)
      modifies this, view
      ensures Current() == Apply(carIds, old(Current()), a)
      ensures executed == old(executed) + [a] && scheduled == old(scheduled)
    {
      var sc := Apply(carIds, Current(), a);
      selected, playing, timeMs := sc.selected, sc.playing, sc.timeMs;
      view.zoomLevel, view.panOffsetX, view.panOffsetY := sc.zoom, sc.panX, sc.panY;
      executed := executed + [a];
    }

    /** `execute` at `now`: a positive delay schedules the action for
        now + delay; otherwise it runs at once. */
    method Execute(a: Action, now: real)
      modifies this, view
      ensures a.delay > 0.0 ==>
        scheduled == old(scheduled) + [(now + a.delay, a)] && executed == old(executed)
        && Current() == old(Current())
      ensures a.delay <= 0.0 ==>
        scheduled == old(scheduled) && executed == old(executed) + [a]
        && Current() == Apply(carIds, old(Current()), a)
    {
      if a.delay > 0.0 {
        scheduled := scheduled + [(now + a.delay, a)];
      } else {
        ExecuteNow(a);
      }
    }

    /** The loop of `_begin_step` over a step's actions: each executed at
        `now` in order. */
    method ExecuteAll(actions: seq<Action>, now: real)
      modifies this, view
      ensures RanBatch(actions, now, old(scheduled), old(executed), old(Current()))
    {
      var i := 0;
      while i < |actions|
        invariant 0 <= i <= |actions|
        invariant scheduled == old(scheduled) + Delayed(actions[..i], now)
        invariant executed == old(executed) + Immediate(actions[..i])
        invariant Current() == ApplyAll(carIds, old(Current()), Immediate(actions[..i]))
      {
        BatchStep(carIds, old(Current()), actions, i, now);
        Execute(actions[i], now);
        i := i + 1;
      }
      assert actions[..i] == actions;
    }

    /** `update` at `now`: every due action runs, in schedule order, and
        the rest stay scheduled in their order. */
    method Update(now: real)
      modifies this, view
      ensures RanDue(now, old(scheduled), old(executed), old(Current()))
    {
      var items := scheduled;
      ghost var sc0 := Current();
      ghost var ex0 := executed;
      var remaining: seq<(real, Action)> := [];
      var i := 0;
      while i < |items|
        invariant 0 <= i <= |items| && scheduled == items
        invariant remaining == Pending(items[..i], now)
        invariant executed == ex0 + Due(items[..i], now)
        invariant Current() == ApplyAll(carIds, sc0, Due(items[..i], now))
      {
        var (t, a) := items[i];
        DueStep(carIds, sc0, items, i, now);
        if now >= t {
          ExecuteNow(a);
        } else {
          remaining := remaining + [(t, a)];
        }
        i := i + 1;
      }
      assert items[..i] == items;
      scheduled := remaining;
    }
  }

  // -----------------------------------------------------------------------
  // Camera
  // -----------------------------------------------------------------------

  /** `_ease_in_out_quad`: 2 t^2 below one half, 1 - (2 - 2t)^2 / 2 from
      there on. */
  function EaseInOutQuad(t: real): real
  {
    if t < 0.5 then 2.0 * (t * t) else 1.0 - ((-2.0 * t + 2.0) * (-2.0 * t + 2.0)) / 2.0
  }

  /** The easing fixes 0, 1/2 (where both halves give 1/2) and 1. */
  lemma EaseInOutQuadFixes()
    ensures EaseInOutQuad(0.0) == 0.0 && EaseInOutQuad(0.5) == 0.5 && EaseInOutQuad(1.0) == 1.0
    ensures 2.0 * (0.5 * 0.5) == 1.0 - ((-2.0 * 0.5 + 2.0) * (-2.0 * 0.5 + 2.0)) / 2.0
  {
  }

  /** The easing maps [0, 1] into [0, 1]. */
  lemma EaseInOutQuadInUnit(t: real)
    requires 0.0 <= t <= 1.0
    ensures 0.0 <= EaseInOutQuad(t) <= 1.0
  {
    if t < 0.5 {
      DemoCursor.SquareBounds(t);
    } else {
      DemoCursor.SquareBounds(-2.0 * t + 2.0);
    }
  }

  function Ease(start: real, target: real, t: real): real
  {
    start + (target - start) * EaseInOutQuad(t)
  }

  /** An eased camera value stays between its start and its target. */
  lemma EaseBetween(start: real, target: real, t: real)
    requires 0.0 <= t <= 1.0
    ensures Between(Ease(start, target, t), start, target)
  {
    var e := EaseInOutQuad(t);
    EaseInOutQuadInUnit(t);
    LerpBetween(start, target, e);
    assert (target - start) * e == e * (target - start);
  }

  /** A camera move of a script step: zoom, whether a pan target is given,
      and the duration in seconds, each optional. */
  datatype CameraSpec = CameraSpec(zoom: Option<real>, panTo: bool, duration: Option<real>)

  class CameraController {
    const view: View
    var animating: bool
    var startZoom: real
    var targetZoom: real
    var startPanX: real
    var startPanY: real
    var targetPanX: real
    var targetPanY: real
    var progress: real
    var duration: real

    constructor (v: View)
      ensures view == v && !animating && progress == 0.0 && duration == 1.0
      ensures startZoom == 1.0 && targetZoom == 1.0
    {
      view := v;
      animating := false;
      startZoom, targetZoom := 1.0, 1.0;
      startPanX, startPanY, targetPanX, targetPanY := 0.0, 0.0, 0.0, 0.0;
      progress, duration := 0.0, 1.0;
    }

    /** `animate_to`: nothing without a spec; otherwise a move from the
        current view to the spec's zoom (the current one if none), with the
        pan kept where it is whether or not a pan target is given. */
    method AnimateTo(spec: Option<CameraSpec>)
      modifies this
      ensures spec.None? ==>
        animating == old(animating) && progress == old(progress) && duration == old(duration)
        && targetZoom == old(targetZoom) && targetPanX == old(targetPanX) && targetPanY == old(targetPanY)
      ensures spec.Some? ==>
        animating && progress == 0.0 && startZoom == view.zoomLevel
        && targetZoom == (if spec.value.zoom.Some? then spec.value.zoom.value else view.zoomLevel)
        && startPanX == targetPanX == view.panOffsetX && startPanY == targetPanY == view.panOffsetY
        && duration == (if spec.value.duration.Some? then spec.value.duration.value else 2.0)
    {
      if spec.None? {
        return;
      }
      var cs := spec.value;
      startZoom := view.zoomLevel;
      targetZoom := if cs.zoom.Some? then cs.zoom.value else startZoom;
      if cs.panTo {
        targetPanX, targetPanY := view.panOffsetX, view.panOffsetY;
      } else {
        targetPanX, targetPanY := view.panOffsetX, view.panOffsetY;
      }
      startPanX, startPanY := view.panOffsetX, view.panOffsetY;
      duration := if cs.duration.Some? then cs.duration.value else 2.0;
      progress := 0.0;
      animating := true;
    }

    /** The zoom and pan `update` leaves the view at, dt seconds on. */
    function NextView(dt: real): (real, real, real)
      requires animating ==> duration != 0.0
      reads this, view
    {
      if !animating then (view.zoomLevel, view.panOffsetX, view.panOffsetY)
      else
        var p := progress + dt / duration;
        if p >= 1.0 then (targetZoom, targetPanX, targetPanY)
        else (Ease(startZoom, targetZoom, p), Ease(startPanX, targetPanX, p), Ease(startPanY, targetPanY, p))
    }

    /** `update`: a running move advances by dt / duration; at 1 the view
        snaps exactly onto the targets and the move stops, before that it
        is the eased point between start and target. */
    method Update(dt: real)
      requires animating ==> duration != 0.0
      modifies this, view
      ensures (view.zoomLevel, view.panOffsetX, view.panOffsetY) == old(NextView(dt))
      ensures duration == old(duration) && startZoom == old(startZoom) && targetZoom == old(targetZoom)
      ensures startPanX == old(startPanX) && startPanY == old(startPanY)
      ensures targetPanX == old(targetPanX) && targetPanY == old(targetPanY)
      ensures !old(animating) ==>
        !animating && progress == old(progress) && view.zoomLevel == old(view.zoomLevel)
        && view.panOffsetX == old(view.panOffsetX) && view.panOffsetY == old(view.panOffsetY)
      ensures old(animating) ==> progress == old(progress) + dt / duration
      ensures old(animating) && progress >= 1.0 ==>
        !animating && view.zoomLevel == targetZoom && view.panOffsetX == targetPanX && view.panOffsetY == targetPanY
      ensures old(animating) && progress < 1.0 ==>
        animating && view.zoomLevel == Ease(startZoom, targetZoom, progress)
        && view.panOffsetX == Ease(startPanX, targetPanX, progress)
        && view.panOffsetY == Ease(startPanY, targetPanY, progress)
    {
      if !animating {
        return;
      }
      progress := progress + dt / duration;
      if progress >= 1.0 {
        view.zoomLevel := targetZoom;
        view.panOffsetX := targetPanX;
        view.panOffsetY := targetPanY;
        animating := false;
      } else {
        view.zoomLevel := Ease(startZoom, targetZoom, progress);
        view.panOffsetX := Ease(startPanX, targetPanX, progress);
        view.panOffsetY := Ease(startPanY, targetPanY, progress);
      }
    }
  }

  // -----------------------------------------------------------------------
  // Steps
  // -----------------------------------------------------------------------

  /** Where a step points the cursor: nowhere, at something that cannot be
      located on screen, or at a resolved screen position. */
  datatype CursorTarget = NoTarget | Unresolved | At(x: real, y: real)

  /** A script step. */
  datatype Step = Step(
    duration: real,
    message: Option<string>,
    cursorTarget: CursorTarget,
    cursorClick: bool,
    actions: seq<Action>,
    camera: Option<CameraSpec>)

  /** What beginning a step adds to the messages shown: its message with
      the step's duration, unless it has none or it is empty. */
  function StepMessage(step: Step): (m: seq<(string, real)>)
    ensures |m| <= 1
    ensures m != [] <==> step.message.Some? && step.message.value != ""
    ensures m != [] ==> m[0] == (step.message.value, step.duration)
  {
    if step.message.Some? && step.message.value != "" then [(step.message.value, step.duration)] else []
  }

  /** The scene with its zoom and pan replaced by `v`. */
  function WithView(sc: Scene, v: (real, real, real)): Scene
  {
    sc.(zoom := v.0, panX := v.1, panY := v.2)
  }

  /** No camera move of the script has a zero duration (the camera divides
      by it). */
  predicate CamerasTimed(steps: seq<Step>)
  {
    forall k :: 0 <= k < |steps| ==> CameraTimed(steps[k].camera)
  }

  predicate CameraTimed(c: Option<CameraSpec>)
  {
    c.Some? && c.value.duration.Some? ==> c.value.duration.value != 0.0
  }

  /** Seconds between reaching a step's cursor target and its click. */
  const ClickDelay: real := 1.2

  class DemoStateManager {
    const steps: seq<Step>
    const cursor: DemoCursor.Cursor
    const executor: ActionExecutor
    const camera: CameraController
    var isRunning: bool
    var currentStepIndex: nat
    var stepStartTime: real
    var skipRequested: bool
    var clickScheduled: bool
    var clickTime: real
    /** The messages shown, with their durations, in order. */
    var messages: seq<(string, real)>
    /** Whether the demo has been marked completed in the user's config. */
    var demoCompleted: bool

    /** The parts' divisions are safe, and executor and camera act on one
        view. */
    predicate PartsValid()
      reads this, cursor, camera
    {
      cursor.ClickValid() && cursor.moveDuration == 1.0
      && (camera.animating ==> camera.duration != 0.0)
      && CamerasTimed(steps)
      && executor.view == camera.view
    }

    /** A running demo is on one of its steps. */
    predicate Valid()
      reads this, cursor, camera
    {
      PartsValid() && (isRunning ==> currentStepIndex < |steps|)
    }

    constructor (script: seq<Step>, carIds: seq<string>, v: View)
      requires CamerasTimed(script)
      ensures Valid() && fresh(cursor) && fresh(camera) && fresh(executor)
      ensures steps == script && !isRunning && currentStepIndex == 0 && !skipRequested
      ensures !clickScheduled && messages == [] && !demoCompleted
    {
      steps := script;
      isRunning, currentStepIndex, stepStartTime := false, 0, 0.0;
      skipRequested, clickScheduled, clickTime := false, false, 0.0;
      messages, demoCompleted := [], false;
      cursor := new DemoCursor.Cursor();
      executor := new ActionExecutor(carIds, v);
      camera := new CameraController(v);
    }

    /** `_end_demo`: stopped, messages cleared, cursor hidden, completion
        recorded. */
    method EndDemo()
      requires PartsValid()
      modifies this, cursor
      ensures Valid() && !isRunning && messages == [] && !cursor.visible && demoCompleted
      ensures currentStepIndex == old(currentStepIndex) && skipRequested == old(skipRequested)
      ensures stepStartTime == old(stepStartTime) && clickScheduled == old(clickScheduled)
      ensures cursor.clickActive == old(cursor.clickActive)
    {
      isRunning := false;
      messages := [];
      cursor.Hide();
      demoCompleted := true;
    }

    /** `_begin_step`: past the last step the demo ends; otherwise the
        step's message is shown, the cursor glides to its target (with a
        click 1.2 s later if asked), its actions are executed in order and
        its camera move starts. */
    method BeginStep(index: nat, now: real)
      requires PartsValid() && (isRunning ==> index == currentStepIndex)
      modifies this, cursor, executor, executor.view, camera
      ensures Valid()
      ensures currentStepIndex == old(currentStepIndex) && stepStartTime == old(stepStartTime)
      ensures skipRequested == old(skipRequested) && cursor.clickActive == old(cursor.clickActive)
      ensures index >= |steps| ==> !isRunning && demoCompleted && messages == [] && !cursor.visible
      ensures index < |steps| ==>
        var step := steps[index];
        isRunning == old(isRunning) && messages == old(messages) + StepMessage(step)
        && cursor.x == old(cursor.x) && cursor.y == old(cursor.y) && cursor.visible == old(cursor.visible)
        && executor.RanBatch(step.actions, now, old(executor.scheduled), old(executor.executed), old(executor.Current()))
        && (step.cursorTarget.At? ==>
              cursor.startX == old(cursor.x) && cursor.startY == old(cursor.y)
              && cursor.targetX == step.cursorTarget.x && cursor.targetY == step.cursorTarget.y
              && cursor.moveProgress == 0.0)
        && (step.cursorTarget.At? && step.cursorClick ==> clickScheduled && clickTime == now + ClickDelay)
        && (step.cursorTarget.NoTarget? ==> !clickScheduled)
        && (step.camera.Some? ==> camera.animating && camera.progress == 0.0)
    {
      if index >= |steps| {
        EndDemo();
        return;
      }
      var step := steps[index];
      ShowStep(step, now);
      executor.ExecuteAll(step.actions, now);
      assert CameraTimed(steps[index].camera);
      camera.AnimateTo(step.camera);
    }

    /** The message and cursor part of `_begin_step`. */
    method ShowStep(step: Step, now: real)
      requires cursor.ClickValid() && cursor.moveDuration == 1.0
      modifies this, cursor
      ensures cursor.ClickValid() && cursor.moveDuration == 1.0
      ensures isRunning == old(isRunning) && currentStepIndex == old(currentStepIndex)
      ensures stepStartTime == old(stepStartTime) && skipRequested == old(skipRequested)
      ensures demoCompleted == old(demoCompleted) && cursor.clickActive == old(cursor.clickActive)
      ensures cursor.x == old(cursor.x) && cursor.y == old(cursor.y) && cursor.visible == old(cursor.visible)
      ensures messages == old(messages) + StepMessage(step)
      ensures step.cursorTarget.At? ==>
        cursor.startX == old(cursor.x) && cursor.startY == old(cursor.y)
        && cursor.targetX == step.cursorTarget.x && cursor.targetY == step.cursorTarget.y
        && cursor.moveProgress == 0.0
      ensures step.cursorTarget.At? && step.cursorClick ==> clickScheduled && clickTime == now + ClickDelay
      ensures step.cursorTarget.NoTarget? ==> !clickScheduled
    {
      if step.message.Some? && step.message.value != "" {
        messages := messages + [(step.message.value, step.duration)];
      }
      match step.cursorTarget {
        case At(x, y) =>
          cursor.MoveTo(x, y, 1.0);
          if step.cursorClick {
            clickScheduled := true;
            clickTime := now + ClickDelay;
          }
        case Unresolved =>
        case NoTarget =>
          clickScheduled := false;
      }
    }

    /** `start_demo` at `now` on a viewport of the given size: the first
        step begins with the cursor visible in the middle of the screen: its
        message is shown, its actions run, its glide and camera move start.
        A script without steps ends at once. */
    method StartDemo(viewportWidth: real, viewportHeight: real, now: real)
      requires Valid()
      modifies this, cursor, executor, executor.view, camera
      ensures Valid() && currentStepIndex == 0 && stepStartTime == now && !skipRequested
      ensures isRunning <==> |steps| > 0
      ensures |steps| == 0 ==> demoCompleted && messages == [] && !cursor.visible
      ensures |steps| > 0 ==>
        var step := steps[0];
        messages == old(messages) + StepMessage(step)
        && executor.RanBatch(step.actions, now, old(executor.scheduled), old(executor.executed), old(executor.Current()))
        && cursor.visible && cursor.x == viewportWidth / 2.0 && cursor.y == viewportHeight / 2.0
        && (step.cursorTarget.At? ==>
              cursor.startX == viewportWidth / 2.0 && cursor.startY == viewportHeight / 2.0
              && cursor.targetX == step.cursorTarget.x && cursor.targetY == step.cursorTarget.y
              && cursor.moveProgress == 0.0)
        && (step.cursorTarget.At? && step.cursorClick ==> clickScheduled && clickTime == now + ClickDelay)
        && (step.cursorTarget.NoTarget? ==> !clickScheduled)
        && (step.camera.Some? ==> camera.animating && camera.progress == 0.0)
    {
      isRunning := true;
      currentStepIndex := 0;
      stepStartTime := now;
      skipRequested := false;
      cursor.x := viewportWidth / 2.0;
      cursor.y := viewportHeight / 2.0;
      cursor.Show();
      BeginStep(0, now);
    }

    /** `request_skip`. */
    method RequestSkip()
      modifies this
      ensures skipRequested
      ensures isRunning == old(isRunning) && currentStepIndex == old(currentStepIndex)
      ensures clickScheduled == old(clickScheduled) && stepStartTime == old(stepStartTime)
    {
      skipRequested := true;
    }

    /** `_advance_to_next_step`: the next step, or the end of the demo
        once the last one is done. */
    method AdvanceToNextStep(now: real)
      requires Valid() && isRunning
      modifies this, cursor, executor, executor.view, camera
      ensures Valid() && currentStepIndex == old(currentStepIndex) + 1
      ensures skipRequested == old(skipRequested)
      ensures currentStepIndex >= |steps| ==> !isRunning && demoCompleted && messages == [] && !cursor.visible
      ensures currentStepIndex < |steps| ==>
        isRunning && stepStartTime == now
        && messages == old(messages) + StepMessage(steps[currentStepIndex])
        && executor.RanBatch(steps[currentStepIndex].actions, now,
             old(executor.scheduled), old(executor.executed), old(executor.Current()))
      ensures cursor.clickActive == old(cursor.clickActive)
    {
      currentStepIndex := currentStepIndex + 1;
      if currentStepIndex >= |steps| {
        EndDemo();
      } else {
        stepStartTime := now;
        BeginStep(currentStepIndex, now);
      }
    }

    /** The frame part of `update` on a running demo: the cursor and the
        camera advance by dt, the executor runs what is due at `now`, and
        a scheduled click fires once its time has come. */
    method Tick(dt: real, now: real)
      requires PartsValid()
      modifies this, cursor, executor, executor.view, camera
      ensures PartsValid()
      ensures isRunning == old(isRunning) && currentStepIndex == old(currentStepIndex)
      ensures stepStartTime == old(stepStartTime) && skipRequested == old(skipRequested)
      ensures messages == old(messages) && demoCompleted == old(demoCompleted)
      ensures (cursor.x, cursor.y) == old(cursor.NextPosition(dt)) && cursor.visible == old(cursor.visible)
      ensures camera.animating == old(camera.animating && camera.progress + dt / camera.duration < 1.0)
      ensures executor.RanDue(now, old(executor.scheduled), old(executor.executed),
        WithView(old(executor.Current()), old(camera.NextView(dt))))
      ensures old(clickScheduled) && now >= old(clickTime) ==> !clickScheduled && cursor.clickActive
      ensures !(old(clickScheduled) && now >= old(clickTime)) ==> clickScheduled == old(clickScheduled)
    {
      cursor.Update(dt);
      camera.Update(dt);
      executor.Update(now);
      FireDueClick(now);
    }

    /** The scheduled click fires once its time has come. */
    method FireDueClick(now: real)
      requires cursor.ClickValid()
      modifies this, cursor
      ensures cursor.ClickValid() && cursor.moveDuration == old(cursor.moveDuration)
      ensures cursor.moveProgress == old(cursor.moveProgress)
      ensures cursor.x == old(cursor.x) && cursor.y == old(cursor.y) && cursor.visible == old(cursor.visible)
      ensures isRunning == old(isRunning) && currentStepIndex == old(currentStepIndex)
      ensures stepStartTime == old(stepStartTime) && skipRequested == old(skipRequested)
      ensures messages == old(messages) && demoCompleted == old(demoCompleted)
      ensures old(clickScheduled) && now >= old(clickTime) ==> !clickScheduled && cursor.clickActive
      ensures !(old(clickScheduled) && now >= old(clickTime)) ==>
        clickScheduled == old(clickScheduled) && cursor.clickActive == old(cursor.clickActive)
    {
      if clickScheduled && now >= clickTime {
        cursor.TriggerClick();
        clickScheduled := false;
      }
    }

    /** `update` at `now`, dt seconds after the last frame: nothing when
        stopped; a pending skip ends the demo; otherwise a frame passes
        (`Tick`) and the step moves on once its duration has elapsed.
        Returns whether the demo was running at this frame. */
    method Update(dt: real, now: real) returns (running: bool)
      requires Valid()
      modifies this, cursor, executor, executor.view, camera
      ensures Valid()
      ensures running <==> old(isRunning) && !old(skipRequested)
      ensures !old(isRunning) ==> unchanged(this, cursor, executor, executor.view, camera)
      ensures old(isRunning) && old(skipRequested) ==>
        !isRunning && messages == [] && !cursor.visible && demoCompleted && currentStepIndex == old(currentStepIndex)
      ensures running ==>
        var sched := old(executor.scheduled);
        var scene := WithView(old(executor.Current()), old(camera.NextView(dt)));
        var carryOn := old(now - stepStartTime < steps[currentStepIndex].duration);
        var next := old(currentStepIndex) + 1;
        (old(clickScheduled) && now >= old(clickTime) ==> cursor.clickActive)
        && (carryOn ==>
              isRunning && currentStepIndex == old(currentStepIndex) && stepStartTime == old(stepStartTime)
              && messages == old(messages)
              && executor.RanDue(now, sched, old(executor.executed), scene)
              && (old(clickScheduled) && now >= old(clickTime) ==> !clickScheduled))
        && (!carryOn ==> currentStepIndex == next)
        && (!carryOn && next >= |steps| ==> !isRunning && demoCompleted && messages == [] && !cursor.visible)
        && (!carryOn && next < |steps| ==>
              isRunning && stepStartTime == now
              && messages == old(messages) + StepMessage(steps[next])
              && executor.RanBatch(steps[next].actions, now, Pending(sched, now),
                   old(executor.executed) + Due(sched, now), ApplyAll(executor.carIds, scene, Due(sched, now))))
    {
      if !isRunning {
        return false;
      }
      if skipRequested {
        EndDemo();
        return false;
      }
      Tick(dt, now);
      var step := steps[currentStepIndex];
      if now - stepStartTime >= step.duration {
        AdvanceToNextStep(now);
      }
      return true;
    }
  }
}
