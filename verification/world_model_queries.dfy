/** The world model's timing queries for the HUD: time into the current lap
    and sector, the best lap, the gap of the last sector to the best ones,
    the predicted lap time; and the reset of the driving-mode offsets. They
    read the state `WorldModelState.WorldState` holds, passed here as
    values. A time of `None` is Python's `float('inf')` (a best that was
    never set); in a gap, `None` is minus infinity (a time minus an infinite
    best). */
module WorldModelQueries {
  import opened Common
  import opened WorldModelState
  import WorldModel

  /** `int(time_ms / 10)` capped at the last sample; unlike `get_car_state`
      these queries do not clamp below. */
  function CappedIndex(timeMs: real, n: nat): (idx: int)
    ensures idx <= n - 1
    ensures timeMs >= 0.0 && n > 0 ==> 0 <= idx < n
    ensures timeMs >= 0.0 && n > 0 ==> idx == WorldModel.FrameIndex(timeMs, n)
  {
    var i := Trunc(timeMs / WorldModel.SampleMs);
    if i >= n then n - 1 else i
  }

  /** A count of 10 ms samples in seconds, `(k * 10) / 1000.0`. */
  function Seconds(samples: int): real
  {
    (samples * 10) as real / 1000.0
  }

  // ---------------------------------------------------------------------
  // Time into the current lap (`get_current_lap_time`)
  // ---------------------------------------------------------------------

  /** The loop over the lap starts: starting from `cur`, take each start at
      or before idx and stop at the first one after it. */
  function LapStartFrom(starts: seq<int>, idx: int, cur: int): int
    decreases |starts|
  {
    if starts == [] || starts[0] > idx then cur else LapStartFrom(starts[1..], idx, starts[0])
  }

  /** The loop of `get_current_lap_time` that finds the start of the
      current lap. */
  method CurrentLapStart(starts: seq<int>, idx: int) returns (s: int)
    ensures s == LapStartFrom(starts, idx, 0)
  {
    s := 0;
    var k := 0;
    while k < |starts|
      invariant 0 <= k <= |starts|
      invariant LapStartFrom(starts[k..], idx, s) == LapStartFrom(starts, idx, 0)
    {
      assert starts[k..][0] == starts[k];
      if starts[k] <= idx {
        assert starts[k..][1..] == starts[k + 1..];
        s := starts[k];
      } else {
        break;
      }
      k := k + 1;
    }
  }

  /** On ascending starts the loop yields the last start at or before idx,
      or `cur` when the first start is already after it. */
  lemma {:induction false} LapStartFromSpec(starts: seq<int>, idx: int, cur: int)
    requires StrictlyIncreasing(starts)
    ensures (starts == [] || starts[0] > idx) ==> LapStartFrom(starts, idx, cur) == cur
    ensures starts != [] && starts[0] <= idx ==>
      var r := LapStartFrom(starts, idx, cur);
      r in starts && r <= idx && forall k :: 0 <= k < |starts| && starts[k] <= idx ==> starts[k] <= r
    decreases |starts|
  {
    if starts != [] && starts[0] <= idx {
      var tail := starts[1..];
      assert StrictlyIncreasing(tail) by {
        forall i, j | 0 <= i < j < |tail| ensures tail[i] < tail[j] {
          assert tail[i] == starts[i + 1] && tail[j] == starts[j + 1];
        }
      }
      LapStartFromSpec(tail, idx, starts[0]);
      if tail != [] && tail[0] <= idx {
        var r := LapStartFrom(tail, idx, starts[0]);
        forall k | 0 <= k < |starts| && starts[k] <= idx ensures starts[k] <= r {
          if k > 0 {
            assert starts[k] == tail[k - 1];
          } else {
            assert starts[0] < tail[0];
          }
        }
      } else if tail != [] {
        forall k | 0 < k < |starts| ensures starts[k] > idx {
          assert starts[1] == tail[0];
          if k > 1 {
            assert starts[1] < starts[k];
          }
        }
      }
    }
  }

  /** `get_current_lap_time`: the samples since the current lap's start, in
      seconds; a car without lap data counts from sample 0. */
  method CurrentLapTime(lapStarts: Option<seq<int>>, n: nat, timeMs: real) returns (t: real)
    ensures t == CurrentLapTimeOf(lapStarts, n, timeMs)
  {
    var starts := if lapStarts.Some? then lapStarts.value else [0];
    var idx := CappedIndex(timeMs, n);
    var start := CurrentLapStart(starts, idx);
    t := Seconds(idx - start);
  }

  function CurrentLapTimeOf(lapStarts: Option<seq<int>>, n: nat, timeMs: real): real
  {
    var starts := if lapStarts.Some? then lapStarts.value else [0];
    var idx := CappedIndex(timeMs, n);
    Seconds(idx - LapStartFrom(starts, idx, 0))
  }

  /** `t` is the time at sample `idx` since the start of lap `lap`: not
      negative, and below the time from that lap's start to the next one. */
  predicate TimeIntoLap(starts: seq<int>, lap: int, idx: int, t: real)
  {
    1 <= lap <= |starts| && t == Seconds(idx - starts[lap - 1]) && t >= 0.0
    && (lap < |starts| ==> t < Seconds(starts[lap] - starts[lap - 1]))
  }

  /** On the lap starts of the car's own lapdist and a time within or past
      the recording, the lap time is counted from the start of the very lap
      that `_get_lap_number` reports for that sample, is never negative, and
      stays below the time to the next lap start. */
  lemma CurrentLapTimeSpec(ld: seq<real>, timeMs: real)
    requires |ld| > 0 && timeMs >= 0.0
    ensures var starts := WorldModel.LapStartsOf(ld);
      var idx := CappedIndex(timeMs, |ld|);
      TimeIntoLap(starts, WorldModel.LapNumberOf(starts, idx), idx, CurrentLapTimeOf(Some(starts), |ld|, timeMs))
  {
    LapTimeFromStarts(WorldModel.LapStartsOf(ld), |ld|, timeMs);
  }

  /** `CurrentLapTimeSpec` for any valid lap-start list. */
  lemma LapTimeFromStarts(starts: seq<int>, n: nat, timeMs: real)
    requires |starts| > 0 && starts[0] == 0 && StrictlyIncreasing(starts) && n > 0 && timeMs >= 0.0
    ensures var idx := CappedIndex(timeMs, n);
      TimeIntoLap(starts, WorldModel.LapNumberOf(starts, idx), idx, CurrentLapTimeOf(Some(starts), n, timeMs))
  {
    var idx := CappedIndex(timeMs, n);
    CurrentLapStartIsLapNumberStart(starts, idx);
    var lap := WorldModel.LapNumberOf(starts, idx);
    var t := CurrentLapTimeOf(Some(starts), n, timeMs);
    assert t == Seconds(idx - starts[lap - 1]);
    if lap < |starts| {
      SecondsMonotone(idx - starts[lap - 1], starts[lap] - starts[lap - 1]);
    }
  }

  lemma SecondsMonotone(a: int, b: int)
    requires a < b
    ensures Seconds(a) < Seconds(b)
  {
  }

  /** The start the loop finds is the start of lap `_get_lap_number`. */
  lemma CurrentLapStartIsLapNumberStart(starts: seq<int>, idx: int)
    requires |starts| > 0 && starts[0] == 0 && StrictlyIncreasing(starts) && idx >= 0
    ensures var lap := WorldModel.LapNumberOf(starts, idx);
      1 <= lap <= |starts| && LapStartFrom(starts, idx, 0) == starts[lap - 1]
      && starts[lap - 1] <= idx && (lap < |starts| ==> idx < starts[lap])
  {
    var lap := WorldModel.LapNumberOf(starts, idx);
    WorldModel.LapNumberSpec(starts, idx);
    LapStartFromSpec(starts, idx, 0);
    var r := LapStartFrom(starts, idx, 0);
    var k :| 0 <= k < |starts| && starts[k] == r;
    if lap < |starts| {
      assert k < lap;
    }
  }

  // ---------------------------------------------------------------------
  // Time into the current sector (`get_current_sector_time`)
  // ---------------------------------------------------------------------

  /** The backward search from idx: the last sample at or before it whose
      lapdist is below d. */
  function LastBelow(ld: seq<real>, idx: int, d: real): (r: Option<nat>)
    requires idx < |ld|
    ensures r.Some? ==> r.value <= idx && ld[r.value] < d && forall j :: r.value < j <= idx ==> ld[j] >= d
    ensures r.None? ==> forall j :: 0 <= j <= idx ==> ld[j] >= d
    decreases idx + 1
  {
    if idx < 0 then None else if ld[idx] < d then Some(idx) else LastBelow(ld, idx - 1, d)
  }

  /** The loop of `get_current_sector_time`, counting down from idx. */
  method SearchEntry(ld: seq<real>, idx: int, d: real) returns (r: Option<nat>)
    requires idx < |ld|
    ensures r == LastBelow(ld, idx, d)
  {
    var i := idx;
    while i >= 0
      invariant i <= idx
      invariant LastBelow(ld, i, d) == LastBelow(ld, idx, d)
      decreases i + 1
    {
      if ld[i] < d {
        return Some(i);
      }
      i := i - 1;
    }
    return None;
  }

  /** `get_current_sector_time` on the car's lapdist: 0 without sectors;
      otherwise the time since the last sample before the current sector's
      start distance, or 0 when every sample so far is past it. */
  function SectorTimeOf(ld: seq<real>, bounds: seq<SectorBound>, timeMs: real): (t: real)
    requires |ld| > 0 && timeMs >= 0.0
    ensures t >= 0.0
    ensures |bounds| == 0 ==> t == 0.0
  {
    if |bounds| == 0 then 0.0
    else
      var idx := CappedIndex(timeMs, |ld|);
      var s := CurrentSector(bounds, ld[idx]);
      match LastBelow(ld, idx, bounds[s - 1].startDist)
      case None => 0.0
      case Some(e) => Seconds(idx - e)
  }

  method CurrentSectorTime(ld: seq<real>, bounds: seq<SectorBound>, timeMs: real) returns (t: real)
    requires |ld| > 0 && timeMs >= 0.0
    ensures t == SectorTimeOf(ld, bounds, timeMs)
  {
    if |bounds| == 0 {
      return 0.0;
    }
    var idx := CappedIndex(timeMs, |ld|);
    var s := CurrentSector(bounds, ld[idx]);
    var entry := SearchEntry(ld, idx, bounds[s - 1].startDist);
    t := if entry.Some? then Seconds(idx - entry.value) else 0.0;
  }

  /** With sectors, a positive sector time of k hundredths means the car
      has been at or past the current sector's start for exactly the last k
      samples, and the sample before them was short of it. */
  lemma SectorTimeSpec(ld: seq<real>, bounds: seq<SectorBound>, timeMs: real)
    requires |ld| > 0 && timeMs >= 0.0 && |bounds| > 0
    ensures var idx := CappedIndex(timeMs, |ld|);
      var d := bounds[CurrentSector(bounds, ld[idx]) - 1].startDist;
      var t := SectorTimeOf(ld, bounds, timeMs);
      t > 0.0 ==> exists e :: 0 <= e < idx && t == Seconds(idx - e) && ld[e] < d
                               && forall j :: e < j <= idx ==> ld[j] >= d
  {
    var idx := CappedIndex(timeMs, |ld|);
    var d := bounds[CurrentSector(bounds, ld[idx]) - 1].startDist;
    var r := LastBelow(ld, idx, d);
    if r.Some? && SectorTimeOf(ld, bounds, timeMs) > 0.0 {
      assert r.value < idx;
    }
  }

  // ---------------------------------------------------------------------
  // Best lap (`get_best_lap_time`)
  // ---------------------------------------------------------------------

  /** `get_best_lap_time`: the fastest recorded lap, infinite (None) for a
      car with no entry or no recorded lap. */
  function BestLapTime(lapTimes: Option<seq<real>>): (r: Option<real>)
    ensures r.None? <==> lapTimes.None? || lapTimes.value == []
    ensures r.Some? ==> r.value in lapTimes.value && forall t :: t in lapTimes.value ==> r.value <= t
  {
    if lapTimes.None? || lapTimes.value == [] then None else Some(MinOf(lapTimes.value))
  }

  /** On the times `_compute_car_sector_times` records, the best lap is the
      start-to-last-sector time of one of the car's laps. */
  lemma BestLapIsALap(ld: seq<real>, starts: seq<int>, m: nat, bounds: seq<SectorBound>)
    requires ValidStarts(ld, starts) && Ordered(starts) && m < |starts| && |bounds| <= BestSlots
    ensures var b := BestLapTime(Some(CarTimesUpTo(ld, starts, m, bounds).lapTimes));
      b.Some? ==> exists li :: 0 <= li < m && LapTimeOf(ld, starts, li, bounds) == b
  {
    LapTimesTelescope(ld, starts, m, bounds);
  }

  // ---------------------------------------------------------------------
  // Gap to the best sectors (`get_sector_delta`)
  // ---------------------------------------------------------------------

  datatype SectorDelta = SectorDelta(toPersonal: Option<real>, toOverall: Option<real>,
                                     isPersonalBest: bool, isOverallBest: bool)

  const NoDelta: SectorDelta := SectorDelta(Some(0.0), Some(0.0), false, false)

  /** A time minus a best; None (minus infinity) when the best is infinite. */
  function Gap(t: real, best: Option<real>): Option<real>
  {
    if best.Some? then Some(t - best.value) else None
  }

  /** Within a thousandth of a second of the best. */
  predicate Matches(gap: Option<real>)
  {
    gap.Some? && AbsReal(gap.value) < 0.001
  }

  /** The lap table has at least one lap. */
  predicate HasLap(table: map<int, seq<real>>)
  {
    exists n :: n in table
  }

  /** `sorted(laps)[-1]`: the highest lap number. */
  ghost function LastLap(laps: set<int>): (n: int)
    requires exists k :: k in laps
    ensures n in laps && forall k :: k in laps ==> k <= n
    decreases |laps|
  {
    var k :| k in laps;
    var rest := laps - {k};
    assert forall j :: j in laps ==> j == k || j in rest;
    if exists j :: j in rest then
      var r := LastLap(rest);
      if k >= r then k else r
    else k
  }

  /** `get_sector_delta(car, sector)`: the last recorded lap's time in that
      sector against the car's best and the fleet's best. A car without
      bests or without a recorded lap that has this sector gets zero gaps
      and no best flags. */
  ghost function SectorDeltaOf(carBest: Option<seq<Option<real>>>, overall: seq<Option<real>>,
                               table: Option<map<int, seq<real>>>, sector: int): (r: SectorDelta)
    requires 1 <= sector <= BestSlots && |overall| == BestSlots
    requires carBest.Some? ==> |carBest.value| == BestSlots
    ensures carBest.None? || table.None? || !HasLap(table.value) ==> r == NoDelta
    ensures r.isPersonalBest ==> Matches(r.toPersonal)
    ensures r.isOverallBest ==> Matches(r.toOverall)
  {
    if carBest.None? || table.None? || !HasLap(table.value) then NoDelta
    else
      var sectors := table.value[LastLap(table.value.Keys)];
      if sector <= |sectors| then
        var t := sectors[sector - 1];
        var p := Gap(t, carBest.value[sector - 1]);
        var o := Gap(t, overall[sector - 1]);
        SectorDelta(p, o, Matches(p), Matches(o))
      else NoDelta
  }

  /** A sector time recorded for a car's lap is never better than the
      car's best for that sector. */
  lemma RecordedNotBelowBest(ld: seq<real>, starts: seq<int>, m: nat, bounds: seq<SectorBound>, n: int, k: int)
    requires ValidStarts(ld, starts) && Ordered(starts) && m < |starts| && |bounds| <= BestSlots
    requires n in CarTimesUpTo(ld, starts, m, bounds).sectorTimes
    requires 0 <= k < |CarTimesUpTo(ld, starts, m, bounds).sectorTimes[n]| && k < BestSlots
    ensures var c := CarTimesUpTo(ld, starts, m, bounds);
      c.best[k].Some? && c.best[k].value <= c.sectorTimes[n][k]
  {
    RecordedLaps(ld, starts, m, bounds);
    var p := SectorPass(LapSlice(ld, starts, n - 1), bounds, starts[n - 1]);
    assert CarTimesUpTo(ld, starts, m, bounds).sectorTimes[n] == Values(p.times);
    assert p.times[k].Some?;
    BestIsMinimal(ld, starts, m, bounds, n - 1, k);
  }

  /** On the times `_compute_car_sector_times` records, the last lap can
      never beat the car's own best in a sector: the gap to the personal
      best is finite and never negative. */
  lemma PersonalGapNonNegative(ld: seq<real>, starts: seq<int>, m: nat, bounds: seq<SectorBound>,
                               overall: seq<Option<real>>, sector: int)
    requires ValidStarts(ld, starts) && Ordered(starts) && m < |starts| && |bounds| <= BestSlots
    requires 1 <= sector <= BestSlots && |overall| == BestSlots
    ensures var c := CarTimesUpTo(ld, starts, m, bounds);
      var r := SectorDeltaOf(Some(c.best), overall, Some(c.sectorTimes), sector);
      r.toPersonal.Some? && r.toPersonal.value >= 0.0
  {
    var c := CarTimesUpTo(ld, starts, m, bounds);
    var table := c.sectorTimes;
    if HasLap(table) {
      var n := LastLap(table.Keys);
      if sector <= |table[n]| {
        RecordedNotBelowBest(ld, starts, m, bounds, n, sector - 1);
      }
    }
  }

  // ---------------------------------------------------------------------
  // Predicted lap time (`get_predicted_lap_time`)
  // ---------------------------------------------------------------------

  /** Times added left to right; one infinite time makes the sum infinite. */
  function SumTimes(ts: seq<Option<real>>): Option<real>
  {
    if ts == [] then Some(0.0)
    else
      var prev := SumTimes(ts[..|ts| - 1]);
      var last := ts[|ts| - 1];
      if prev.Some? && last.Some? then Some(prev.value + last.value) else None
  }

  /** `get_predicted_lap_time`: 0 without sectors or without bests for the
      car; otherwise the time into the current lap plus the car's best time
      of every sector after the current one. */
  function PredictedOf(bounds: seq<SectorBound>, carBest: Option<seq<Option<real>>>,
                       lapdist: real, lapTime: real): Option<real>
    requires |bounds| <= BestSlots && (carBest.Some? ==> |carBest.value| == BestSlots)
  {
    if |bounds| == 0 || carBest.None? then Some(0.0)
    else
      var s := CurrentSector(bounds, lapdist);
      AddTo(lapTime, SumTimes(carBest.value[s..|bounds|]))
  }

  function AddTo(t: real, r: Option<real>): Option<real>
  {
    if r.Some? then Some(t + r.value) else None
  }

  /** Adding one more sector's best to the running prediction. */
  lemma PredictedStep(best: seq<Option<real>>, s: nat, i: nat, lapTime: real)
    requires s <= i < |best|
    ensures var p := AddTo(lapTime, SumTimes(best[s..i]));
      AddTo(lapTime, SumTimes(best[s..i + 1]))
      == if p.Some? && best[i].Some? then Some(p.value + best[i].value) else None
  {
    assert best[s..i + 1][..i - s] == best[s..i];
  }

  /** The loop of `get_predicted_lap_time`, given the sector the car is in
      and its time into the lap. */
  method Predicted(bounds: seq<SectorBound>, carBest: Option<seq<Option<real>>>,
                   lapdist: real, lapTime: real) returns (p: Option<real>)
    requires |bounds| <= BestSlots && (carBest.Some? ==> |carBest.value| == BestSlots)
    ensures p == PredictedOf(bounds, carBest, lapdist, lapTime)
  {
    if |bounds| == 0 || carBest.None? {
      return Some(0.0);
    }
    var best := carBest.value;
    var s := CurrentSector(bounds, lapdist);
    p := Some(lapTime);
    var i := s;
    while i < |bounds|
      invariant s <= i <= |bounds|
      invariant p == AddTo(lapTime, SumTimes(best[s..i]))
    {
      PredictedStep(best, s, i, lapTime);
      p := if p.Some? && best[i].Some? then Some(p.value + best[i].value) else None;
      i := i + 1;
    }
  }

  /** The prediction is infinite exactly when a later sector has no best
      yet; in the last sector it is the time into the lap; and with
      non-negative bests it is never less than the time into the lap. */
  lemma PredictedSpec(bounds: seq<SectorBound>, best: seq<Option<real>>, lapdist: real, lapTime: real)
    requires 0 < |bounds| <= BestSlots && |best| == BestSlots
    ensures var s := CurrentSector(bounds, lapdist);
      var p := PredictedOf(bounds, Some(best), lapdist, lapTime);
      (p.None? <==> exists i :: s <= i < |bounds| && best[i].None?)
      && (s == |bounds| ==> p == Some(lapTime))
      && ((forall i :: s <= i < |bounds| ==> best[i].Some? && best[i].value >= 0.0) ==> p.Some? && p.value >= lapTime)
  {
    var s := CurrentSector(bounds, lapdist);
    SumTimesSpec(best[s..|bounds|]);
    var ts := best[s..|bounds|];
    assert forall i :: s <= i < |bounds| ==> best[i] == ts[i - s];
    assert forall j :: 0 <= j < |ts| ==> ts[j] == best[j + s];
  }

  /** A sum of times is infinite exactly when one of them is, and a sum of
      non-negative times is non-negative. */
  lemma {:induction false} SumTimesSpec(ts: seq<Option<real>>)
    ensures SumTimes(ts).None? <==> exists j :: 0 <= j < |ts| && ts[j].None?
    ensures (forall j :: 0 <= j < |ts| ==> ts[j].Some? && ts[j].value >= 0.0) ==>
      SumTimes(ts).Some? && SumTimes(ts).value >= 0.0
  {
    if ts != [] {
      var p := ts[..|ts| - 1];
      SumTimesSpec(p);
      assert forall j :: 0 <= j < |p| ==> p[j] == ts[j];
    }
  }

  // ---------------------------------------------------------------------
  // Deviation offsets (`reset_deviation`)
  // ---------------------------------------------------------------------

  function Zeros(n: nat): (z: seq<WorldModel.Point>)
    ensures |z| == n && forall k :: 0 <= k < n ==> z[k] == WorldModel.Point(0.0, 0.0)
  {
    seq(n, k => WorldModel.Point(0.0, 0.0))
  }

  /** Every listed car's offsets zeroed, same length; other entries kept. */
  function ResetOffsets(offsets: map<string, seq<WorldModel.Point>>, carIds: seq<string>)
    : (r: map<string, seq<WorldModel.Point>>)
    ensures r.Keys == offsets.Keys
    ensures forall c :: c in offsets && c in carIds ==> r[c] == Zeros(|offsets[c]|)
    ensures forall c :: c in offsets && c !in carIds ==> r[c] == offsets[c]
  {
    map c | c in offsets :: if c in carIds then Zeros(|offsets[c]|) else offsets[c]
  }

  /** `reset_deviation`: the loop over the cars. */
  method ResetDeviation(offsets: map<string, seq<WorldModel.Point>>, carIds: seq<string>)
    returns (r: map<string, seq<WorldModel.Point>>)
    requires forall c :: c in carIds ==> c in offsets
    ensures r == ResetOffsets(offsets, carIds)
  {
    ResetNone(offsets);
    r := offsets;
    var k := 0;
    while k < |carIds|
      invariant 0 <= k <= |carIds|
      invariant r == ResetOffsets(offsets, carIds[..k])
    {
      assert carIds[..k + 1] == carIds[..k] + [carIds[k]];
      r := ResetOne(r, offsets, carIds[..k], carIds[k]);
      k := k + 1;
    }
    assert carIds[..k] == carIds;
  }

  /** One iteration: zero car c's offsets. */
  method ResetOne(r: map<string, seq<WorldModel.Point>>, offsets: map<string, seq<WorldModel.Point>>,
                  done: seq<string>, c: string) returns (r': map<string, seq<WorldModel.Point>>)
    requires c in offsets && r == ResetOffsets(offsets, done)
    ensures r' == ResetOffsets(offsets, done + [c])
  {
    r' := r[c := Zeros(|offsets[c]|)];
    ResetOffsetsStep(offsets, done, c);
  }

  /** Resetting no car changes nothing. */
  lemma ResetNone(offsets: map<string, seq<WorldModel.Point>>)
    ensures ResetOffsets(offsets, []) == offsets
  {
  }

  /** Resetting one more car updates just that car's entry. */
  lemma ResetOffsetsStep(offsets: map<string, seq<WorldModel.Point>>, done: seq<string>, c: string)
    requires c in offsets
    ensures ResetOffsets(offsets, done + [c]) == ResetOffsets(offsets, done)[c := Zeros(|offsets[c]|)]
  {
    var a := ResetOffsets(offsets, done + [c]);
    var b := ResetOffsets(offsets, done)[c := Zeros(|offsets[c]|)];
    assert a.Keys == b.Keys;
    forall d | d in a ensures a[d] == b[d] {
      if d != c {
        assert d in done + [c] <==> d in done;
      }
    }
  }

  /** After a reset every listed car is drawn on its recorded position. */
  lemma ResetRestoresRecordedPosition(traj: seq<seq<real>>, width: nat, offsets: map<string, seq<WorldModel.Point>>,
                                      carIds: seq<string>, c: string, lapStarts: seq<int>, mode: string,
                                      lines: WorldModel.Lines, timeMs: real, sqrt: real -> real)
    requires c in offsets && c in carIds && |offsets[c]| == |traj| > 0
    requires WorldModel.Rectangular(traj, width) && width >= 4 && WorldModel.LinesNonEmpty(lines)
    ensures var s := WorldModel.CarStateAt(traj, width, ResetOffsets(offsets, carIds)[c], lapStarts, mode, lines, timeMs, sqrt);
      var idx := WorldModel.FrameIndex(timeMs, |traj|);
      s.x == traj[idx][0] && s.y == traj[idx][1]
  {
  }
}
