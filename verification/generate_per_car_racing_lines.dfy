/** Per-car racing lines: a car's trajectory is cut into laps at lap-distance
    resets, every clean lap is resampled onto a uniform lap-distance grid and
    the line is the per-grid-point median over those laps. `np.interp`, the
    median and the final Gaussian smoothing are given functions or left out. */
module GeneratePerCarRacingLines {
  import opened Common

  /** The trajectory columns read here: x, y and lap distance. */
  datatype Row = Row(x: real, y: real, lapdist: real)

  datatype XY = XY(x: real, y: real)

  /** A lap as the half-open row range [start, end). */
  datatype Lap = Lap(start: int, end: int)

  const ResetThreshold: real := -100.0
  const MinLapSamples: int := 100
  const MinLapRange: real := 100.0

  // ---------------------------------------------------------------------
  // segment_laps_by_lapdist
  // ---------------------------------------------------------------------

  /** Row i starts a new lap when lap distance falls by more than 100 m. */
  predicate IsReset(ld: seq<real>, i: int)
  {
    1 <= i < |ld| && ld[i] - ld[i - 1] < ResetThreshold
  }

  /** `np.where(np.diff(lapdist) < -100)[0] + 1`. */
  function Resets(ld: seq<real>): seq<int>
  {
    if |ld| <= 1 then []
    else Resets(ld[..|ld| - 1]) + (if IsReset(ld, |ld| - 1) then [|ld| - 1] else [])
  }

  lemma {:induction false} ResetsSpec(ld: seq<real>)
    ensures StrictlyIncreasing(Resets(ld))
    ensures forall k :: 0 <= k < |Resets(ld)| ==> 1 <= Resets(ld)[k] < |ld|
    ensures forall i :: i in Resets(ld) <==> IsReset(ld, i)
  {
    if |ld| > 1 {
      var p := ld[..|ld| - 1];
      ResetsSpec(p);
      forall i | 1 <= i < |p| ensures IsReset(p, i) == IsReset(ld, i) {
      }
      forall i | i in Resets(p) ensures i < |ld| - 1 {
        var k :| 0 <= k < |Resets(p)| && Resets(p)[k] == i;
      }
    }
  }

  function Boundaries(ld: seq<real>): seq<int>
  {
    [0] + Resets(ld) + [|ld|]
  }

  /** Boundaries start at 0, end at n and never decrease. */
  lemma BoundariesSpec(ld: seq<real>)
    ensures var b := Boundaries(ld);
      |b| >= 2 && b[0] == 0 && b[|b| - 1] == |ld|
      && forall j, k :: 0 <= j < k < |b| ==> b[j] <= b[k]
  {
    ResetsSpec(ld);
  }

  /** The consecutive boundary pairs that span more than 100 rows. */
  function LongSegments(b: seq<int>): seq<Lap>
  {
    if |b| < 2 then []
    else
      LongSegments(b[..|b| - 1])
      + (if b[|b| - 1] - b[|b| - 2] > MinLapSamples then [Lap(b[|b| - 2], b[|b| - 1])] else [])
  }

  /** `lap` is the pair of consecutive boundaries b[j], b[j + 1] for some j. */
  predicate IsBoundaryPair(b: seq<int>, lap: Lap)
  {
    exists j :: 0 <= j < |b| - 1 && lap == Lap(b[j], b[j + 1])
  }

  lemma LongSegmentsStep(b: seq<int>)
    requires |b| >= 2
    ensures var lp := LongSegments(b[..|b| - 1]);
      LongSegments(b) == lp + (if b[|b| - 1] - b[|b| - 2] > MinLapSamples then [Lap(b[|b| - 2], b[|b| - 1])] else [])
  {
  }

  /** Every returned lap is a consecutive boundary pair more than 100 rows apart. */
  lemma {:induction false} LongSegmentsSound(b: seq<int>)
    ensures forall k :: 0 <= k < |LongSegments(b)| ==>
      LongSegments(b)[k].end - LongSegments(b)[k].start > MinLapSamples
      && IsBoundaryPair(b, LongSegments(b)[k])
  {
    if |b| >= 2 {
      var p := b[..|b| - 1];
      LongSegmentsSound(p);
      LongSegmentsStep(b);
      var laps := LongSegments(b);
      var lp := LongSegments(p);
      forall k | 0 <= k < |laps|
        ensures laps[k].end - laps[k].start > MinLapSamples && IsBoundaryPair(b, laps[k])
      {
        if k < |lp| {
          assert laps[k] == lp[k];
          assert IsBoundaryPair(p, lp[k]);
          var j :| 0 <= j < |p| - 1 && lp[k] == Lap(p[j], p[j + 1]);
          assert laps[k] == Lap(b[j], b[j + 1]);
        } else {
          assert laps[k] == Lap(b[|b| - 2], b[|b| - 1]);
          assert laps[k] == Lap(b[|b| - 2], b[|b| - 2 + 1]);
        }
      }
    }
  }

  /** Every consecutive boundary pair more than 100 rows apart is returned. */
  lemma {:induction false} LongSegmentsComplete(b: seq<int>)
    ensures forall j :: 0 <= j < |b| - 1 && b[j + 1] - b[j] > MinLapSamples ==> Lap(b[j], b[j + 1]) in LongSegments(b)
  {
    if |b| >= 2 {
      var p := b[..|b| - 1];
      LongSegmentsComplete(p);
      LongSegmentsStep(b);
      var laps := LongSegments(b);
      var lp := LongSegments(p);
      forall j | 0 <= j < |b| - 1 && b[j + 1] - b[j] > MinLapSamples ensures Lap(b[j], b[j + 1]) in laps {
        if j < |b| - 2 {
          assert p[j] == b[j] && p[j + 1] == b[j + 1];
          assert Lap(p[j], p[j + 1]) in lp;
        } else {
          assert laps[|laps| - 1] == Lap(b[j], b[j + 1]);
        }
      }
    }
  }

  /** With non-decreasing boundaries the laps are ordered, disjoint and
      inside [first boundary, last boundary]. */
  lemma {:induction false} LongSegmentsOrdered(b: seq<int>)
    requires forall j, k :: 0 <= j < k < |b| ==> b[j] <= b[k]
    ensures forall k :: 0 <= k < |LongSegments(b)| - 1 ==> LongSegments(b)[k].end <= LongSegments(b)[k + 1].start
    ensures forall k :: 0 <= k < |LongSegments(b)| ==>
      |b| >= 2 && b[0] <= LongSegments(b)[k].start && LongSegments(b)[k].end <= b[|b| - 1]
  {
    if |b| >= 2 {
      var p := b[..|b| - 1];
      LongSegmentsOrdered(p);
      LongSegmentsStep(b);
      var laps := LongSegments(b);
      var lp := LongSegments(p);
      assert forall k :: 0 <= k < |lp| ==> laps[k] == lp[k];
      assert |p| >= 1 && p[0] == b[0] && p[|p| - 1] == b[|b| - 2] <= b[|b| - 1];
      if |lp| > 0 {
        assert |p| >= 2 && lp[|lp| - 1].end <= p[|p| - 1];
      }
      forall k | 0 <= k < |laps|
        ensures b[0] <= laps[k].start && laps[k].end <= b[|b| - 1]
      {
        if k < |lp| {
          assert laps[k] == lp[k];
          assert lp[k].end <= p[|p| - 1];
        } else {
          assert laps[k] == Lap(b[|b| - 2], b[|b| - 1]);
          assert b[0] <= b[|b| - 2];
        }
      }
    } else {
      assert LongSegments(b) == [];
    }
  }

  /** The boundary loop of `segment_laps_by_lapdist`. */
  method SegmentLaps(ld: seq<real>) returns (laps: seq<Lap>)
    ensures laps == LongSegments(Boundaries(ld))
  {
    var b := Boundaries(ld);
    laps := [];
    var i := 0;
    while i < |b| - 1
      invariant 0 <= i <= |b| - 1
      invariant laps == LongSegments(b[..i + 1])
    {
      assert b[..i + 2][..i + 1] == b[..i + 1];
      var start, end := b[i], b[i + 1];
      if end - start > MinLapSamples {
        laps := laps + [Lap(start, end)];
      }
      i := i + 1;
    }
    assert b[..i + 1] == b;
  }

  /** Laps lie inside the trajectory, are longer than 100 rows, and are
      ordered and disjoint. */
  lemma LapsWithinTrajectory(ld: seq<real>)
    ensures var laps := LongSegments(Boundaries(ld));
      forall k :: 0 <= k < |laps| ==>
        0 <= laps[k].start && laps[k].start + MinLapSamples < laps[k].end <= |ld|
        && (k + 1 < |laps| ==> laps[k].end <= laps[k + 1].start)
  {
    BoundariesSpec(ld);
    LongSegmentsSound(Boundaries(ld));
    LongSegmentsOrdered(Boundaries(ld));
  }

  // ---------------------------------------------------------------------
  // interpolate_lap_to_grid
  // ---------------------------------------------------------------------

  function XsOf(xy: seq<XY>): seq<real>
  {
    seq(|xy|, i requires 0 <= i < |xy| => xy[i].x)
  }

  function YsOf(xy: seq<XY>): seq<real>
  {
    seq(|xy|, i requires 0 <= i < |xy| => xy[i].y)
  }

  /** A lap shorter than 100 m gives `None`; otherwise x and y are resampled
      by `interp(g, lapdist, values)` at n evenly spaced distances from the
      lap's minimum to its maximum. */
  function InterpolateLapToGrid(xy: seq<XY>, ld: seq<real>, n: nat, interp: (real, seq<real>, seq<real>) -> real)
    : (r: Option<seq<XY>>)
    requires |ld| > 0
    ensures r.None? <==> MaxOf(ld) - MinOf(ld) < MinLapRange
    ensures r.Some? ==> |r.value| == n
    ensures r.Some? ==> forall k :: 0 <= k < n ==>
      r.value[k] == XY(interp(Linspace(MinOf(ld), MaxOf(ld), n)[k], ld, XsOf(xy)),
                       interp(Linspace(MinOf(ld), MaxOf(ld), n)[k], ld, YsOf(xy)))
  {
    var lo := MinOf(ld);
    var hi := MaxOf(ld);
    if hi - lo < MinLapRange then None
    else
      var g := Linspace(lo, hi, n);
      Some(seq(n, k requires 0 <= k < n => XY(interp(g[k], ld, XsOf(xy)), interp(g[k], ld, YsOf(xy)))))
  }

  // ---------------------------------------------------------------------
  // compute_per_car_racing_line
  // ---------------------------------------------------------------------

  function Lapdists(traj: seq<Row>): seq<real>
  {
    seq(|traj|, i requires 0 <= i < |traj| => traj[i].lapdist)
  }

  function Positions(traj: seq<Row>): seq<XY>
  {
    seq(|traj|, i requires 0 <= i < |traj| => XY(traj[i].x, traj[i].y))
  }

  /** `np.all(np.diff(s) >= 0)`. */
  predicate StepsNonNegative(s: seq<real>)
  {
    forall j :: 0 <= j < |s| - 1 ==> s[j] <= s[j + 1]
  }

  predicate LapInside(traj: seq<Row>, lap: Lap)
  {
    0 <= lap.start < lap.end <= |traj|
  }

  /** One accepted lap: its resampled points and its length. */
  datatype Resampled = Resampled(points: seq<XY>, length: real)

  /** One lap's contribution: nothing when its lap distance ever decreases
      or it is shorter than 100 m, otherwise its resampled points and length. */
  function AcceptLap(traj: seq<Row>, lap: Lap, n: nat, interp: (real, seq<real>, seq<real>) -> real)
    : (acc: seq<Resampled>)
    requires LapInside(traj, lap)
    ensures |acc| <= 1
    ensures forall k :: 0 <= k < |acc| ==> acc[k].length >= MinLapRange && |acc[k].points| == n
  {
    var ld := Lapdists(traj)[lap.start..lap.end];
    if !StepsNonNegative(ld) then []
    else match InterpolateLapToGrid(Positions(traj)[lap.start..lap.end], ld, n, interp)
      case None => []
      case Some(pts) => [Resampled(pts, MaxOf(ld) - MinOf(ld))]
  }

  /** The laps that pass the monotonicity check and the 100 m guard, in
      order; each is at least 100 m long and has n points. */
  function Accepted(traj: seq<Row>, laps: seq<Lap>, n: nat, interp: (real, seq<real>, seq<real>) -> real)
    : (acc: seq<Resampled>)
    requires LapsInside(traj, laps)
    ensures |acc| <= |laps|
    ensures forall k :: 0 <= k < |acc| ==> acc[k].length >= MinLapRange && |acc[k].points| == n
  {
    if laps == [] then []
    else
      assert LapInside(traj, laps[|laps| - 1]);
      Accepted(traj, laps[..|laps| - 1], n, interp) + AcceptLap(traj, laps[|laps| - 1], n, interp)
  }

  /** The loop body of `compute_per_car_racing_line` for one lap: the
      resampled lap, or nothing when its lap distance goes backwards or it
      cannot be resampled. */
  method AcceptOne(ld: seq<real>, xy: seq<XY>, traj: seq<Row>, lap: Lap, n: nat,
                   interp: (real, seq<real>, seq<real>) -> real)
    returns (step: seq<Resampled>)
    requires ld == Lapdists(traj) && xy == Positions(traj) && LapInside(traj, lap)
    ensures step == AcceptLap(traj, lap, n, interp)
  {
    var lapLd := ld[lap.start..lap.end];
    step := [];
    if StepsNonNegative(lapLd) {
      var interpLap := InterpolateLapToGrid(xy[lap.start..lap.end], lapLd, n, interp);
      if interpLap.Some? {
        step := [Resampled(interpLap.value, MaxOf(lapLd) - MinOf(lapLd))];
      }
    }
  }

  lemma AcceptedStep(traj: seq<Row>, laps: seq<Lap>, i: int, n: nat, interp: (real, seq<real>, seq<real>) -> real)
    requires LapsInside(traj, laps) && 0 <= i < |laps|
    ensures LapsInside(traj, laps[..i]) && LapsInside(traj, laps[..i + 1]) && LapInside(traj, laps[i])
    ensures Accepted(traj, laps[..i + 1], n, interp) == Accepted(traj, laps[..i], n, interp) + AcceptLap(traj, laps[i], n, interp)
  {
    assert laps[..i + 1][..i] == laps[..i];
    assert laps[..i + 1][i] == laps[i];
  }

  function Lengths(acc: seq<Resampled>): seq<real>
  {
    seq(|acc|, i requires 0 <= i < |acc| => acc[i].length)
  }

  /** The per-point median over the stacked laps. */
  function MedianLine(acc: seq<Resampled>, n: nat, median: seq<real> -> real): (line: seq<XY>)
    requires forall k :: 0 <= k < |acc| ==> |acc[k].points| == n
    ensures |line| == n
  {
    seq(n, j requires 0 <= j < n =>
      XY(median(seq(|acc|, k requires 0 <= k < |acc| => acc[k].points[j].x)),
         median(seq(|acc|, k requires 0 <= k < |acc| => acc[k].points[j].y))))
  }

  /** Too few segments is an error raised before any lap is resampled; too
      few clean laps is an error too, and so is stacking no lap at all
      (possible only when `minLaps` is 0 or less); otherwise the n-point
      median line and the median lap length. */
  method ComputePerCarRacingLine(traj: seq<Row>, n: nat, minLaps: int,
                                 interp: (real, seq<real>, seq<real>) -> real, median: seq<real> -> real)
    returns (r: Result<(seq<XY>, real)>)
    ensures var laps := LongSegments(Boundaries(Lapdists(traj)));
      (|laps| < minLaps ==> r.Err?)
      && (|laps| >= minLaps ==>
            LapsInside(traj, laps)
            && var acc := Accepted(traj, laps, n, interp);
               (r.Err? <==> |acc| < minLaps || |acc| == 0)
               && (r.Ok? ==> r.value.0 == MedianLine(acc, n, median) && r.value.1 == median(Lengths(acc))))
  {
    var ld := Lapdists(traj);
    var xy := Positions(traj);
    var laps := SegmentLaps(ld);
    if |laps| < minLaps {
      return Err("Insufficient laps");
    }
    SegmentsInside(traj);
    var acc: seq<Resampled> := [];
    var i := 0;
    while i < |laps|
      invariant 0 <= i <= |laps|
      invariant LapsInside(traj, laps[..i])
      invariant acc == Accepted(traj, laps[..i], n, interp)
    {
      AcceptedStep(traj, laps, i, n, interp);
      var step := AcceptOne(ld, xy, traj, laps[i], n, interp);
      acc := acc + step;
      i := i + 1;
    }
    assert laps[..i] == laps;
    if |acc| < minLaps {
      return Err("Insufficient valid laps");
    }
    if |acc| == 0 {
      return Err("need at least one array to stack");
    }
    return Ok((MedianLine(acc, n, median), median(Lengths(acc))));
  }

  predicate LapsInside(traj: seq<Row>, laps: seq<Lap>)
  {
    forall k :: 0 <= k < |laps| ==> LapInside(traj, laps[k])
  }

  lemma SegmentsInside(traj: seq<Row>)
    ensures LapsInside(traj, LongSegments(Boundaries(Lapdists(traj))))
  {
    LapsWithinTrajectory(Lapdists(traj));
  }

  /** Any median of the accepted lap lengths that lies between their minimum
      and maximum, as every median does, is at least 100 m. */
  lemma MedianLapLengthAtLeast(acc: seq<Resampled>, m: real)
    requires |acc| > 0 && forall k :: 0 <= k < |acc| ==> acc[k].length >= MinLapRange
    requires MinOf(Lengths(acc)) <= m
    ensures m >= MinLapRange
  {
    var ls := Lengths(acc);
    var q :| 0 <= q < |ls| && ls[q] == MinOf(ls);
  }
}
