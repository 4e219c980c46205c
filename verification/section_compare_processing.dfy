/** The section-compare pipeline: which laps and cars are clean, the cleaned
    per-lap tables, the ENU reference lap, distance along a lap, the speed
    estimate's time-step repair, the curvature-scaled ideal speed and ideal
    time, the equal-distance sector partition, the per-car median lines, the
    lap-time outlier filter and the fastest lap of each car. Geodesy, the
    Savitzky-Golay curvature, Gaussian smoothing, medians, standard deviation
    and `interp1d` are given functions. */
module SectionCompareProcessing {
  import opened Common

  // ---------------------------------------------------------------------
  // Valid laps and valid cars
  // ---------------------------------------------------------------------

  /** One row of the per-lap statistics table. */
  datatype LapStat = LapStat(vehicleId: string, lap: int, nGps: int, durationS: real)

  const MinGpsPoints: int := 50
  const MinLapDurationS: real := 40.0
  const MinValidLaps: int := 3

  /** Lap 1 is dropped; a lap needs 50 GPS fixes and more than 40 s. */
  predicate ValidLap(s: LapStat)
  {
    s.lap != 1 && s.nGps >= MinGpsPoints && s.durationS > MinLapDurationS
  }

  predicate ValidLapOf(stats: seq<LapStat>, vid: string, i: int)
  {
    0 <= i < |stats| && stats[i].vehicleId == vid && ValidLap(stats[i])
  }

  /** Positions of the valid laps of one car in the statistics table. */
  function ValidPositions(stats: seq<LapStat>, vid: string): (ps: seq<int>)
    ensures StrictlyIncreasing(ps)
    ensures forall i :: i in ps <==> ValidLapOf(stats, vid, i)
  {
    if stats == [] then []
    else
      var prev := ValidPositions(stats[..|stats| - 1], vid);
      assert forall i :: ValidLapOf(stats[..|stats| - 1], vid, i) <==> 0 <= i < |stats| - 1 && ValidLapOf(stats, vid, i);
      assert forall k :: 0 <= k < |prev| ==> prev[k] in prev;
      prev + (if ValidLapOf(stats, vid, |stats| - 1) then [|stats| - 1] else [])
  }

  /** `groupby('vehicle_id')['valid_lap'].sum()`. */
  function ValidLapCount(stats: seq<LapStat>, vid: string): nat
  {
    |ValidPositions(stats, vid)|
  }

  predicate ValidCar(stats: seq<LapStat>, vid: string)
  {
    ValidLapCount(stats, vid) >= MinValidLaps
  }

  /** A car is valid exactly when three different rows hold valid laps of it. */
  lemma ValidCarSpec(stats: seq<LapStat>, vid: string)
    ensures ValidCar(stats, vid) <==>
      exists i, j, k :: 0 <= i < j < k < |stats|
        && ValidLapOf(stats, vid, i) && ValidLapOf(stats, vid, j) && ValidLapOf(stats, vid, k)
  {
    var ps := ValidPositions(stats, vid);
    if ValidCar(stats, vid) {
      assert ps[0] in ps && ps[1] in ps && ps[2] in ps;
      assert ValidLapOf(stats, vid, ps[0]) && ValidLapOf(stats, vid, ps[1]) && ValidLapOf(stats, vid, ps[2]);
    }
    if exists i, j, k :: 0 <= i < j < k < |stats|
        && ValidLapOf(stats, vid, i) && ValidLapOf(stats, vid, j) && ValidLapOf(stats, vid, k) {
      var i, j, k :| 0 <= i < j < k < |stats|
        && ValidLapOf(stats, vid, i) && ValidLapOf(stats, vid, j) && ValidLapOf(stats, vid, k);
      ThreeMembers(ps, i, j, k);
    }
  }

  /** Three different values of a sequence take three of its places. */
  lemma ThreeMembers(ps: seq<int>, i: int, j: int, k: int)
    requires i < j < k && i in ps && j in ps && k in ps
    ensures |ps| >= 3
  {
    var a :| 0 <= a < |ps| && ps[a] == i;
    var b :| 0 <= b < |ps| && ps[b] == j;
    var c :| 0 <= c < |ps| && ps[c] == k;
    assert a != b && b != c && a != c;
  }

  /** A telemetry row of the wide table, with its GPS position. */
  datatype Row = Row(vehicleId: string, lap: int, t: int, lat: real, lon: real)

  /** The flags attached to a row through its (vehicle, lap) statistics. */
  predicate LapFlagged(stats: seq<LapStat>, vid: string, lap: int)
  {
    exists i :: 0 <= i < |stats| && stats[i].vehicleId == vid && stats[i].lap == lap && ValidLap(stats[i])
  }

  /** A row is clean when its lap is valid and its car is valid. */
  predicate CleanRow(stats: seq<LapStat>, r: Row)
  {
    ValidCar(stats, r.vehicleId) && LapFlagged(stats, r.vehicleId, r.lap)
  }

  function Times(rows: seq<Row>): seq<int>
  {
    seq(|rows|, i requires 0 <= i < |rows| => rows[i].t)
  }

  lemma TimesCons(r: Row, s: seq<Row>)
    ensures Times([r] + s) == [r.t] + Times(s)
  {
  }

  lemma TimesTail(s: seq<Row>)
    requires |s| > 0
    ensures Times(s) == [s[0].t] + Times(s[1..])
  {
  }

  /** Place r in time order, replacing a row with the same timestamp. */
  function InsertDedup(r: Row, s: seq<Row>): (q: seq<Row>)
    requires StrictlyIncreasing(Times(s))
    ensures StrictlyIncreasing(Times(q))
    ensures forall t :: t in Times(q) <==> t in Times(s) || t == r.t
    ensures forall x :: x in q ==> x in s || x == r
    ensures r in q
  {
    if s == [] then
      assert Times([r]) == [r.t];
      [r]
    else
      TimesTail(s);
      if r.t < s[0].t then
        TimesCons(r, s);
        ConsIncreasing(r.t, Times(s));
        [r] + s
      else if r.t == s[0].t then
        TimesCons(r, s[1..]);
        assert Times(s)[1..] == Times(s[1..]);
        [r] + s[1..]
      else
        assert Times(s)[1..] == Times(s[1..]);
        var rest := InsertDedup(r, s[1..]);
        TimesCons(s[0], rest);
        assert forall t :: t in Times(rest) ==> s[0].t < t by {
          forall t | t in Times(rest) ensures s[0].t < t {
            if t != r.t { HeadBelowTail(Times(s), t); }
          }
        }
        assert rest != [] ==> Times(rest)[0] in Times(rest);
        ConsIncreasing(s[0].t, Times(rest));
        [s[0]] + rest
  }

  /** `sort_values('timestamp_dt').drop_duplicates(subset='timestamp_dt')`:
      strictly increasing times, the same set of timestamps, only input rows.
      Among rows sharing a timestamp the model keeps the earliest in input
      order; pandas' default sort is not stable, so the source may keep any. */
  function SortDedup(s: seq<Row>): (q: seq<Row>)
    ensures StrictlyIncreasing(Times(q))
    ensures forall t :: t in Times(q) <==> t in Times(s)
    ensures forall x :: x in q ==> x in s
  {
    if s == [] then []
    else
      TimesTail(s);
      InsertDedup(s[0], SortDedup(s[1..]))
  }

  /** In the model, the first row of s with timestamp t survives the
      deduplication (the model's tie-break among equal timestamps). */
  lemma {:induction false} SortDedupKeepsFirst(s: seq<Row>, i: int)
    requires 0 <= i < |s| && forall j :: 0 <= j < i ==> s[j].t != s[i].t
    ensures s[i] in SortDedup(s)
  {
    if i > 0 {
      SortDedupKeepsFirst(s[1..], i - 1);
      var rest := SortDedup(s[1..]);
      InsertKeeps(s[0], rest, s[i]);
    }
  }

  lemma {:induction false} InsertKeeps(r: Row, s: seq<Row>, x: Row)
    requires StrictlyIncreasing(Times(s)) && x in s && x.t != r.t
    ensures x in InsertDedup(r, s)
  {
    if s != [] && r.t > s[0].t && x != s[0] {
      assert x in s[1..];
      assert Times(s[1..]) == Times(s)[1..];
      InsertKeeps(r, s[1..], x);
    }
  }

  /** The clean rows of one (vehicle, lap), sorted and deduplicated. */
  function CleanLap(rows: seq<Row>, stats: seq<LapStat>, vid: string, lap: int): (q: seq<Row>)
    ensures StrictlyIncreasing(Times(q))
    ensures forall x :: x in q ==> x in rows && x.vehicleId == vid && x.lap == lap && CleanRow(stats, x)
  {
    SortDedup(Filter(rows, (r: Row) => r.vehicleId == vid && r.lap == lap && CleanRow(stats, r)))
  }

  // ---------------------------------------------------------------------
  // ENU reference lap and distance along a lap
  // ---------------------------------------------------------------------

  datatype LapKey = LapKey(vehicleId: string, lap: int)



  function Sq(v: real): real { v * v }

  /** Step lengths `sqrt(diff(x, prepend=x[0])**2 + ...)`; `root` is sqrt. */
  function StepLengths(xs: seq<real>, ys: seq<real>, root: real -> real): (ds: seq<real>)
    requires |xs| == |ys|
    ensures |ds| == |xs|
  {
    seq(|xs|, k requires 0 <= k < |xs| => StepLength(xs, ys, root, k))
  }

  /** The distance from sample k - 1 to sample k (the first step is from
      sample 0 to itself). */
  function StepLength(xs: seq<real>, ys: seq<real>, root: real -> real, k: nat): real
    requires |xs| == |ys| && k < |xs|
  {
    if k == 0 then root(0.0) else root(SumOfSquares(xs[k] - xs[k - 1], ys[k] - ys[k - 1]))
  }

  /** `cumsum`. */
  function RunningSum(ds: seq<real>): (r: seq<real>)
    ensures |r| == |ds|
  {
    if ds == [] then []
    else
      var p := RunningSum(ds[..|ds| - 1]);
      p + [(if p == [] then 0.0 else p[|p| - 1]) + ds[|ds| - 1]]
  }

  /** Entry k of the running sum is the sum of the first k + 1 values. */
  lemma {:induction false} RunningSumSpec(ds: seq<real>)
    ensures forall k :: 0 <= k < |ds| ==> RunningSum(ds)[k] == SumReal(ds[..k + 1])
  {
    if ds != [] {
      var q := ds[..|ds| - 1];
      RunningSumSpec(q);
      forall k | 0 <= k < |ds| ensures RunningSum(ds)[k] == SumReal(ds[..k + 1]) {
        if k < |ds| - 1 {
          assert q[..k + 1] == ds[..k + 1];
        } else {
          assert ds[..k + 1] == ds;
          if k > 0 { assert q[..k] == q; }
        }
      }
    }
  }

  lemma RunningSumStep(ds: seq<real>, k: int)
    requires 1 <= k < |ds|
    ensures RunningSum(ds)[k] == RunningSum(ds)[k - 1] + ds[k]
  {
    RunningSumSpec(ds);
    var pre := ds[..k + 1];
    assert pre[..|pre| - 1] == ds[..k] && pre[|pre| - 1] == ds[k];
    assert SumReal(pre) == SumReal(ds[..k]) + ds[k];
  }

  /** Running sums of non-negative steps whose first step is 0 start at 0,
      never decrease and end at the total. */
  lemma {:induction false} RunningSumMonotone(ds: seq<real>)
    requires |ds| > 0 && ds[0] == 0.0 && forall k :: 0 <= k < |ds| ==> ds[k] >= 0.0
    ensures RunningSum(ds)[0] == 0.0
    ensures NonDecreasing(RunningSum(ds))
    ensures RunningSum(ds)[|ds| - 1] == SumReal(ds)
  {
    var r := RunningSum(ds);
    RunningSumSpec(ds);
    assert ds[..1] == [ds[0]];
    assert SumReal([ds[0]]) == SumReal([]) + ds[0];
    assert ds[..|ds|] == ds;
    forall i, j | 0 <= i < j < |ds| ensures r[i] <= r[j] {
      RunningSumUpTo(ds, i, j);
    }
  }

  lemma {:induction false} RunningSumUpTo(ds: seq<real>, i: int, j: int)
    requires 0 <= i <= j < |ds| && forall k :: 0 <= k < |ds| ==> ds[k] >= 0.0
    ensures RunningSum(ds)[i] <= RunningSum(ds)[j]
  {
    if i < j {
      RunningSumUpTo(ds, i, j - 1);
      RunningSumStep(ds, j);
    }
  }

  lemma SqNonNegative(v: real)
    ensures Sq(v) >= 0.0
  {
  }

  lemma StepLengthsNonNegative(xs: seq<real>, ys: seq<real>, root: real -> real)
    requires |xs| == |ys| && |xs| > 0
    requires root(0.0) == 0.0 && forall v :: v >= 0.0 ==> root(v) >= 0.0
    ensures StepLengths(xs, ys, root)[0] == 0.0
    ensures forall k :: 0 <= k < |xs| ==> StepLengths(xs, ys, root)[k] >= 0.0
  {
    forall k | 0 <= k < |xs| ensures StepLengths(xs, ys, root)[k] >= 0.0 {
      StepLengthAt(xs, ys, root, k);
    }
  }

  lemma StepLengthAt(xs: seq<real>, ys: seq<real>, root: real -> real, k: nat)
    requires |xs| == |ys| && k < |xs|
    requires root(0.0) == 0.0 && forall v :: v >= 0.0 ==> root(v) >= 0.0
    ensures StepLengths(xs, ys, root)[k] >= 0.0
  {
    assert StepLengths(xs, ys, root)[k] == StepLength(xs, ys, root, k);
    if k > 0 {
      var v := SumOfSquares(xs[k] - xs[k - 1], ys[k] - ys[k - 1]);
      assert root(v) >= 0.0;
    }
  }

  function SumOfSquares(a: real, b: real): (v: real)
    ensures v >= 0.0
  {
    SqNonNegative(a);
    SqNonNegative(b);
    Sq(a) + Sq(b)
  }

  /** `add_dist_along_lap`: the cumulative distance column. */
  function DistAlongLap(xs: seq<real>, ys: seq<real>, root: real -> real): (dist: seq<real>)
    requires |xs| == |ys|
    ensures |dist| == |xs|
  {
    RunningSum(StepLengths(xs, ys, root))
  }

  /** With a square root that is 0 at 0 and never negative, distance along
      the lap starts at 0 and never decreases; the last value is the length. */
  lemma DistAlongLapSpec(xs: seq<real>, ys: seq<real>, root: real -> real)
    requires |xs| == |ys| && |xs| > 0
    requires root(0.0) == 0.0 && forall v :: v >= 0.0 ==> root(v) >= 0.0
    ensures DistAlongLap(xs, ys, root)[0] == 0.0
    ensures NonDecreasing(DistAlongLap(xs, ys, root))
    ensures DistAlongLap(xs, ys, root)[|xs| - 1] == SumReal(StepLengths(xs, ys, root))
  {
    var ds := StepLengths(xs, ys, root);
    StepLengthsNonNegative(xs, ys, root);
    RunningSumMonotone(ds);
  }

  /** One lap after projection: its key and its x, y and distance columns. */
  datatype ProjectedLap = ProjectedLap(key: LapKey, xs: seq<real>, ys: seq<real>, dist: seq<real>)

  datatype CleanLapEntry = CleanLapEntry(key: LapKey, rows: seq<Row>)

  datatype XY = XY(x: real, y: real)

  function XsOf(ps: seq<XY>): seq<real> { seq(|ps|, i requires 0 <= i < |ps| => ps[i].x) }
  function YsOf(ps: seq<XY>): seq<real> { seq(|ps|, i requires 0 <= i < |ps| => ps[i].y) }

  /** One lap's contribution: nothing when the projection fails or leaves
      fewer than two rows, otherwise the projected lap with its distances. */
  function EnuStep(e: CleanLapEntry, project: seq<Row> -> Option<seq<XY>>, root: real -> real)
    : (out: seq<ProjectedLap>)
    ensures |out| <= 1
    ensures forall k :: 0 <= k < |out| ==> out[k].key == e.key && |out[k].xs| >= 2 && |out[k].dist| == |out[k].xs|
  {
    match project(e.rows)
    case None => []
    case Some(ps) =>
      if |ps| < 2 then []
      else [ProjectedLap(e.key, XsOf(ps), YsOf(ps), DistAlongLap(XsOf(ps), YsOf(ps), root))]
  }

  /** The laps that project and keep at least two rows, with their distance
      column, in input order. `project` is the ENU projection about the
      reference origin. */
  function EnuLaps(laps: seq<CleanLapEntry>, project: seq<Row> -> Option<seq<XY>>, root: real -> real)
    : (out: seq<ProjectedLap>)
    ensures |out| <= |laps|
    ensures forall k :: 0 <= k < |out| ==> |out[k].xs| >= 2 && |out[k].dist| == |out[k].xs|
  {
    if laps == [] then []
    else EnuLaps(laps[..|laps| - 1], project, root) + EnuStep(laps[|laps| - 1], project, root)
  }

  predicate IsRef(e: CleanLapEntry, refVid: string, refLap: int)
  {
    e.key.vehicleId == refVid && e.key.lap == refLap
  }

  /** The lap whose medians give the ENU origin: the configured reference
      lap when exactly one lap matches it, else the first lap; an empty
      table has no first lap (the source's IndexError). */
  function RefEntry(laps: seq<CleanLapEntry>, refVid: string, refLap: int): (e: Option<CleanLapEntry>)
    ensures e.None? <==> laps == []
    ensures e.Some? ==> e.value in laps
  {
    var matches := Filter(laps, (c: CleanLapEntry) => IsRef(c, refVid, refLap));
    if |matches| == 1 then Some(matches[0])
    else if laps == [] then None
    else Some(laps[0])
  }

  /** The reference is the configured lap when it is in the table, and
      the first lap otherwise. */
  lemma RefEntrySpec(laps: seq<CleanLapEntry>, refVid: string, refLap: int)
    ensures var e := RefEntry(laps, refVid, refLap);
      e.Some? ==> IsRef(e.value, refVid, refLap) || e.value == laps[0]
    ensures (forall k :: 0 <= k < |laps| ==> !IsRef(laps[k], refVid, refLap)) && laps != [] ==>
      RefEntry(laps, refVid, refLap) == Some(laps[0])
    ensures |laps| == 1 ==> RefEntry(laps, refVid, refLap) == Some(laps[0])
    ensures forall k :: (0 <= k < |laps| && IsRef(laps[k], refVid, refLap)
      && (forall j :: 0 <= j < |laps| && j != k ==> !IsRef(laps[j], refVid, refLap))) ==>
      RefEntry(laps, refVid, refLap) == Some(laps[k])
  {
    var keep := (c: CleanLapEntry) => IsRef(c, refVid, refLap);
    var matches := Filter(laps, keep);
    if |matches| == 1 {
      assert matches[0] in matches;
    }
    forall k | 0 <= k < |laps| && IsRef(laps[k], refVid, refLap)
      && (forall j :: 0 <= j < |laps| && j != k ==> !IsRef(laps[j], refVid, refLap))
      ensures RefEntry(laps, refVid, refLap) == Some(laps[k])
    {
      FilterOnly(laps, keep, k);
    }
  }

  /** `apply_enu_conversion`: the origin comes from the reference lap
      (`projectAbout(ref)` projects about its median latitude and
      longitude); every lap that projects and keeps two rows gets its
      distance column. An empty table is an error. */
  method ApplyEnuConversion(laps: seq<CleanLapEntry>, refVid: string, refLap: int,
                            projectAbout: seq<Row> -> seq<Row> -> Option<seq<XY>>, root: real -> real)
    returns (out: Result<seq<ProjectedLap>>)
    ensures out.Err? <==> laps == []
    ensures out.Ok? ==> out.value == EnuLaps(laps, projectAbout(RefEntry(laps, refVid, refLap).value.rows), root)
  {
    var ref := RefEntry(laps, refVid, refLap);
    if ref.None? {
      return Err("list index out of range");
    }
    var project := projectAbout(ref.value.rows);
    var projected := ProjectAll(laps, project, root);
    out := Ok(projected);
  }

  /** The projection loop of `apply_enu_conversion`. */
  method ProjectAll(laps: seq<CleanLapEntry>, project: seq<Row> -> Option<seq<XY>>, root: real -> real)
    returns (out: seq<ProjectedLap>)
    ensures out == EnuLaps(laps, project, root)
  {
    out := [];
    var i := 0;
    while i < |laps|
      invariant 0 <= i <= |laps|
      invariant out == EnuLaps(laps[..i], project, root)
    {
      assert laps[..i + 1][..i] == laps[..i];
      var step := ProjectOne(laps[i], project, root);
      out := out + step;
      i := i + 1;
    }
    assert laps[..i] == laps;
  }

  /** The loop body for one lap: its projected points and their distances,
      or nothing when the projection fails or keeps fewer than two rows. */
  method ProjectOne(e: CleanLapEntry, project: seq<Row> -> Option<seq<XY>>, root: real -> real)
    returns (step: seq<ProjectedLap>)
    ensures step == EnuStep(e, project, root)
  {
    step := [];
    var projected := project(e.rows);
    if projected.Some? && |projected.value| >= 2 {
      var ps := projected.value;
      step := [ProjectedLap(e.key, XsOf(ps), YsOf(ps), DistAlongLap(XsOf(ps), YsOf(ps), root))];
    }
  }

  predicate KeyFrom(laps: seq<CleanLapEntry>, key: LapKey)
  {
    exists j :: 0 <= j < |laps| && laps[j].key == key
  }

  /** Every kept lap comes from an input lap. */
  lemma {:induction false} EnuLapsKeys(laps: seq<CleanLapEntry>, project: seq<Row> -> Option<seq<XY>>, root: real -> real)
    ensures forall q :: q in EnuLaps(laps, project, root) ==> KeyFrom(laps, q.key)
  {
    if laps != [] {
      var p := laps[..|laps| - 1];
      EnuLapsKeys(p, project, root);
      var prev := EnuLaps(p, project, root);
      var step := EnuStep(laps[|laps| - 1], project, root);
      assert EnuLaps(laps, project, root) == prev + step;
      forall q: ProjectedLap | q in prev + step ensures KeyFrom(laps, q.key) {
        if q in prev {
          var j :| 0 <= j < |p| && p[j].key == q.key;
          assert laps[j].key == q.key;
        } else {
          var k :| 0 <= k < |step| && step[k] == q;
          assert laps[|laps| - 1].key == q.key;
        }
      }
    }
  }

  /** `interpolate_laps_to_grid` resamples a lap only when it has two rows,
      a positive length and two distinct distances. */
  predicate LapInterpolated(dist: seq<real>)
  {
    |dist| >= 2 && dist[|dist| - 1] > 0.0
    && exists i, j :: 0 <= i < j < |dist| && dist[i] != dist[j]
  }

  /** For a distance column that starts at 0 the distinct-values guard adds
      nothing to the length guard. */
  lemma DistinctGuardRedundant(dist: seq<real>)
    requires |dist| >= 2 && dist[0] == 0.0 && dist[|dist| - 1] > 0.0
    ensures LapInterpolated(dist)
  {
    assert dist[0] != dist[|dist| - 1];
  }

  // ---------------------------------------------------------------------
  // Speed from position and time
  // ---------------------------------------------------------------------

  const TinyDt: real := 0.005
  const SpeedClipMs: real := 90.0

  /** `dt_safe`: steps that are not positive or below 5 ms become the median. */
  function RepairedDt(dt: seq<real>, med: real): (r: seq<real>)
    ensures |r| == |dt|
  {
    seq(|dt|, k requires 0 <= k < |dt| => if dt[k] <= 0.0 || dt[k] < TinyDt then med else dt[k])
  }

  /** With a positive median every repaired step is positive; steps of 5 ms
      or more are kept and the others become the median. */
  lemma RepairedDtSpec(dt: seq<real>, med: real)
    requires med > 0.0
    ensures forall k :: 0 <= k < |dt| ==> RepairedDt(dt, med)[k] > 0.0
    ensures forall k :: 0 <= k < |dt| ==> (dt[k] >= TinyDt ==> RepairedDt(dt, med)[k] == dt[k])
    ensures forall k :: 0 <= k < |dt| ==> (dt[k] < TinyDt ==> RepairedDt(dt, med)[k] == med)
  {
  }

  /** The median of the positive steps, lying between their extremes, is positive. */
  lemma MedianOfPositiveSteps(dt: seq<real>, med: real)
    requires |Filter(dt, (v: real) => v > 0.0)| > 0
    requires MinOf(Filter(dt, (v: real) => v > 0.0)) <= med
    ensures med > 0.0
  {
    var ps := Filter(dt, (v: real) => v > 0.0);
    assert MinOf(ps) in ps;
  }

  /** The in-place patch `dt_safe[tiny_mask] = dt_median`. */
  method RepairDt(dt: array<real>, med: real)
    modifies dt
    ensures dt[..] == RepairedDt(old(dt[..]), med)
  {
    ghost var orig := dt[..];
    var k := 0;
    while k < dt.Length
      invariant 0 <= k <= dt.Length
      invariant forall j :: 0 <= j < k ==> dt[j] == RepairedDt(orig, med)[j]
      invariant forall j :: k <= j < dt.Length ==> dt[j] == orig[j]
    {
      if dt[k] <= 0.0 || dt[k] < TinyDt {
        dt[k] := med;
      }
      k := k + 1;
    }
  }

  /** numpy `allclose(t, t[0])` with its default tolerances. */
  predicate AllClose(t: seq<real>)
    requires |t| > 0
  {
    forall i :: 0 <= i < |t| ==> AbsReal(t[i] - t[0]) <= 1.0 / 100000000.0 + (1.0 / 100000.0) * AbsReal(t[0])
  }

  function Diff(s: seq<real>): (d: seq<real>)
    requires |s| > 0
    ensures |d| == |s| - 1
  {
    seq(|s| - 1, k requires 0 <= k < |s| - 1 => s[k + 1] - s[k])
  }

  function Zeros(n: nat): (z: seq<real>)
    ensures |z| == n && forall k :: 0 <= k < n ==> z[k] == 0.0
  {
    seq(n, k => 0.0)
  }

  /** Segment speeds; a zero step gives infinity or NaN, which
      `nan_to_num` turns into 0. */
  function SegmentSpeeds(dx: seq<real>, dy: seq<real>, dtSafe: seq<real>, root: real -> real): (v: seq<real>)
    requires |dx| == |dy| == |dtSafe|
    ensures |v| == |dx|
  {
    seq(|dx|, k requires 0 <= k < |dx| =>
      if dtSafe[k] == 0.0 then 0.0 else root(Sq(dx[k]) + Sq(dy[k])) / dtSafe[k])
  }

  function Clip(v: seq<real>, lo: real, hi: real): (c: seq<real>)
    requires lo <= hi
    ensures |c| == |v|
    ensures forall k :: 0 <= k < |v| ==> lo <= c[k] <= hi
    ensures forall k :: 0 <= k < |v| ==> (lo <= v[k] <= hi ==> c[k] == v[k])
  {
    seq(|v|, k requires 0 <= k < |v| => ClampReal(v[k], lo, hi))
  }

  /** `add_speed_from_xy_time` on relative times t (seconds). */
  function SpeedProfile(t: seq<real>, xs: seq<real>, ys: seq<real>,
                        median: seq<real> -> real, root: real -> real, smooth: seq<real> -> seq<real>)
    : (v: seq<real>)
    requires |t| == |xs| == |ys|
  {
    var n := |t|;
    if n < 3 || AllClose(t) then Zeros(n)
    else
      var dt := Diff(t);
      var positive := Filter(dt, (d: real) => d > 0.0);
      if |positive| == 0 then Zeros(n)
      else
        var vseg := SegmentSpeeds(Diff(xs), Diff(ys), RepairedDt(dt, median(positive)), root);
        Clip(smooth([vseg[0]] + vseg), 0.0, SpeedClipMs)
  }

  /** Too few samples, constant time or no forward step give all zeros;
      otherwise every speed lies in [0, 90] m/s. */
  lemma SpeedProfileSpec(t: seq<real>, xs: seq<real>, ys: seq<real>,
                         median: seq<real> -> real, root: real -> real, smooth: seq<real> -> seq<real>)
    requires |t| == |xs| == |ys|
    ensures var v := SpeedProfile(t, xs, ys, median, root, smooth);
      forall k :: 0 <= k < |v| ==> 0.0 <= v[k] <= SpeedClipMs
    ensures |t| < 3 ==> SpeedProfile(t, xs, ys, median, root, smooth) == Zeros(|t|)
    ensures |t| >= 3 && (AllClose(t) || forall k :: 0 <= k < |t| - 1 ==> t[k + 1] <= t[k]) ==>
      SpeedProfile(t, xs, ys, median, root, smooth) == Zeros(|t|)
  {
    if |t| >= 3 && !AllClose(t) && forall k :: 0 <= k < |t| - 1 ==> t[k + 1] <= t[k] {
      var dt := Diff(t);
      var positive := Filter(dt, (d: real) => d > 0.0);
      forall k | 0 <= k < |dt| ensures !(dt[k] > 0.0) {
        assert dt[k] == t[k + 1] - t[k];
      }
      FilterNone(dt, (d: real) => d > 0.0);
    }
  }

  // ---------------------------------------------------------------------
  // Ideal speed, ideal time and sectors
  // ---------------------------------------------------------------------

  const MinIdealSpeed: real := 15.0
  const CurvatureSlowdown: real := 0.55

  /** `curv.max()` when positive, else 1. */
  function MaxCurv(curv: seq<real>): (m: real)
    requires |curv| > 0
    ensures m > 0.0
    ensures forall k :: 0 <= k < |curv| ==> curv[k] <= m || MaxOf(curv) <= 0.0
  {
    assert forall k :: 0 <= k < |curv| ==> curv[k] in curv;
    if MaxOf(curv) > 0.0 then MaxOf(curv) else 1.0
  }

  function RawIdeal(c: real, refv: real, maxCurv: real): real
    requires maxCurv > 0.0
  {
    refv * (1.0 - CurvatureSlowdown * (c / maxCurv))
  }

  /** `clip(ref * (1 - 0.55 * curv / max_curv), 15, None)`. */
  function IdealSpeed(curv: seq<real>, refv: seq<real>): (ideal: seq<real>)
    requires |curv| > 0 && |refv| == |curv|
    ensures |ideal| == |curv|
    ensures forall k :: 0 <= k < |curv| ==> ideal[k] >= MinIdealSpeed
  {
    var mc := MaxCurv(curv);
    seq(|curv|, k requires 0 <= k < |curv| => MaxReal(MinIdealSpeed, RawIdeal(curv[k], refv[k], mc)))
  }

  /** For curvature in [0, max_curv] and a non-negative reference speed the
      scaled speed lies between 45 % and 100 % of the reference; it is the
      reference on a straight and 45 % of it at the tightest point. */
  lemma RawIdealRange(c: real, refv: real, mc: real)
    requires mc > 0.0 && 0.0 <= c <= mc && refv >= 0.0
    ensures refv * (45.0 / 100.0) <= RawIdeal(c, refv, mc) <= refv
    ensures c == 0.0 ==> RawIdeal(c, refv, mc) == refv
    ensures c == mc ==> RawIdeal(c, refv, mc) == refv * (45.0 / 100.0)
  {
    FractionInUnit(c, mc);
    var f := 1.0 - CurvatureSlowdown * (c / mc);
    assert 45.0 / 100.0 <= f <= 1.0;
    MulLeftMono(45.0 / 100.0, f, refv);
    MulLeftMono(f, 1.0, refv);
    if c == mc { DivCancel(1.0, mc); }
  }

  /** Every ideal speed is at least 15 m/s; with non-negative curvature and
      reference speed it lies between the floored 45 % and the floored full
      reference speed, equals the floored reference on a straight and the
      floored 45 % at the tightest point. */
  lemma IdealSpeedSpec(curv: seq<real>, refv: seq<real>, k: int)
    requires |curv| > 0 && |refv| == |curv| && 0 <= k < |curv|
    requires curv[k] >= 0.0 && refv[k] >= 0.0
    ensures MaxReal(MinIdealSpeed, refv[k] * (45.0 / 100.0)) <= IdealSpeed(curv, refv)[k] <= MaxReal(MinIdealSpeed, refv[k])
    ensures curv[k] == 0.0 ==> IdealSpeed(curv, refv)[k] == MaxReal(MinIdealSpeed, refv[k])
    ensures curv[k] == MaxOf(curv) && MaxOf(curv) > 0.0 ==>
      IdealSpeed(curv, refv)[k] == MaxReal(MinIdealSpeed, refv[k] * (45.0 / 100.0))
  {
    var mc := MaxCurv(curv);
    assert curv[k] in curv;
    assert curv[k] <= mc;
    RawIdealRange(curv[k], refv[k], mc);
    assert IdealSpeed(curv, refv)[k] == MaxReal(MinIdealSpeed, RawIdeal(curv[k], refv[k], mc));
  }

  /** `np.diff(s, prepend=s[0])`. */
  function StepsFrom(s: seq<real>): (ds: seq<real>)
    ensures |ds| == |s|
  {
    seq(|s|, k requires 0 <= k < |s| => if k == 0 then 0.0 else s[k] - s[k - 1])
  }

  /** Ideal time: running sum of distance step over ideal speed. */
  function IdealTime(s: seq<real>, ideal: seq<real>): (it: seq<real>)
    requires |ideal| == |s| && forall k :: 0 <= k < |s| ==> ideal[k] >= MinIdealSpeed
    ensures |it| == |s|
  {
    var ds := StepsFrom(s);
    RunningSum(seq(|s|, k requires 0 <= k < |s| => ds[k] / ideal[k]))
  }

  /** On a non-decreasing distance column the ideal time starts at 0, never
      decreases, and its last value (the ideal lap time) is the sum of the
      segment times. */
  lemma IdealTimeSpec(s: seq<real>, ideal: seq<real>)
    requires |s| > 0 && |ideal| == |s| && forall k :: 0 <= k < |s| ==> ideal[k] >= MinIdealSpeed
    requires NonDecreasing(s)
    ensures IdealTime(s, ideal)[0] == 0.0
    ensures NonDecreasing(IdealTime(s, ideal))
    ensures IdealTime(s, ideal)[|s| - 1]
      == SumReal(seq(|s|, k requires 0 <= k < |s| => StepsFrom(s)[k] / ideal[k]))
  {
    var ds := StepsFrom(s);
    var seg := seq(|s|, k requires 0 <= k < |s| => ds[k] / ideal[k]);
    forall k | 0 <= k < |s| ensures seg[k] >= 0.0 {
      if k > 0 { assert s[k - 1] <= s[k]; }
      NonNegDiv(ds[k], ideal[k]);
    }
    RunningSumMonotone(seg);
  }

  lemma NonNegDiv(a: real, b: real)
    requires a >= 0.0 && b > 0.0
    ensures a / b >= 0.0
  {
  }

  /** A sample at distance v falls in [lo, hi), or [lo, hi] for the last sector. */
  predicate InSector(v: real, lo: real, hi: real, closed: bool)
  {
    lo <= v && (if closed then v <= hi else v < hi)
  }

  /** The indices selected by a sector's mask, in order. */
  function SectorIndices(s: seq<real>, lo: real, hi: real, closed: bool): (idx: seq<int>)
    ensures StrictlyIncreasing(idx)
    ensures forall k :: k in idx <==> 0 <= k < |s| && InSector(s[k], lo, hi, closed)
  {
    if s == [] then []
    else
      var p := SectorIndices(s[..|s| - 1], lo, hi, closed);
      assert forall k :: 0 <= k < |s| - 1 ==> s[..|s| - 1][k] == s[k];
      assert forall k :: 0 <= k < |p| ==> p[k] in p;
      p + (if InSector(s[|s| - 1], lo, hi, closed) then [|s| - 1] else [])
  }

  /** A sector's time: 0 without samples, else the last minus the first ideal
      time in its range. */
  function SectorTime(s: seq<real>, it: seq<real>, lo: real, hi: real, closed: bool): real
    requires |it| == |s|
  {
    var idx := SectorIndices(s, lo, hi, closed);
    if idx == [] then 0.0
    else
      assert idx[0] in idx && idx[|idx| - 1] in idx;
      it[idx[|idx| - 1]] - it[idx[0]]
  }

  /** With non-decreasing ideal times no sector time is negative. */
  lemma SectorTimeNonNegative(s: seq<real>, it: seq<real>, lo: real, hi: real, closed: bool)
    requires |it| == |s| && NonDecreasing(it)
    ensures SectorTime(s, it, lo, hi, closed) >= 0.0
  {
    var idx := SectorIndices(s, lo, hi, closed);
    if idx != [] {
      assert idx[0] in idx && idx[|idx| - 1] in idx;
      assert idx[0] <= idx[|idx| - 1];
    }
  }

  datatype Sector = Sector(number: int, startDist: real, endDist: real, idealTime: real)

  /** Sector i of n on a line whose distance column is s. */
  function SectorOf(s: seq<real>, it: seq<real>, n: nat, i: int): Sector
    requires |s| > 0 && |it| == |s| && 0 <= i < n
  {
    var edges := Linspace(0.0, s[|s| - 1], n + 1);
    Sector(i + 1, edges[i], edges[i + 1], SectorTime(s, it, edges[i], edges[i + 1], i == n - 1))
  }

  /** The sector loop of `compute_ideal_speed_and_sectors`. */
  method ComputeSectors(s: seq<real>, it: seq<real>, n: nat) returns (sectors: seq<Sector>)
    requires |s| > 0 && |it| == |s|
    ensures |sectors| == n
    ensures forall i :: 0 <= i < n ==> sectors[i] == SectorOf(s, it, n, i)
  {
    var edges := Linspace(0.0, s[|s| - 1], n + 1);
    sectors := [];
    var i := 0;
    while i < n
      invariant 0 <= i <= n && |sectors| == i
      invariant forall j :: 0 <= j < i ==> sectors[j] == SectorOf(s, it, n, j)
    {
      var sector := OneSector(s, it, edges, n, i);
      sectors := sectors + [sector];
      i := i + 1;
    }
  }

  /** One iteration of the sector loop: the mask of sector i and its time. */
  method OneSector(s: seq<real>, it: seq<real>, edges: seq<real>, n: nat, i: nat) returns (sector: Sector)
    requires |s| > 0 && |it| == |s| && i < n && edges == Linspace(0.0, s[|s| - 1], n + 1)
    ensures sector == SectorOf(s, it, n, i)
  {
    var isLast := i == n - 1;
    var time := SectorTime(s, it, edges[i], edges[i + 1], isLast);
    sector := Sector(i + 1, edges[i], edges[i + 1], time);
  }

  /** Sectors are numbered 1..n, consecutive sectors share an edge, the first
      starts at 0 and the last ends at the track length, and no sector time
      is negative when the ideal times never decrease. */
  lemma SectorsPartition(s: seq<real>, it: seq<real>, n: nat)
    requires |s| > 0 && |it| == |s| && NonDecreasing(it)
    ensures forall i :: 0 <= i < n ==> SectorOf(s, it, n, i).number == i + 1
    ensures forall i :: 0 <= i < n - 1 ==> SectorOf(s, it, n, i).endDist == SectorOf(s, it, n, i + 1).startDist
    ensures n >= 1 ==> SectorOf(s, it, n, 0).startDist == 0.0
    ensures n >= 1 ==> SectorOf(s, it, n, n - 1).endDist == s[|s| - 1]
    ensures forall i :: 0 <= i < n ==> SectorOf(s, it, n, i).idealTime >= 0.0
  {
    LinspaceEnds(0.0, s[|s| - 1], n + 1);
    forall i | 0 <= i < n ensures SectorOf(s, it, n, i).idealTime >= 0.0 {
      var edges := Linspace(0.0, s[|s| - 1], n + 1);
      SectorTimeNonNegative(s, it, edges[i], edges[i + 1], i == n - 1);
    }
  }

  // ---------------------------------------------------------------------
  // Per-car median lines, outlier filter, fastest lap
  // ---------------------------------------------------------------------

  /** A lap resampled onto the canonical grid. */
  datatype LapLine = LapLine(key: LapKey, line: seq<XY>)

  datatype CarLine = CarLine(vehicleId: string, line: seq<XY>)

  /** The resampled laps of one car, in entry order. */
  function LinesOf(entries: seq<LapLine>, vid: string): seq<seq<XY>>
  {
    if entries == [] then []
    else
      var last := entries[|entries| - 1];
      LinesOf(entries[..|entries| - 1], vid) + (if last.key.vehicleId == vid then [last.line] else [])
  }

  function CarIdsOf(entries: seq<LapLine>): seq<string>
  {
    seq(|entries|, i requires 0 <= i < |entries| => entries[i].key.vehicleId)
  }

  function MedianLinesFor(ids: seq<string>, entries: seq<LapLine>, median: seq<seq<XY>> -> seq<XY>)
    : (out: seq<CarLine>)
    ensures forall k :: 0 <= k < |out| ==> out[k].vehicleId in ids
  {
    if ids == [] then []
    else
      var rest := MedianLinesFor(ids[1..], entries, median);
      var laps := LinesOf(entries, ids[0]);
      if |laps| < 3 then rest else [CarLine(ids[0], median(laps))] + rest
  }

  /** `compute_car_median_lines`: one median line per car, in ascending id
      order, for every car with at least three resampled laps. */
  function CarMedianLines(entries: seq<LapLine>, median: seq<seq<XY>> -> seq<XY>): seq<CarLine>
  {
    MedianLinesFor(SortedDistinctStr(CarIdsOf(entries)), entries, median)
  }

  function IdsOf(out: seq<CarLine>): seq<string>
  {
    seq(|out|, k requires 0 <= k < |out| => out[k].vehicleId)
  }

  /** The head of strictly increasing ids precedes every later id. */
  lemma HeadBeforeLater(ids: seq<string>, v: string)
    requires StrictlyIncreasingStr(ids) && ids != [] && v in ids[1..]
    ensures StrLt(ids[0], v)
  {
    var j :| 0 <= j < |ids[1..]| && ids[1..][j] == v;
    assert ids[j + 1] == v;
  }

  /** A line whose id precedes every id of sorted lines can go in front. */
  lemma ConsIdsSorted(c: CarLine, rest: seq<CarLine>)
    requires StrictlyIncreasingStr(IdsOf(rest))
    requires forall k :: 0 <= k < |rest| ==> StrLt(c.vehicleId, rest[k].vehicleId)
    ensures StrictlyIncreasingStr(IdsOf([c] + rest))
  {
    var out := [c] + rest;
    forall i, j | 0 <= i < j < |out| ensures StrLt(IdsOf(out)[i], IdsOf(out)[j]) {
      assert IdsOf(out)[j] == IdsOf(rest)[j - 1] == rest[j - 1].vehicleId;
      if i > 0 {
        assert IdsOf(out)[i] == IdsOf(rest)[i - 1];
      }
    }
  }

  lemma {:induction false} MedianLinesForSorted(ids: seq<string>, entries: seq<LapLine>, median: seq<seq<XY>> -> seq<XY>)
    requires StrictlyIncreasingStr(ids)
    ensures StrictlyIncreasingStr(IdsOf(MedianLinesFor(ids, entries, median)))
  {
    if ids != [] {
      assert StrictlyIncreasingStr(ids[1..]);
      MedianLinesForSorted(ids[1..], entries, median);
      var rest := MedianLinesFor(ids[1..], entries, median);
      if |LinesOf(entries, ids[0])| >= 3 {
        forall k | 0 <= k < |rest| ensures StrLt(ids[0], rest[k].vehicleId) {
          HeadBeforeLater(ids, rest[k].vehicleId);
        }
        ConsIdsSorted(CarLine(ids[0], median(LinesOf(entries, ids[0]))), rest);
      }
    }
  }

  /** c is the median of its car's resampled laps, of which there are three or more. */
  predicate MedianOfOwnLaps(entries: seq<LapLine>, median: seq<seq<XY>> -> seq<XY>, c: CarLine)
  {
    |LinesOf(entries, c.vehicleId)| >= 3 && c.line == median(LinesOf(entries, c.vehicleId))
  }

  lemma {:induction false} MedianLinesForSound(ids: seq<string>, entries: seq<LapLine>, median: seq<seq<XY>> -> seq<XY>)
    ensures forall c :: c in MedianLinesFor(ids, entries, median) ==> MedianOfOwnLaps(entries, median, c)
  {
    if ids != [] {
      MedianLinesForSound(ids[1..], entries, median);
    }
  }

  lemma {:induction false} MedianLinesForComplete(ids: seq<string>, entries: seq<LapLine>, median: seq<seq<XY>> -> seq<XY>, v: string)
    requires v in ids && |LinesOf(entries, v)| >= 3
    ensures v in IdsOf(MedianLinesFor(ids, entries, median))
  {
    var out := MedianLinesFor(ids, entries, median);
    var rest := MedianLinesFor(ids[1..], entries, median);
    if v != ids[0] {
      assert v in ids[1..];
      MedianLinesForComplete(ids[1..], entries, median, v);
    }
    if |LinesOf(entries, ids[0])| >= 3 {
      var c := CarLine(ids[0], median(LinesOf(entries, ids[0])));
      assert out == [c] + rest;
      IdsCons(c, rest);
    } else {
      assert out == rest;
    }
  }

  lemma IdsCons(c: CarLine, rest: seq<CarLine>)
    ensures IdsOf([c] + rest) == [c.vehicleId] + IdsOf(rest)
  {
    var l := [c] + rest;
    var a, b := IdsOf(l), [c.vehicleId] + IdsOf(rest);
    forall k | 0 <= k < |a| ensures a[k] == b[k] {
      if k > 0 { assert l[k] == rest[k - 1]; }
    }
  }

  /** A car gets a median line exactly when it has three resampled laps; the
      lines are the median of that car's laps, in ascending id order. */
  lemma CarMedianLinesSpec(entries: seq<LapLine>, median: seq<seq<XY>> -> seq<XY>, v: string)
    ensures StrictlyIncreasingStr(IdsOf(CarMedianLines(entries, median)))
    ensures forall c :: c in CarMedianLines(entries, median) ==> MedianOfOwnLaps(entries, median, c)
    ensures v in IdsOf(CarMedianLines(entries, median)) <==> |LinesOf(entries, v)| >= 3
  {
    var ids := SortedDistinctStr(CarIdsOf(entries));
    MedianLinesForSorted(ids, entries, median);
    MedianLinesForSound(ids, entries, median);
    var out := CarMedianLines(entries, median);
    if v in IdsOf(out) {
      var k :| 0 <= k < |out| && IdsOf(out)[k] == v;
      assert out[k] in out;
    }
    if |LinesOf(entries, v)| >= 3 {
      LinesOfOwner(entries, v);
      var i :| 0 <= i < |entries| && entries[i].key.vehicleId == v;
      assert CarIdsOf(entries)[i] == v;
      MedianLinesForComplete(ids, entries, median, v);
    }
  }

  lemma {:induction false} LinesOfOwner(entries: seq<LapLine>, vid: string)
    requires |LinesOf(entries, vid)| > 0
    ensures exists i :: 0 <= i < |entries| && entries[i].key.vehicleId == vid
  {
    var p := entries[..|entries| - 1];
    if entries[|entries| - 1].key.vehicleId != vid {
      LinesOfOwner(p, vid);
      var i :| 0 <= i < |p| && p[i].key.vehicleId == vid;
      assert entries[i].key.vehicleId == vid;
    }
  }

  /** A car's median valid-lap time. */
  datatype CarTime = CarTime(vehicleId: string, medianLapTimeS: real)

  const ZThreshold: real := 2.5

  /** |z| <= 2.5; a missing (NaN) or zero deviation keeps nobody. */
  predicate Inlier(m: real, mu: real, sigma: Option<real>)
  {
    sigma.Some? && sigma.value != 0.0 && AbsReal((m - mu) / sigma.value) <= ZThreshold
  }

  predicate GoodCar(times: seq<CarTime>, mu: real, sigma: Option<real>, vid: string)
  {
    exists k :: 0 <= k < |times| && times[k].vehicleId == vid && Inlier(times[k].medianLapTimeS, mu, sigma)
  }

  /** `filter_outlier_cars` with the mean `mu` and the sample deviation
      `sigma` of the per-car median lap times. */
  function FilterOutlierCars(lines: seq<CarLine>, times: seq<CarTime>, mu: real, sigma: Option<real>)
    : (kept: seq<CarLine>)
    ensures forall c :: c in kept <==> c in lines && GoodCar(times, mu, sigma, c.vehicleId)
  {
    Filter(lines, (c: CarLine) => GoodCar(times, mu, sigma, c.vehicleId))
  }

  /** The filter keeps an ordered subset, and without a usable deviation it
      keeps nothing. */
  lemma FilterOutlierCarsSpec(lines: seq<CarLine>, times: seq<CarTime>, mu: real, sigma: Option<real>)
    ensures IsSubsequence(FilterOutlierCars(lines, times, mu, sigma), lines)
    ensures (sigma.None? || sigma == Some(0.0)) ==> FilterOutlierCars(lines, times, mu, sigma) == []
  {
    FilterIsSubsequence(lines, (c: CarLine) => GoodCar(times, mu, sigma, c.vehicleId));
    if sigma.None? || sigma == Some(0.0) {
      FilterNone(lines, (c: CarLine) => GoodCar(times, mu, sigma, c.vehicleId));
    }
  }

  /** `groupby('vehicle_id')['duration_s'].idxmin()` over the valid laps: the
      first valid lap of the car with the smallest duration. */
  function FastestLap(stats: seq<LapStat>, vid: string): (f: Option<int>)
    ensures f.Some? ==> ValidLapOf(stats, vid, f.value)
  {
    if stats == [] then None
    else
      var n := |stats| - 1;
      var prev := FastestLap(stats[..n], vid);
      if ValidLapOf(stats, vid, n) && (prev.None? || stats[n].durationS < stats[prev.value].durationS)
      then Some(n)
      else
        assert prev.Some? ==> ValidLapOf(stats[..n], vid, prev.value);
        prev
  }

  /** The fastest lap is a valid lap of the car no slower than any other,
      strictly faster than every earlier one; a car without valid laps has
      none. */
  lemma {:induction false} FastestLapSpec(stats: seq<LapStat>, vid: string)
    ensures FastestLap(stats, vid).None? <==> forall i :: !ValidLapOf(stats, vid, i)
    ensures FastestLap(stats, vid).Some? ==>
      var f := FastestLap(stats, vid).value;
      (forall i :: ValidLapOf(stats, vid, i) ==> stats[f].durationS <= stats[i].durationS)
      && (forall i :: ValidLapOf(stats, vid, i) && i < f ==> stats[f].durationS < stats[i].durationS)
  {
    if stats != [] {
      var n := |stats| - 1;
      var p := stats[..n];
      FastestLapSpec(p, vid);
      assert forall i :: ValidLapOf(p, vid, i) <==> 0 <= i < n && ValidLapOf(stats, vid, i);
    }
  }
}
