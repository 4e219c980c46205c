/** Delta-speed trails: a car's fastest lap is checked, cleaned of rows
    without a timestamp, sorted, projected onto the canonical line, cut to
    its last `trail_seconds` and coloured by the speed difference to the
    reference or ideal profile. File lookup and CSV output are left out;
    only the file names they build and parse are modelled. */
module TrailGeneration {
  import opened Common

  // ---------------------------------------------------------------------
  // Column check and projection (`project_lap_to_canonical`)
  // ---------------------------------------------------------------------

  const RequiredColumns: seq<string> := ["timestamp_dt", "dist_m", "x_m", "y_m", "speed_ms"]

  /** The required columns absent from `present`, in the required order. */
  function MissingColumns(present: seq<string>): (missing: seq<string>)
    ensures forall c :: c in missing <==> c in RequiredColumns && c !in present
  {
    Filter(RequiredColumns, (c: string) => c !in present)
  }

  /** A fastest-lap row; `t` is None for an unparsable timestamp (NaT). */
  datatype LapRow = LapRow(t: Option<int>, x: real, y: real, speed: real)

  /** A canonical-line point with its distance and speed profiles. */
  datatype CanonPoint = CanonPoint(x: real, y: real, dist: real, refSpeed: real, idealSpeed: real)

  /** A lap row after projection: timestamp in ms, nearest canonical index,
      the profile values there and the two speed deltas. */
  datatype Projected = Projected(t: int, x: real, y: real, speed: real, canonIdx: int,
                                 canonDist: real, refAt: real, idealAt: real,
                                 deltaVsRef: real, deltaVsIdeal: real)

  function CanonXs(canon: seq<CanonPoint>): seq<real> { seq(|canon|, i requires 0 <= i < |canon| => canon[i].x) }
  function CanonYs(canon: seq<CanonPoint>): seq<real> { seq(|canon|, i requires 0 <= i < |canon| => canon[i].y) }

  function TimeOf(r: LapRow): int
    requires r.t.Some?
  {
    r.t.value
  }

  predicate Timed(r: LapRow) { r.t.Some? }

  predicate SortedByTime(rows: seq<LapRow>)
  {
    (forall k :: 0 <= k < |rows| ==> rows[k].t.Some?)
    && forall i, j :: 0 <= i < j < |rows| ==> rows[i].t.value <= rows[j].t.value
  }

  /** Insert a timed row before the first row that is not earlier, so
      that a row inserted into the sorted rest of its input goes ahead of
      later rows with the same timestamp. */
  function InsertByTime(r: LapRow, s: seq<LapRow>): (q: seq<LapRow>)
    requires r.t.Some? && SortedByTime(s)
    ensures |q| == |s| + 1 && (q[0] == r || (|s| > 0 && q[0] == s[0]))
    ensures SortedByTime(q)
    ensures multiset(q) == multiset(s) + multiset{r}
  {
    if s == [] then [r]
    else if r.t.value <= s[0].t.value then ConsSorted(r, s); [r] + s
    else
      assert s == [s[0]] + s[1..];
      SortedTail(s);
      var rest := InsertByTime(r, s[1..]);
      ConsSorted(s[0], rest);
      [s[0]] + rest
  }

  /** A row no later than the head of sorted rows can go in front. */
  lemma ConsSorted(x: LapRow, rest: seq<LapRow>)
    requires x.t.Some? && SortedByTime(rest)
    requires rest != [] ==> x.t.value <= rest[0].t.value
    ensures SortedByTime([x] + rest)
  {
    var q := [x] + rest;
    forall i, j | 0 <= i < j < |q| ensures q[i].t.value <= q[j].t.value {
      if i == 0 {
        assert q[j] == rest[j - 1];
        assert rest[0].t.value <= rest[j - 1].t.value || j == 1;
      } else {
        assert q[i] == rest[i - 1] && q[j] == rest[j - 1];
      }
    }
  }

  /** `sort_values("timestamp_dt")` on rows that all have a timestamp. */
  function SortByTime(s: seq<LapRow>): (q: seq<LapRow>)
    requires forall k :: 0 <= k < |s| ==> s[k].t.Some?
    ensures SortedByTime(q)
    ensures multiset(q) == multiset(s)
  {
    if s == [] then []
    else
      assert s == [s[0]] + s[1..];
      InsertByTime(s[0], SortByTime(s[1..]))
  }

  /** `i` indexes a canonical point nearest to (x, y). */
  predicate NearestPoint(canon: seq<CanonPoint>, i: int, x: real, y: real)
  {
    0 <= i < |canon|
    && forall j :: 0 <= j < |canon| ==> SqDist(canon[i].x, canon[i].y, x, y) <= SqDist(canon[j].x, canon[j].y, x, y)
  }

  /** One row's projection onto its nearest canonical point. */
  function ProjectRow(r: LapRow, canon: seq<CanonPoint>): (p: Projected)
    requires r.t.Some? && |canon| > 0
    ensures NearestPoint(canon, p.canonIdx, r.x, r.y)
  {
    var xs, ys := CanonXs(canon), CanonYs(canon);
    var i := Nearest(xs, ys, r.x, r.y);
    assert forall j :: 0 <= j < |canon| ==> xs[j] == canon[j].x && ys[j] == canon[j].y;
    var c := canon[i];
    Projected(r.t.value, r.x, r.y, r.speed, i, c.dist, c.refSpeed, c.idealSpeed,
              r.speed - c.refSpeed, r.speed - c.idealSpeed)
  }

  /** Each projected row carries the profile values at its canonical index
      and the deltas of its own speed against them. */
  lemma ProjectRowSpec(r: LapRow, canon: seq<CanonPoint>)
    requires r.t.Some? && |canon| > 0
    ensures var p := ProjectRow(r, canon);
      p.t == r.t.value && p.speed == r.speed
      && p.canonDist == canon[p.canonIdx].dist
      && p.refAt == canon[p.canonIdx].refSpeed && p.idealAt == canon[p.canonIdx].idealSpeed
      && p.deltaVsRef == p.speed - p.refAt && p.deltaVsIdeal == p.speed - p.idealAt
  {
  }

  /** `project_lap_to_canonical`: missing columns and an all-NaT lap are
      errors; otherwise the timed rows sorted by time and projected. */
  function ProjectLap(present: seq<string>, rows: seq<LapRow>, canon: seq<CanonPoint>): (r: Result<seq<Projected>>)
    requires |canon| > 0
    ensures r.Err? <==> |MissingColumns(present)| > 0 || forall k :: 0 <= k < |rows| ==> rows[k].t.None?
    ensures r.Ok? ==> |r.value| > 0 && |r.value| == |Filter(rows, Timed)|
    ensures r.Ok? ==> forall i, j :: 0 <= i < j < |r.value| ==> r.value[i].t <= r.value[j].t
    ensures r.Ok? ==>
      (TimedRows(rows); multiset(r.value) == multiset(Projections(Filter(rows, Timed), canon)))
  {
    if |MissingColumns(present)| > 0 then Err("missing required columns")
    else
      var timed := Filter(rows, Timed);
      TimedRows(rows);
      if |timed| == 0 then Err("all rows dropped for NaT timestamps")
      else Ok(ProjectTimed(timed, canon))
  }

  /** The timed rows all have a timestamp, and there are none exactly when
      every row is NaT. */
  lemma TimedRows(rows: seq<LapRow>)
    ensures var timed := Filter(rows, Timed);
      (forall k :: 0 <= k < |timed| ==> timed[k].t.Some?)
      && (|timed| == 0 <==> forall k :: 0 <= k < |rows| ==> rows[k].t.None?)
  {
    var timed := Filter(rows, Timed);
    forall k | 0 <= k < |timed| ensures timed[k].t.Some? {
      assert timed[k] in timed;
    }
    if |timed| == 0 {
      forall k | 0 <= k < |rows| ensures rows[k].t.None? {
        assert rows[k] in rows;
      }
    } else {
      assert timed[0] in timed;
    }
  }

  /** Each row projected, in the rows' order. */
  function Projections(rows: seq<LapRow>, canon: seq<CanonPoint>): (ps: seq<Projected>)
    requires |canon| > 0 && forall k :: 0 <= k < |rows| ==> rows[k].t.Some?
  {
    seq(|rows|, k requires 0 <= k < |rows| => ProjectRow(rows[k], canon))
  }

  /** The timed rows sorted by time and projected: the projections of the
      timed rows, rearranged into time order. */
  function ProjectTimed(timed: seq<LapRow>, canon: seq<CanonPoint>): (ps: seq<Projected>)
    requires |canon| > 0 && forall k :: 0 <= k < |timed| ==> timed[k].t.Some?
    ensures |ps| == |timed|
    ensures forall i, j :: 0 <= i < j < |ps| ==> ps[i].t <= ps[j].t
    ensures multiset(ps) == multiset(Projections(timed, canon))
  {
    var sorted := SortByTime(timed);
    assert |sorted| == |multiset(sorted)| == |multiset(timed)| == |timed|;
    SortedProjections(timed, canon);
    Projections(sorted, canon)
  }

  /** Sorting before projecting only rearranges the projections. */
  lemma {:induction false} SortedProjections(rows: seq<LapRow>, canon: seq<CanonPoint>)
    requires |canon| > 0 && forall k :: 0 <= k < |rows| ==> rows[k].t.Some?
    ensures multiset(Projections(SortByTime(rows), canon)) == multiset(Projections(rows, canon))
  {
    if rows != [] {
      var rest := rows[1..];
      var sorted := SortByTime(rest);
      var p0 := ProjectRow(rows[0], canon);
      calc {
        multiset(Projections(SortByTime(rows), canon));
        { assert SortByTime(rows) == InsertByTime(rows[0], sorted); }
        multiset(Projections(InsertByTime(rows[0], sorted), canon));
        { InsertedProjections(rows[0], sorted, canon); }
        multiset(Projections(sorted, canon)) + multiset{p0};
        { SortedProjections(rest, canon); }
        multiset(Projections(rest, canon)) + multiset{p0};
        multiset([p0] + Projections(rest, canon));
        { ProjectionsCons(rows[0], rest, canon); assert [rows[0]] + rest == rows; }
        multiset(Projections(rows, canon));
      }
    }
  }

  lemma ProjectionsCons(r: LapRow, s: seq<LapRow>, canon: seq<CanonPoint>)
    requires |canon| > 0 && r.t.Some? && forall k :: 0 <= k < |s| ==> s[k].t.Some?
    ensures forall k :: 0 <= k < |[r] + s| ==> ([r] + s)[k].t.Some?
    ensures Projections([r] + s, canon) == [ProjectRow(r, canon)] + Projections(s, canon)
  {
    var q := [r] + s;
    assert forall k :: 1 <= k < |q| ==> q[k] == s[k - 1];
    assert Projections(q, canon) == [ProjectRow(r, canon)] + Projections(s, canon);
  }

  /** Inserting a row adds its projection to the projections. */
  lemma {:induction false} InsertedProjections(r: LapRow, s: seq<LapRow>, canon: seq<CanonPoint>)
    requires |canon| > 0 && r.t.Some? && SortedByTime(s)
    ensures multiset(Projections(InsertByTime(r, s), canon))
      == multiset(Projections(s, canon)) + multiset{ProjectRow(r, canon)}
    decreases |s|, 1
  {
    if s == [] {
      assert Projections([r], canon) == [ProjectRow(r, canon)];
    } else if r.t.value <= s[0].t.value {
      assert InsertByTime(r, s) == [r] + s;
      ProjectionsCons(r, s, canon);
    } else {
      InsertedLater(r, s, canon);
    }
  }

  lemma {:induction false} InsertedLater(r: LapRow, s: seq<LapRow>, canon: seq<CanonPoint>)
    requires |canon| > 0 && r.t.Some? && SortedByTime(s) && s != [] && r.t.value > s[0].t.value
    ensures multiset(Projections(InsertByTime(r, s), canon))
      == multiset(Projections(s, canon)) + multiset{ProjectRow(r, canon)}
    decreases |s|, 0
  {
    var rest := s[1..];
    SortedTail(s);
    var ins := InsertByTime(r, rest);
    var p0 := ProjectRow(s[0], canon);
    calc {
      multiset(Projections(InsertByTime(r, s), canon));
      { assert InsertByTime(r, s) == [s[0]] + ins; ProjectionsCons(s[0], ins, canon); }
      multiset([p0] + Projections(ins, canon));
      { InsertedProjections(r, rest, canon); }
      multiset{p0} + multiset(Projections(rest, canon)) + multiset{ProjectRow(r, canon)};
      { ProjectionsCons(s[0], rest, canon); assert [s[0]] + rest == s; }
      multiset(Projections(s, canon)) + multiset{ProjectRow(r, canon)};
    }
  }

  lemma SortedTail(s: seq<LapRow>)
    requires SortedByTime(s) && s != []
    ensures SortedByTime(s[1..])
  {
    var t := s[1..];
    assert forall k :: 0 <= k < |t| ==> t[k] == s[k + 1];
  }

  // ---------------------------------------------------------------------
  // Trail window and delta colouring (`build_trail_for_car`)
  // ---------------------------------------------------------------------

  /** A projected row with its time since the first row, in seconds. */
  datatype TimedRow = TimedRow(p: Projected, tRel: real)

  /** `t_rel_s = (timestamp - t0).total_seconds()`. */
  function WithRelTime(ps: seq<Projected>): (ts: seq<TimedRow>)
    requires |ps| > 0
    ensures |ts| == |ps|
  {
    seq(|ps|, k requires 0 <= k < |ps| => TimedRow(ps[k], (ps[k].t - ps[0].t) as real / 1000.0))
  }

  function RelTimes(ts: seq<TimedRow>): seq<real>
  {
    seq(|ts|, k requires 0 <= k < |ts| => ts[k].tRel)
  }

  /** On time-sorted rows relative time is 0 at the first row, never
      negative, never decreasing, and its maximum is at the last row. */
  lemma WithRelTimeSpec(ps: seq<Projected>)
    requires |ps| > 0 && forall i, j :: 0 <= i < j < |ps| ==> ps[i].t <= ps[j].t
    ensures var ts := WithRelTime(ps);
      ts[0].tRel == 0.0
      && (forall k :: 0 <= k < |ts| ==> ts[k].tRel >= 0.0)
      && NonDecreasing(RelTimes(ts))
      && MaxOf(RelTimes(ts)) == ts[|ts| - 1].tRel
  {
    var ts := WithRelTime(ps);
    var rt := RelTimes(ts);
    RelTimesOrdered(ps);
    MaxOfNonDecreasing(rt);
  }

  lemma RelTimesOrdered(ps: seq<Projected>)
    requires |ps| > 0 && forall i, j :: 0 <= i < j < |ps| ==> ps[i].t <= ps[j].t
    ensures var ts := WithRelTime(ps);
      ts[0].tRel == 0.0
      && (forall k :: 0 <= k < |ts| ==> ts[k].tRel >= 0.0)
      && NonDecreasing(RelTimes(ts))
  {
    var ts := WithRelTime(ps);
    var rt := RelTimes(ts);
    forall i, j | 0 <= i < j < |rt| ensures rt[i] <= rt[j] {
      assert ps[0].t <= ps[i].t <= ps[j].t;
      DivMono((ps[i].t - ps[0].t) as real, (ps[j].t - ps[0].t) as real);
    }
    forall k | 0 <= k < |ts| ensures ts[k].tRel >= 0.0 {
      if k > 0 { assert ps[0].t <= ps[k].t; }
      DivMono(0.0, (ps[k].t - ps[0].t) as real);
    }
  }

  /** The maximum of a non-decreasing sequence is its last element. */
  lemma MaxOfNonDecreasing(s: seq<real>)
    requires |s| > 0 && NonDecreasing(s)
    ensures MaxOf(s) == s[|s| - 1]
  {
    assert s[|s| - 1] in s;
    var q :| 0 <= q < |s| && s[q] == MaxOf(s);
  }

  lemma DivMono(a: real, b: real)
    requires a <= b
    ensures a / 1000.0 <= b / 1000.0
  {
  }

  const TailFallback: int := 50

  /** The rows of the last `trail_seconds` seconds. */
  function Window(ts: seq<TimedRow>, tMax: real, trailSeconds: real): seq<TimedRow>
  {
    Filter(ts, (r: TimedRow) => r.tRel >= tMax - trailSeconds)
  }

  /** The trail rows: the window, or the last 50 rows when it is empty. */
  function TrailRows(ts: seq<TimedRow>, tMax: real, trailSeconds: real): (w: seq<TimedRow>)
  {
    var win := Window(ts, tMax, trailSeconds);
    if |win| > 0 then win
    else ts[(if |ts| > TailFallback then |ts| - TailFallback else 0)..]
  }

  /** A threshold filter over a non-decreasing key keeps a suffix. */
  lemma {:induction false} WindowIsSuffix(ts: seq<TimedRow>, thr: real)
    requires NonDecreasing(RelTimes(ts))
    ensures exists k :: 0 <= k <= |ts| && Filter(ts, (r: TimedRow) => r.tRel >= thr) == ts[k..]
  {
    var f := (r: TimedRow) => r.tRel >= thr;
    if ts == [] {
      assert Filter(ts, f) == ts[0..];
    } else if ts[0].tRel >= thr {
      forall k | 0 <= k < |ts| ensures f(ts[k]) {
        assert RelTimes(ts)[0] <= RelTimes(ts)[k];
      }
      FilterKeepsAll(ts, f);
      assert Filter(ts, f) == ts[0..];
    } else {
      assert RelTimes(ts[1..]) == RelTimes(ts)[1..];
      WindowIsSuffix(ts[1..], thr);
      var k :| 0 <= k <= |ts[1..]| && Filter(ts[1..], f) == ts[1..][k..];
      assert ts[1..][k..] == ts[k + 1..];
    }
  }

  /** With the last row at the latest relative time and a non-negative
      trail length the window is a non-empty suffix. */
  lemma WindowSuffix(ts: seq<TimedRow>, tMax: real, trailSeconds: real)
    requires |ts| > 0 && NonDecreasing(RelTimes(ts)) && tMax == ts[|ts| - 1].tRel
    requires trailSeconds >= 0.0
    ensures |Window(ts, tMax, trailSeconds)| > 0
    ensures exists k :: 0 <= k < |ts| && Window(ts, tMax, trailSeconds) == ts[k..]
  {
    var win := Window(ts, tMax, trailSeconds);
    assert ts[|ts| - 1] in ts;
    assert ts[|ts| - 1] in win;
    WindowIsSuffix(ts, tMax - trailSeconds);
  }

  /** No two rows of the window are more than `trail_seconds` apart. */
  lemma WindowSpan(ts: seq<TimedRow>, tMax: real, trailSeconds: real)
    requires forall k :: 0 <= k < |ts| ==> ts[k].tRel <= tMax
    ensures var w := Window(ts, tMax, trailSeconds);
      forall i, j :: 0 <= i < |w| && 0 <= j < |w| ==> w[j].tRel - w[i].tRel <= trailSeconds
  {
    var w := Window(ts, tMax, trailSeconds);
    forall i, j | 0 <= i < |w| && 0 <= j < |w| ensures w[j].tRel - w[i].tRel <= trailSeconds {
      assert w[i] in w && w[j] in w;
    }
  }

  /** On time-sorted rows with a non-negative trail length the trail is the
      window itself (the 50-row fallback never applies): a non-empty suffix
      of the lap ending at its last row. */
  lemma TrailWindowSpec(ps: seq<Projected>, trailSeconds: real)
    requires |ps| > 0 && forall i, j :: 0 <= i < j < |ps| ==> ps[i].t <= ps[j].t
    requires trailSeconds >= 0.0
    ensures var ts := WithRelTime(ps);
      var w := TrailRows(ts, MaxOf(RelTimes(ts)), trailSeconds);
      w == Window(ts, MaxOf(RelTimes(ts)), trailSeconds)
      && |w| > 0 && w[|w| - 1] == ts[|ts| - 1]
      && exists k :: 0 <= k < |ts| && w == ts[k..]
  {
    var ts := WithRelTime(ps);
    WithRelTimeSpec(ps);
    WindowSuffix(ts, MaxOf(RelTimes(ts)), trailSeconds);
  }

  /** A trail row ready to be saved: the timed row and its colouring delta. */
  datatype TrailRow = TrailRow(r: TimedRow, deltaKmh: real)

  const MsToKmh: real := 3.6

  /** `build_trail_for_car` after the lap is projected: a non-positive lap
      duration or an unknown comparison is an error; otherwise the trail rows
      coloured by 3.6 times the chosen delta. */
  function BuildTrail(ps: seq<Projected>, trailSeconds: real, compare: string): (r: Result<seq<TrailRow>>)
    requires |ps| > 0
    ensures r.Err? <==> MaxOf(RelTimes(WithRelTime(ps))) <= 0.0 || (compare != "ref" && compare != "ideal")
    ensures r.Ok? ==>
      var ts := WithRelTime(ps);
      var w := TrailRows(ts, MaxOf(RelTimes(ts)), trailSeconds);
      |r.value| == |w|
      && forall k :: 0 <= k < |w| ==>
           (r.value[k].r == w[k]
            && r.value[k].deltaKmh == MsToKmh * (if compare == "ref" then w[k].p.deltaVsRef else w[k].p.deltaVsIdeal))
  {
    var ts := WithRelTime(ps);
    assert |RelTimes(ts)| == |ts|;
    var tMax := MaxOf(RelTimes(ts));
    if tMax <= 0.0 then Err("non-positive lap duration")
    else
      var w := TrailRows(ts, tMax, trailSeconds);
      if compare == "ref" then Ok(seq(|w|, k requires 0 <= k < |w| => TrailRow(w[k], w[k].p.deltaVsRef * MsToKmh)))
      else if compare == "ideal" then Ok(seq(|w|, k requires 0 <= k < |w| => TrailRow(w[k], w[k].p.deltaVsIdeal * MsToKmh)))
      else Err("compare must be 'ref' or 'ideal'")
  }

  // ---------------------------------------------------------------------
  // File names
  // ---------------------------------------------------------------------

  /** `vehicle_id.replace("/", "_").replace("\\", "_")`. */
  function SafeId(vid: string): (s: string)
    ensures |s| == |vid|
    ensures forall k :: 0 <= k < |s| ==> s[k] != '/' && s[k] != '\\'
  {
    seq(|vid|, k requires 0 <= k < |vid| => if vid[k] == '/' || vid[k] == '\\' then '_' else vid[k])
  }

  const TrailPrefix: string := "trail_"
  const TrailMarker: string := "_fastestlap_"

  /** The text after the vehicle id in a trail file name. */
  function TrailSuffix(trailSeconds: real, compare: string): string
  {
    IntToDecimal(Trunc(trailSeconds)) + "s_" + compare + ".csv"
  }

  /** `trail_{safe_vid}_fastestlap_{int(trail_seconds)}s_{compare}.csv`. */
  function TrailFileName(vid: string, trailSeconds: real, compare: string): (name: string)
    ensures name == TrailPrefix + SafeId(vid) + TrailMarker + TrailSuffix(trailSeconds, compare)
    ensures |name| > |TrailPrefix| && name[..|TrailPrefix|] == TrailPrefix
  {
    TrailPrefix + SafeId(vid) + TrailMarker + TrailSuffix(trailSeconds, compare)
  }

  const FastestPrefix: string := "fastest_lap_"
  const LapMarker: string := "_lap"

  /** `fastest_lap_{vid}_lap{lap}.csv`, as written by the section pipeline. */
  function FastestLapFileName(vid: string, lap: int): string
  {
    FastestPrefix + vid + LapMarker + IntToDecimal(lap) + ".csv"
  }

  /** The vehicle id the auto-detection reads from a fastest-lap file name. */
  function DetectedId(base: string): string
  {
    var inner := base[(if |base| < |FastestPrefix| then |base| else |FastestPrefix|)..];
    SplitFirst(inner, LapMarker)
  }

  /** "_lap" overlaps itself nowhere, so an id without "_lap" is read back. */
  lemma DetectedIdRoundTrip(vid: string, lap: int)
    requires !Contains(vid, LapMarker)
    ensures DetectedId(FastestLapFileName(vid, lap)) == vid
  {
    var w := IntToDecimal(lap) + ".csv";
    NameAfterPrefix(vid, lap);
    forall q | 0 <= q < |vid| ensures !OccursAt(vid + LapMarker + w, LapMarker, q) {
      NoMarkerAt(vid, w, q);
    }
    SplitFirstConcat(vid, LapMarker, w);
  }

  /** Past the prefix a file name is the id, the marker and the lap part. */
  lemma NameAfterPrefix(vid: string, lap: int)
    ensures var name := FastestLapFileName(vid, lap);
      |name| >= |FastestPrefix| && name[|FastestPrefix|..] == vid + LapMarker + (IntToDecimal(lap) + ".csv")
  {
    var w := IntToDecimal(lap) + ".csv";
    var name := FastestLapFileName(vid, lap);
    assert name == FastestPrefix + (vid + LapMarker + w);
  }

  /** No "_lap" starts inside an id that does not contain it, whatever follows the marker. */
  lemma NoMarkerAt(vid: string, w: string, q: int)
    requires !Contains(vid, LapMarker) && 0 <= q < |vid|
    ensures !OccursAt(vid + LapMarker + w, LapMarker, q)
  {
    var inner := vid + LapMarker + w;
    if q + 4 <= |vid| {
      assert inner[q..q + 4] == vid[q..q + 4];
      assert !OccursAt(vid, LapMarker, q);
    } else {
      assert inner[q + 3] == LapMarker[q + 3 - |vid|];
      assert inner[q + 3] != 'p';
    }
  }

  /** The auto-detected vehicle list: ids read from the names, first
      occurrence kept, sorted. */
  function DetectVehicleIds(bases: seq<string>): (ids: seq<string>)
    ensures StrictlyIncreasingStr(ids)
    ensures forall k :: 0 <= k < |bases| ==> DetectedId(bases[k]) in ids
    ensures forall v :: v in ids ==> exists k :: 0 <= k < |bases| && DetectedId(bases[k]) == v
  {
    var read := seq(|bases|, k requires 0 <= k < |bases| => DetectedId(bases[k]));
    var ids := SortedDistinctStr(read);
    assert forall k :: 0 <= k < |bases| ==> DetectedId(bases[k]) in ids by {
      forall k | 0 <= k < |bases| ensures DetectedId(bases[k]) in ids {
        assert read[k] in read;
      }
    }
    assert forall v :: v in ids ==> exists k :: 0 <= k < |bases| && DetectedId(bases[k]) == v by {
      forall v | v in ids ensures exists k :: 0 <= k < |bases| && DetectedId(bases[k]) == v {
        var k :| 0 <= k < |read| && read[k] == v;
      }
    }
    ids
  }

  /** Names written for ids without "_lap" give back exactly those ids, sorted. */
  lemma DetectVehicleIdsRoundTrip(vids: seq<string>, laps: seq<int>)
    requires |laps| == |vids| && forall k :: 0 <= k < |vids| ==> !Contains(vids[k], LapMarker)
    ensures var bases := seq(|vids|, k requires 0 <= k < |vids| => FastestLapFileName(vids[k], laps[k]));
      forall v :: v in DetectVehicleIds(bases) <==> v in vids
  {
    var bases := seq(|vids|, k requires 0 <= k < |vids| => FastestLapFileName(vids[k], laps[k]));
    forall k | 0 <= k < |vids| ensures DetectedId(bases[k]) == vids[k] {
      DetectedIdRoundTrip(vids[k], laps[k]);
    }
  }

  /** `load_fastest_lap_path`: no match is an error, several matches give
      the first in sorted order. */
  function PickFastestLapPath(matches: seq<string>): (r: Result<string>)
    ensures r.Err? <==> matches == []
    ensures r.Ok? ==> r.value in matches && forall m :: m in matches ==> !StrLt(m, r.value)
  {
    if matches == [] then Err("no fastest lap CSV")
    else
      var sorted := SortedDistinctStr(matches);
      assert matches[0] in sorted;
      assert forall m :: m in matches ==> !StrLt(m, sorted[0]) by {
        forall m | m in matches ensures !StrLt(m, sorted[0]) {
          var j :| 0 <= j < |sorted| && sorted[j] == m;
          if j > 0 {
            StrLtAsymmetric(sorted[0], m);
          } else {
            StrLtIrreflexive(m);
          }
        }
      }
      Ok(sorted[0])
  }

  // ---------------------------------------------------------------------
  // `generate_all_trails`
  // ---------------------------------------------------------------------

  /** One index record: vehicle, file, trail length, comparison, row count. */
  datatype TrailRecord = TrailRecord(vehicleId: string, path: string, trailSeconds: real, compare: string, nPoints: int)

  /** The records of the vehicles whose trail was built, in vehicle order;
      `build` stands for building and saving one trail and yields its row
      count and path, or the error that skips the vehicle. */
  function Records(vids: seq<string>, build: string -> Result<(int, string)>, trailSeconds: real, compare: string)
    : (recs: seq<TrailRecord>)
    ensures |recs| <= |vids|
  {
    if vids == [] then []
    else
      var prev := Records(vids[..|vids| - 1], build, trailSeconds, compare);
      var v := vids[|vids| - 1];
      match build(v)
      case Err(_) => prev
      case Ok(res) => prev + [TrailRecord(v, res.1, trailSeconds, compare, res.0)]
  }

  /** The loop of `generate_all_trails`: a failing vehicle is skipped. */
  method GenerateAllTrails(vids: seq<string>, build: string -> Result<(int, string)>, trailSeconds: real, compare: string)
    returns (recs: seq<TrailRecord>)
    ensures recs == Records(vids, build, trailSeconds, compare)
  {
    recs := [];
    var i := 0;
    while i < |vids|
      invariant 0 <= i <= |vids|
      invariant recs == Records(vids[..i], build, trailSeconds, compare)
    {
      assert vids[..i + 1][..i] == vids[..i];
      var res := build(vids[i]);
      if res.Ok? {
        recs := recs + [TrailRecord(vids[i], res.value.1, trailSeconds, compare, res.value.0)];
      }
      i := i + 1;
    }
    assert vids[..i] == vids;
  }

  function RecordIds(recs: seq<TrailRecord>): seq<string>
  {
    seq(|recs|, k requires 0 <= k < |recs| => recs[k].vehicleId)
  }

  /** One record per vehicle whose trail was built, in vehicle order, each
      with that build's row count and path. */
  lemma {:induction false} RecordsSpec(vids: seq<string>, build: string -> Result<(int, string)>, trailSeconds: real, compare: string)
    ensures var recs := Records(vids, build, trailSeconds, compare);
      IsSubsequence(RecordIds(recs), vids)
      && (forall k :: 0 <= k < |recs| ==>
            build(recs[k].vehicleId).Ok?
            && recs[k].path == build(recs[k].vehicleId).value.1
            && recs[k].nPoints == build(recs[k].vehicleId).value.0)
      && (forall v :: v in vids && build(v).Ok? ==> v in RecordIds(recs))
  {
    if vids != [] {
      var p := vids[..|vids| - 1];
      var v := vids[|vids| - 1];
      RecordsSpec(p, build, trailSeconds, compare);
      var prev := Records(p, build, trailSeconds, compare);
      var recs := Records(vids, build, trailSeconds, compare);
      if build(v).Ok? {
        assert RecordIds(recs) == RecordIds(prev) + [v];
        SubsequenceAppend(RecordIds(prev), p, v);
      } else {
        assert RecordIds(recs) == RecordIds(prev);
        SubsequenceExtend(RecordIds(prev), p, v);
      }
      assert vids == p + [v];
      forall u | u in vids && build(u).Ok? ensures u in RecordIds(recs) {
        if u != v { assert u in p; }
        else { assert RecordIds(recs)[|recs| - 1] == v; }
      }
    }
  }
}
