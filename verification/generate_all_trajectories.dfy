/** The batch driver: every vehicle runs through extraction, GPS
    conversion, start alignment and interpolation; kept trajectories feed
    the bounds, the replay duration, the per-car racing lines and the colour
    table of the metadata, while progress is reported as job numbers. The
    per-vehicle stages themselves are modelled in their own modules; here a
    `VehicleRun` records what they returned. */
module GenerateAllTrajectories {
  import opened Common

  // ---------------------------------------------------------------------
  // Progress reporting (`report_progress`)
  // ---------------------------------------------------------------------

  /** A progress report: a job counter, or a fraction passed directly. */
  datatype Progress = Job(current: int, total: int) | Direct(fraction: real)

  /** `current_job / total_jobs if total_jobs > 0 else 0`. */
  function Fraction(p: Progress): (f: real)
    ensures p.Job? && 0 <= p.current <= p.total ==> 0.0 <= f <= 1.0
    ensures p.Job? && p.current == p.total && p.total > 0 ==> f == 1.0
    ensures p.Job? && p.total <= 0 ==> f == 0.0
  {
    match p
    case Job(c, t) => if t > 0 then c as real / t as real else 0.0
    case Direct(f) => f
  }

  /** `f"{message} ({current_job}/{total_jobs})"`. */
  function ProgressMessage(msg: string, current: int, total: int): (s: string)
    ensures |s| > |msg| + 4 && s[..|msg|] == msg && s[|s| - 1] == ')'
    ensures IsDigit(s[|s| - 2])
  {
    var tail := IntToDecimal(total);
    assert IsDigit(tail[|tail| - 1]) by {
      if total < 0 { assert tail == "-" + NatToDecimal(-total); }
    }
    msg + " (" + IntToDecimal(current) + "/" + tail + ")"
  }

  /** `3 + 6N`: load, count, five steps per vehicle, the global line, one
      per-car line per vehicle and the metadata. */
  function TotalJobs(n: nat): int { 3 + n * 6 }

  // ---------------------------------------------------------------------
  // One vehicle
  // ---------------------------------------------------------------------

  datatype Point = Point(x: real, y: real)

  /** What the pipeline stages returned for one vehicle: row counts after
      extraction and after alignment, the interpolated trajectory (None when
      interpolation failed) and the step (1 extract, 2 GPS, 3 start
      detection, 4 interpolation, 5 saving) that raised, or 0. */
  datatype VehicleRun = VehicleRun(extractedRows: nat, alignedRows: nat,
                                   trajectory: Option<seq<Point>>, raisesAt: nat)

  const MinRows: nat := 100

  /** The trajectory kept for a vehicle: a vehicle is skipped when a step
      raises or when it has fewer than 100 rows after extraction or after
      alignment or no trajectory. */
  function KeptTrajectory(run: VehicleRun): (t: Option<seq<Point>>)
    ensures t.Some? <==> run.raisesAt !in {1, 2, 3, 4, 5} && run.extractedRows >= MinRows
                         && run.alignedRows >= MinRows && run.trajectory.Some?
    ensures t.Some? ==> t == run.trajectory
  {
    if run.raisesAt == 1 || run.extractedRows < MinRows then None
    else if run.raisesAt == 2 || run.raisesAt == 3 || run.alignedRows < MinRows then None
    else if run.raisesAt == 4 || run.trajectory.None? || run.raisesAt == 5 then None
    else run.trajectory
  }

  datatype Car = Car(id: string, trajectory: seq<Point>)

  function Xs(t: seq<Point>): seq<real> { seq(|t|, k requires 0 <= k < |t| => t[k].x) }
  function Ys(t: seq<Point>): seq<real> { seq(|t|, k requires 0 <= k < |t| => t[k].y) }

  /** The running x/y bounds; `Unbounded` is the initial (+inf, -inf, +inf, -inf). */
  datatype Bounds = Unbounded | Bounds(xMin: real, xMax: real, yMin: real, yMax: real)

  /** Widen the bounds by a non-empty trajectory. */
  function AddBounds(b: Bounds, t: seq<Point>): (r: Bounds)
    requires |t| > 0
    ensures r.Bounds?
  {
    var xs, ys := Xs(t), Ys(t);
    match b
    case Unbounded => Bounds(MinOf(xs), MaxOf(xs), MinOf(ys), MaxOf(ys))
    case Bounds(a, c, d, e) =>
      Bounds(MinReal(a, MinOf(xs)), MaxReal(c, MaxOf(xs)), MinReal(d, MinOf(ys)), MaxReal(e, MaxOf(ys)))
  }

  const SampleMs: int := 10

  /** One vehicle of the loop: the job numbers it reports and the car it
      stores. An empty trajectory is stored but raises on its minimum, so it
      neither widens the bounds nor reports the save. */
  method ProcessVehicle(i: nat, vid: string, run: VehicleRun, total: int)
    returns (reports: seq<Progress>, car: Option<Car>)
    ensures car.Some? <==> KeptTrajectory(run).Some?
    ensures car.Some? ==> car.value == Car(vid, KeptTrajectory(run).value)
    ensures 1 <= |reports| <= 5
    ensures forall k :: 0 <= k < |reports| ==> reports[k] == Job(2 + i * 5 + k + 1, total)
    ensures |reports| == 5 <==> car.Some? && |car.value.trajectory| > 0
  {
    var base := 2 + i * 5;
    reports := [Job(base + 1, total)];
    car := None;
    if run.raisesAt == 1 || run.extractedRows < MinRows {
      return;
    }
    reports := reports + [Job(base + 2, total)];
    if run.raisesAt == 2 {
      return;
    }
    reports := reports + [Job(base + 3, total)];
    if run.raisesAt == 3 || run.alignedRows < MinRows {
      return;
    }
    reports := reports + [Job(base + 4, total)];
    if run.raisesAt == 4 || run.trajectory.None? || run.raisesAt == 5 {
      return;
    }
    car := Some(Car(vid, run.trajectory.value));
    if |run.trajectory.value| > 0 {
      reports := reports + [Job(base + 5, total)];
    }
  }

  // ---------------------------------------------------------------------
  // Folds over the kept cars
  // ---------------------------------------------------------------------

  /** The kept cars, in processing order. */
  function Kept(vids: seq<string>, runs: string -> VehicleRun): (cars: seq<Car>)
    ensures |cars| <= |vids|
  {
    if vids == [] then []
    else
      var prev := Kept(vids[..|vids| - 1], runs);
      var v := vids[|vids| - 1];
      match KeptTrajectory(runs(v))
      case None => prev
      case Some(t) => prev + [Car(v, t)]
  }

  /** The bounds after folding in every non-empty trajectory. */
  function BoundsOf(cars: seq<Car>): Bounds
  {
    if cars == [] then Unbounded
    else
      var prev := BoundsOf(cars[..|cars| - 1]);
      var t := cars[|cars| - 1].trajectory;
      if |t| > 0 then AddBounds(prev, t) else prev
  }

  /** `max(max_duration, len * 10)` over the non-empty trajectories, from 0. */
  function DurationOf(cars: seq<Car>): int
  {
    if cars == [] then 0
    else
      var prev := DurationOf(cars[..|cars| - 1]);
      var t := cars[|cars| - 1].trajectory;
      if |t| > 0 then (if prev >= |t| * SampleMs then prev else |t| * SampleMs) else prev
  }

  function Ids(cars: seq<Car>): seq<string> { seq(|cars|, k requires 0 <= k < |cars| => cars[k].id) }

  datatype Rgb = Rgb(r: int, g: int, b: int)

  const Palette: seq<Rgb> := [
    Rgb(255, 68, 68), Rgb(68, 255, 68), Rgb(68, 68, 255), Rgb(255, 255, 68),
    Rgb(255, 68, 255), Rgb(68, 255, 255), Rgb(255, 136, 68), Rgb(136, 255, 68),
    Rgb(255, 136, 255), Rgb(136, 68, 255), Rgb(255, 200, 68), Rgb(68, 200, 255),
    Rgb(200, 68, 255), Rgb(255, 68, 136), Rgb(68, 255, 136), Rgb(136, 136, 255),
    Rgb(255, 136, 136), Rgb(136, 255, 255)]

  /** The colour of the i-th kept car. */
  function ColorOf(i: nat): (c: Rgb)
    ensures c in Palette
  {
    Palette[i % |Palette|]
  }

  /** The palette has 18 distinct colours, and cars 18 apart share one. */
  lemma ColorCycle(i: nat)
    ensures |Palette| == 18
    ensures forall a, b :: 0 <= a < b < |Palette| ==> Palette[a] != Palette[b]
    ensures ColorOf(i + 18) == ColorOf(i)
  {
  }

  /** A per-car racing-line entry: car id and reported lap length. */
  datatype LineEntry = LineEntry(id: string, lapLength: real)

  /** The racing-line metadata: one entry per car whose line was built. */
  function LineEntries(cars: seq<Car>, perCar: seq<Point> -> Result<real>): (es: seq<LineEntry>)
    ensures |es| <= |cars|
  {
    if cars == [] then []
    else
      var prev := LineEntries(cars[..|cars| - 1], perCar);
      var c := cars[|cars| - 1];
      match perCar(c.trajectory)
      case Err(_) => prev
      case Ok(len) => prev + [LineEntry(c.id, len)]
  }

  datatype Metadata = Metadata(bounds: Bounds, totalDurationMs: int, carIds: seq<string>,
                               colors: seq<Rgb>, lineEntries: seq<LineEntry>)

  // ---------------------------------------------------------------------
  // `generate_all_trajectories`
  // ---------------------------------------------------------------------

  lemma KeptStep(vids: seq<string>, i: nat, runs: string -> VehicleRun)
    requires i < |vids|
    ensures Kept(vids[..i + 1], runs) ==
      match KeptTrajectory(runs(vids[i]))
      case None => Kept(vids[..i], runs)
      case Some(t) => Kept(vids[..i], runs) + [Car(vids[i], t)]
  {
    assert vids[..i + 1][..i] == vids[..i];
  }

  lemma FoldStep(cars: seq<Car>, c: Car)
    ensures BoundsOf(cars + [c]) == if |c.trajectory| > 0 then AddBounds(BoundsOf(cars), c.trajectory) else BoundsOf(cars)
    ensures DurationOf(cars + [c]) ==
      if |c.trajectory| > 0 && DurationOf(cars) < |c.trajectory| * SampleMs then |c.trajectory| * SampleMs
      else DurationOf(cars)
  {
    assert (cars + [c])[..|cars|] == cars;
  }

  predicate JobWithin(p: Progress, total: int)
  {
    p.Job? && 1 <= p.current <= total && p.total == total
  }

  /** The per-vehicle loop: the kept cars, the folded bounds and duration,
      and the reports, each a job number in 1..total. */
  method ProcessVehicles(vids: seq<string>, runs: string -> VehicleRun, total: int)
    returns (cars: seq<Car>, bounds: Bounds, maxDuration: int, reports: seq<Progress>)
    requires total == TotalJobs(|vids|)
    ensures cars == Kept(vids, runs)
    ensures bounds == BoundsOf(cars) && maxDuration == DurationOf(cars)
    ensures forall k :: 0 <= k < |reports| ==> JobWithin(reports[k], total)
  {
    reports := [];
    cars := [];
    bounds := Unbounded;
    maxDuration := 0;
    var i := 0;
    while i < |vids|
      invariant 0 <= i <= |vids|
      invariant cars == Kept(vids[..i], runs)
      invariant bounds == BoundsOf(cars) && maxDuration == DurationOf(cars)
      invariant forall k :: 0 <= k < |reports| ==> JobWithin(reports[k], total)
    {
      var reps, car := ProcessVehicle(i, vids[i], runs(vids[i]), total);
      forall k | 0 <= k < |reps| ensures JobWithin(reps[k], total) {
        assert reps[k] == Job(2 + i * 5 + k + 1, total);
      }
      reports := reports + reps;
      KeptStep(vids, i, runs);
      if car.Some? {
        var t := car.value.trajectory;
        FoldStep(cars, car.value);
        cars := cars + [car.value];
        if |t| > 0 {
          bounds := AddBounds(bounds, t);
          maxDuration := if maxDuration >= |t| * SampleMs then maxDuration else |t| * SampleMs;
        }
      }
      i := i + 1;
    }
    assert vids[..i] == vids;
  }

  /** The per-car racing-line loop: the metadata entries, and one report
      per car numbered from `firstJob`. */
  method BuildLines(cars: seq<Car>, perCar: seq<Point> -> Result<real>, firstJob: int, total: int)
    returns (entries: seq<LineEntry>, reports: seq<Progress>)
    ensures entries == LineEntries(cars, perCar)
    ensures |reports| == |cars|
    ensures forall k :: 0 <= k < |reports| ==> reports[k] == Job(firstJob + k, total)
  {
    entries := [];
    reports := [];
    var j := 0;
    while j < |cars|
      invariant 0 <= j <= |cars|
      invariant entries == LineEntries(cars[..j], perCar)
      invariant |reports| == j
      invariant forall k :: 0 <= k < j ==> reports[k] == Job(firstJob + k, total)
    {
      assert cars[..j + 1][..j] == cars[..j];
      reports := reports + [Job(firstJob + j, total)];
      var res := perCar(cars[j].trajectory);
      if res.Ok? {
        entries := entries + [LineEntry(cars[j].id, res.value)];
      }
      j := j + 1;
    }
    assert cars[..j] == cars;
  }

  /** Every progress report of the sequence is a fraction in [0, 1]. */
  predicate FractionsBounded(rs: seq<Progress>)
  {
    forall k :: 0 <= k < |rs| ==> 0.0 <= Fraction(rs[k]) <= 1.0
  }

  lemma JobsBounded(rs: seq<Progress>, total: int)
    requires forall k :: 0 <= k < |rs| ==> JobWithin(rs[k], total)
    ensures FractionsBounded(rs)
  {
  }

  lemma BoundedConcat(a: seq<Progress>, b: seq<Progress>)
    requires FractionsBounded(a) && FractionsBounded(b)
    ensures FractionsBounded(a + b)
  {
  }

  /** How a run ends: with no vehicle kept (the driver returns None), with
      the error of the global racing line (raised out of the driver), or
      with the metadata written. */
  datatype RunResult = NoVehicles | LineFailed(msg: string) | Written(meta: Metadata)

  /** The run's result: the kept cars, the global racing line over them
      (`globalLine`: its points or its error), then the metadata of the
      kept cars. */
  function RunResultOf(vids: seq<string>, runs: string -> VehicleRun, globalLine: seq<Car> -> Result<seq<Point>>,
                       perCar: seq<Point> -> Result<real>): RunResult
  {
    var cars := Kept(vids, runs);
    if cars == [] then NoVehicles
    else match globalLine(cars)
      case Err(m) => LineFailed(m)
      case Ok(_) =>
        Written(Metadata(BoundsOf(cars), DurationOf(cars), Ids(cars),
                         seq(|cars|, k requires 0 <= k < |cars| => ColorOf(k)), LineEntries(cars, perCar)))
  }

  /** The metadata lists, in order, only vehicles that passed every skip
      rule, one colour per car, and racing-line entries only for listed
      cars. */
  predicate MetaSound(m: Metadata, vids: seq<string>, runs: string -> VehicleRun)
  {
    IsSubsequence(m.carIds, vids) && |m.colors| == |m.carIds|
    && (forall id :: id in m.carIds ==> KeptTrajectory(runs(id)).Some?)
    && (forall e :: e in m.lineEntries ==> e.id in m.carIds)
  }

  /** Metadata is written exactly when some vehicle is kept and the global
      racing line is built, and then it is sound; the line's error ends the
      run without metadata. */
  lemma RunResultSpec(vids: seq<string>, runs: string -> VehicleRun, globalLine: seq<Car> -> Result<seq<Point>>,
                      perCar: seq<Point> -> Result<real>)
    ensures var r := RunResultOf(vids, runs, globalLine, perCar);
      var cars := Kept(vids, runs);
      (r.NoVehicles? <==> cars == [])
      && (r.LineFailed? <==> cars != [] && globalLine(cars).Err?)
      && (r.LineFailed? ==> r.msg == globalLine(cars).msg)
      && (r.Written? <==> cars != [] && globalLine(cars).Ok?)
      && (r.Written? ==> MetaSound(r.meta, vids, runs))
  {
    var r := RunResultOf(vids, runs, globalLine, perCar);
    if r.Written? {
      KeptIdsSound(vids, runs);
      EntriesListed(Kept(vids, runs), perCar);
    }
  }

  lemma KeptIdsSound(vids: seq<string>, runs: string -> VehicleRun)
    ensures IsSubsequence(Ids(Kept(vids, runs)), vids)
    ensures forall id :: id in Ids(Kept(vids, runs)) ==> KeptTrajectory(runs(id)).Some?
  {
    var cars := Kept(vids, runs);
    KeptSpec(vids, runs);
    forall id | id in Ids(cars) ensures KeptTrajectory(runs(id)).Some? {
      var k :| 0 <= k < |cars| && cars[k].id == id;
      assert cars[k] in cars;
    }
  }

  lemma EntriesListed(cars: seq<Car>, perCar: seq<Point> -> Result<real>)
    ensures forall e :: e in LineEntries(cars, perCar) ==> e.id in Ids(cars)
  {
    LineEntriesSpec(cars, perCar);
    forall e | e in LineEntries(cars, perCar) ensures e.id in Ids(cars) {
      var c :| c in cars && c.id == e.id && perCar(c.trajectory) == Ok(e.lapLength);
      var k :| 0 <= k < |cars| && cars[k] == c;
      assert Ids(cars)[k] == e.id;
    }
  }

  /** The driver. `runs` gives what the stages return for each vehicle,
      `globalLine` the global racing line's points or its error, `perCar`
      the per-car racing line's lap length or its error, and
      `sectionCompare`/`sectionOk` whether the section-compare step is
      available and whether it succeeded. Every reported fraction lies in
      [0, 1], yet they are not monotone: 0.85 follows the final 1.0. */
  method GenerateAll(vids: seq<string>, runs: string -> VehicleRun, globalLine: seq<Car> -> Result<seq<Point>>,
                     perCar: seq<Point> -> Result<real>, sectionCompare: bool, sectionOk: bool)
    returns (result: RunResult, reports: seq<Progress>)
    ensures result == RunResultOf(vids, runs, globalLine, perCar)
    ensures FractionsBounded(reports)
    ensures result.LineFailed? ==> |reports| > 0 && reports[|reports| - 1] == Job(2 + |vids| * 5 + 1, TotalJobs(|vids|))
    ensures result.Written? && sectionCompare ==>
      SectionCompareTail(reports, TotalJobs(|vids|), sectionOk)
  {
    var total := TotalJobs(|vids|);
    var cars, bounds, maxDuration, vreports := ProcessVehicles(vids, runs, total);
    JobsBounded(vreports, total);
    reports := [Direct(0.0), Job(2, total)] + vreports;
    BoundedConcat([Direct(0.0), Job(2, total)], vreports);
    if |cars| == 0 {
      result := NoVehicles;
      return;
    }
    var lineJob := 2 + |vids| * 5 + 1;
    JobsBounded([Job(lineJob, total)], total);
    BoundedConcat(reports, [Job(lineJob, total)]);
    reports := reports + [Job(lineJob, total)];
    var line := globalLine(cars);
    if line.Err? {
      result := LineFailed(line.msg);
      return;
    }
    var meta;
    meta, reports := WriteMetadata(cars, bounds, maxDuration, perCar, reports, lineJob + 1, total,
                                   sectionCompare, sectionOk);
    result := Written(meta);
  }

  /** The stages after the global racing line: the per-car lines, the
      colours and the metadata, then the closing reports. */
  method WriteMetadata(cars: seq<Car>, bounds: Bounds, maxDuration: int, perCar: seq<Point> -> Result<real>,
                       before: seq<Progress>, firstJob: int, total: int, sectionCompare: bool, sectionOk: bool)
    returns (meta: Metadata, reports: seq<Progress>)
    requires FractionsBounded(before) && 1 <= firstJob <= total && firstJob + |cars| - 1 <= total
    ensures meta == Metadata(bounds, maxDuration, Ids(cars),
                             seq(|cars|, k requires 0 <= k < |cars| => ColorOf(k)), LineEntries(cars, perCar))
    ensures FractionsBounded(reports)
    ensures sectionCompare ==>
      SectionCompareTail(reports, total, sectionOk)
  {
    var entries, lreports := BuildLines(cars, perCar, firstJob, total);
    assert forall k :: 0 <= k < |lreports| ==> JobWithin(lreports[k], total);
    JobsBounded(lreports, total);
    BoundedConcat(before, lreports);
    var colors := seq(|cars|, k requires 0 <= k < |cars| => ColorOf(k));
    meta := Metadata(bounds, maxDuration, Ids(cars), colors, entries);
    reports := ClosingReports(before + lreports, total, sectionCompare, sectionOk);
  }

  /** The reports end with the last job, then 0.85, then 0.95 when the
      section-compare step succeeded. */
  predicate SectionCompareTail(reports: seq<Progress>, total: int, sectionOk: bool)
  {
    var n := |reports|;
    var fin := if sectionOk then 2 else 1;
    n >= fin + 1 && reports[n - fin - 1] == Job(total, total) && reports[n - fin] == Direct(0.85)
  }

  /** The reports after the metadata is saved: the last job, then 0.85 and
      0.95 around a section-compare run that is requested and succeeds. */
  method ClosingReports(before: seq<Progress>, total: int, sectionCompare: bool, sectionOk: bool)
    returns (reports: seq<Progress>)
    requires FractionsBounded(before) && total > 0
    ensures FractionsBounded(reports)
    ensures |reports| >= |before| + 1 && reports[..|before|] == before
    ensures reports[|before|] == Job(total, total)
    ensures sectionCompare ==>
      SectionCompareTail(reports, total, sectionOk)
    ensures !sectionCompare ==> |reports| == |before| + 1
  {
    BoundedConcat(before, [Job(total, total)]);
    reports := before + [Job(total, total)];
    if sectionCompare {
      BoundedConcat(reports, [Direct(0.85)]);
      reports := reports + [Direct(0.85)];
      if sectionOk {
        BoundedConcat(reports, [Direct(0.95)]);
        reports := reports + [Direct(0.95)];
      }
    }
  }

  // ---------------------------------------------------------------------
  // Properties of the folds
  // ---------------------------------------------------------------------

  /** The kept cars are the vehicles, in order, whose run passed every
      skip rule, each with its own trajectory. */
  lemma {:induction false} KeptSpec(vids: seq<string>, runs: string -> VehicleRun)
    ensures IsSubsequence(Ids(Kept(vids, runs)), vids)
    ensures forall c :: c in Kept(vids, runs) <==> c.id in vids && KeptTrajectory(runs(c.id)) == Some(c.trajectory)
  {
    if vids != [] {
      var p := vids[..|vids| - 1];
      var v := vids[|vids| - 1];
      KeptSpec(p, runs);
      var prev := Kept(p, runs);
      var cars := Kept(vids, runs);
      assert vids == p + [v];
      if KeptTrajectory(runs(v)).Some? {
        assert Ids(cars) == Ids(prev) + [v];
        SubsequenceAppend(Ids(prev), p, v);
      } else {
        assert Ids(cars) == Ids(prev);
        SubsequenceExtend(Ids(prev), p, v);
      }
    }
  }

  /** Every x and y of the non-empty trajectories, in order. */
  function AllXs(cars: seq<Car>): seq<real>
  {
    if cars == [] then [] else AllXs(cars[..|cars| - 1]) + Xs(cars[|cars| - 1].trajectory)
  }

  function AllYs(cars: seq<Car>): seq<real>
  {
    if cars == [] then [] else AllYs(cars[..|cars| - 1]) + Ys(cars[|cars| - 1].trajectory)
  }

  lemma MinOfConcat(a: seq<real>, b: seq<real>)
    requires |a| > 0 && |b| > 0
    ensures MinOf(a + b) == MinReal(MinOf(a), MinOf(b))
  {
    var m := MinReal(MinOf(a), MinOf(b));
    assert m in a + b;
    assert forall x :: x in a + b ==> x in a || x in b;
    assert MinOf(a + b) <= m;
  }

  lemma MaxOfConcat(a: seq<real>, b: seq<real>)
    requires |a| > 0 && |b| > 0
    ensures MaxOf(a + b) == MaxReal(MaxOf(a), MaxOf(b))
  {
    var m := MaxReal(MaxOf(a), MaxOf(b));
    assert m in a + b;
    assert forall x :: x in a + b ==> x in a || x in b;
    assert MaxOf(a + b) >= m;
  }

  lemma {:induction false} AllLengths(cars: seq<Car>)
    ensures |AllXs(cars)| == |AllYs(cars)|
    ensures |AllXs(cars)| == 0 <==> forall c :: c in cars ==> |c.trajectory| == 0
  {
    if cars != [] {
      var p := cars[..|cars| - 1];
      AllLengths(p);
      assert cars == p + [cars[|cars| - 1]];
      assert forall c :: c in cars ==> c in p || c == cars[|cars| - 1];
    }
  }

  /** The folded bounds stay at the initial infinities exactly when no
      kept trajectory has a point. */
  lemma {:induction false} BoundsUnbounded(cars: seq<Car>)
    ensures BoundsOf(cars).Unbounded? <==> |AllXs(cars)| == 0
  {
    if cars != [] {
      BoundsUnbounded(cars[..|cars| - 1]);
    }
  }

  /** The folded x bounds are the minimum and maximum of every kept x. */
  lemma {:induction false} BoundsOfXs(cars: seq<Car>)
    requires |AllXs(cars)| > 0
    ensures BoundsOf(cars).Bounds?
    ensures BoundsOf(cars).xMin == MinOf(AllXs(cars)) && BoundsOf(cars).xMax == MaxOf(AllXs(cars))
  {
    BoundsUnbounded(cars);
    var p := cars[..|cars| - 1];
    var t := cars[|cars| - 1].trajectory;
    assert AllXs(cars) == AllXs(p) + Xs(t);
    BoundsUnbounded(p);
    if |AllXs(p)| == 0 {
      assert AllXs(cars) == Xs(t);
    } else {
      BoundsOfXs(p);
      if |t| > 0 {
        MinOfConcat(AllXs(p), Xs(t));
        MaxOfConcat(AllXs(p), Xs(t));
      } else {
        assert AllXs(cars) == AllXs(p);
      }
    }
  }

  /** The folded y bounds are the minimum and maximum of every kept y. */
  lemma {:induction false} BoundsOfYs(cars: seq<Car>)
    requires |AllYs(cars)| > 0
    ensures BoundsOf(cars).Bounds?
    ensures BoundsOf(cars).yMin == MinOf(AllYs(cars)) && BoundsOf(cars).yMax == MaxOf(AllYs(cars))
  {
    AllLengths(cars);
    BoundsUnbounded(cars);
    var p := cars[..|cars| - 1];
    var t := cars[|cars| - 1].trajectory;
    assert AllYs(cars) == AllYs(p) + Ys(t);
    AllLengths(p);
    BoundsUnbounded(p);
    if |AllYs(p)| == 0 {
      assert AllYs(cars) == Ys(t);
    } else {
      BoundsOfYs(p);
      if |t| > 0 {
        MinOfConcat(AllYs(p), Ys(t));
        MaxOfConcat(AllYs(p), Ys(t));
      } else {
        assert AllYs(cars) == AllYs(p);
      }
    }
  }

  /** The replay duration is 10 ms per sample of the longest kept
      trajectory, or 0. */
  lemma {:induction false} DurationOfSpec(cars: seq<Car>)
    ensures forall c :: c in cars ==> |c.trajectory| * SampleMs <= DurationOf(cars)
    ensures DurationOf(cars) == 0 || exists c :: c in cars && DurationOf(cars) == |c.trajectory| * SampleMs
  {
    if cars != [] {
      var p := cars[..|cars| - 1];
      var last := cars[|cars| - 1];
      DurationOfSpec(p);
      assert cars == p + [last];
      assert forall c :: c in cars ==> c in p || c == last;
      if DurationOf(cars) != 0 && DurationOf(cars) != DurationOf(p) {
        assert DurationOf(cars) == |last.trajectory| * SampleMs;
      }
    }
  }

  /** A failing per-car racing line omits that car's entry and nothing
      else: every entry belongs to a car whose line was built, in car
      order, and every built line has its entry. */
  lemma {:induction false} LineEntriesSpec(cars: seq<Car>, perCar: seq<Point> -> Result<real>)
    ensures forall e :: e in LineEntries(cars, perCar) ==>
      exists c :: c in cars && c.id == e.id && perCar(c.trajectory) == Ok(e.lapLength)
    ensures forall c :: c in cars && perCar(c.trajectory).Ok? ==>
      LineEntry(c.id, perCar(c.trajectory).value) in LineEntries(cars, perCar)
  {
    if cars != [] {
      var p := cars[..|cars| - 1];
      var last := cars[|cars| - 1];
      LineEntriesSpec(p, perCar);
      assert cars == p + [last];
      assert forall c :: c in cars ==> c in p || c == last;
    }
  }

  /** Every job number the driver can report lies in 1..3 + 6N: the last
      vehicle's save is job 2 + 5N and the last per-car line 3 + 6N. */
  lemma JobNumbersBounded(n: nat, i: nat, k: nat, j: nat)
    requires i < n && k < 5 && j < n
    ensures 1 <= 2 + i * 5 + k + 1 <= TotalJobs(n)
    ensures 1 <= 2 + n * 5 + 1 + 1 + j <= TotalJobs(n)
  {
  }

}
