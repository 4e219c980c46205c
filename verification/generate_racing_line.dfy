/** The fleet racing line: every car's samples are placed on a normalised
    lap-distance axis, pit-lane points are filtered out by three rules, the
    survivors are binned, bins involved in large jumps are discarded and the
    empty bins are filled by linear interpolation between their neighbours.
    Per-bin medians are a given function; the final Gaussian smoothing is not
    part of this model. */
module GenerateRacingLine {
  import opened Common

  /** One sample on the normalised axis: `[norm_lapdist, x, y, speed]`. */
  datatype Point = Point(norm: real, x: real, y: real, speed: real)

  /** One trajectory row as used here: `[x, y, speed, lapdist]`. */
  datatype TrajRow = TrajRow(x: real, y: real, speed: real, lapdist: real)

  datatype XY = XY(x: real, y: real)

  const SpeedThreshold: real := 8.0
  const MaxDeviation: real := 20.0
  const CoarseBins: nat := 100
  const MinBinPoints: nat := 3
  const WindowBins: nat := 50
  const MinWindowPoints: nat := 10
  const PitSpeed: real := 15.0
  const PitSpread: real := 30.0
  const MinLapdistRange: real := 100.0
  const MaxJump: real := 15.0

  // ---------------------------------------------------------------------
  // Binning: `clip(digitize(v, linspace(0, 1, n + 1)) - 1, 0, n - 1)`
  // ---------------------------------------------------------------------

  /** Number of edges k/n (k = 0..n) that are at most v. */
  function Digitize(v: real, n: nat): int
  {
    if v < 0.0 then 0
    else
      var f := (v * n as real).Floor;
      (if f < n then f else n) + 1
  }

  function BinIndex(v: real, n: nat): (b: int)
    requires n >= 1
    ensures 0 <= b < n
  {
    ClampInt(Digitize(v, n) - 1, 0, n - 1)
  }

  /** A value in [k/n, (k+1)/n) lands in bin k. */
  lemma BinIndexSpec(v: real, n: nat, k: int)
    requires n >= 1 && 0 <= k < n
    requires (k as real) / (n as real) <= v < ((k + 1) as real) / (n as real)
    ensures BinIndex(v, n) == k
  {
    var nr := n as real;
    var lo := (k as real) / nr;
    var hi := ((k + 1) as real) / nr;
    MulMono(lo, v, nr);
    DivMul(k as real, nr);
    assert k as real <= v * nr;
    MulMonoStrict(v, hi, nr);
    DivMul((k + 1) as real, nr);
    assert v * nr < (k + 1) as real;
    FloorIs(v * nr, k);
    assert 0.0 <= (k as real) / nr by { DivNonNeg(k as real, nr); }
    assert Digitize(v, n) == k + 1;
  }

  lemma FloorIs(x: real, k: int)
    requires k as real <= x < (k + 1) as real
    ensures x.Floor == k
  {
  }

  lemma DivNonNeg(a: real, b: real)
    requires a >= 0.0 && b > 0.0
    ensures a / b >= 0.0
  {
  }

  /** Values below 0 land in the first bin, values of at least 1 in the last. */
  lemma BinIndexEnds(v: real, n: nat)
    requires n >= 1
    ensures v < 0.0 ==> BinIndex(v, n) == 0
    ensures v >= 1.0 ==> BinIndex(v, n) == n - 1
  {
    if v >= 1.0 {
      MulMono(1.0, v, n as real);
    }
  }

  lemma DivMul(a: real, b: real)
    requires b > 0.0
    ensures a / b * b == a
  {
  }

  lemma MulMono(a: real, b: real, c: real)
    requires a <= b && c > 0.0
    ensures a * c <= b * c
  {
  }

  lemma MulMonoStrict(a: real, b: real, c: real)
    requires a < b && c > 0.0
    ensures a * c < b * c
  {
  }

  function Xs(ps: seq<Point>): seq<real>
  {
    seq(|ps|, i requires 0 <= i < |ps| => ps[i].x)
  }

  function Ys(ps: seq<Point>): seq<real>
  {
    seq(|ps|, i requires 0 <= i < |ps| => ps[i].y)
  }

  function Speeds(ps: seq<Point>): seq<real>
  {
    seq(|ps|, i requires 0 <= i < |ps| => ps[i].speed)
  }

  /** The points of bin b out of n, in order. */
  function BinPoints(ps: seq<Point>, n: nat, b: int): seq<Point>
    requires n >= 1
  {
    Filter(ps, (p: Point) => BinIndex(p.norm, n) == b)
  }

  // ---------------------------------------------------------------------
  // Rule 1: speed
  // ---------------------------------------------------------------------

  function SpeedRule(ps: seq<Point>): seq<Point>
  {
    Filter(ps, (p: Point) => p.speed >= SpeedThreshold)
  }

  // ---------------------------------------------------------------------
  // Rule 2: distance from the coarse bin's median
  // ---------------------------------------------------------------------

  /** p lies in a coarse bin of at least three points and farther than
      `MaxDeviation` from that bin's median point. */
  predicate FarFromBinMedian(ps: seq<Point>, p: Point, median: seq<real> -> real)
  {
    var m := BinPoints(ps, CoarseBins, BinIndex(p.norm, CoarseBins));
    |m| >= MinBinPoints && SqDist(p.x, p.y, median(Xs(m)), median(Ys(m))) > MaxDeviation * MaxDeviation
  }

  function DeviationRule(ps: seq<Point>, median: seq<real> -> real): seq<Point>
  {
    Filter(ps, (p: Point) => !FarFromBinMedian(ps, p, median))
  }

  /** The per-bin loop that clears `keep_mask` entries. */
  method DeviationFilter(ps: seq<Point>, median: seq<real> -> real) returns (kept: seq<Point>)
    ensures kept == DeviationRule(ps, median)
  {
    var keep := new bool[|ps|](_ => true);
    var i := 0;
    while i < CoarseBins
      invariant 0 <= i <= CoarseBins
      invariant forall j :: 0 <= j < |ps| ==>
        keep[j] == !(BinIndex(ps[j].norm, CoarseBins) < i && FarFromBinMedian(ps, ps[j], median))
    {
      var members := BinPoints(ps, CoarseBins, i);
      if |members| >= MinBinPoints {
        var mx, my := median(Xs(members)), median(Ys(members));
        var j := 0;
        while j < |ps|
          invariant 0 <= j <= |ps|
          invariant forall q :: 0 <= q < |ps| ==>
            keep[q] == !((BinIndex(ps[q].norm, CoarseBins) < i
                          || (q < j && BinIndex(ps[q].norm, CoarseBins) == i))
                         && FarFromBinMedian(ps, ps[q], median))
        {
          if BinIndex(ps[j].norm, CoarseBins) == i && SqDist(ps[j].x, ps[j].y, mx, my) > MaxDeviation * MaxDeviation {
            keep[j] := false;
          }
          j := j + 1;
        }
      } else {
        assert forall q :: 0 <= q < |ps| && BinIndex(ps[q].norm, CoarseBins) == i ==>
          !FarFromBinMedian(ps, ps[q], median);
      }
      i := i + 1;
    }
    SelectIsFilter(ps, keep[..], (p: Point) => !FarFromBinMedian(ps, p, median));
    kept := Select(ps, keep[..]);
  }

  /** A coarse bin with fewer than three points loses none of them. */
  lemma SparseBinsUntouched(ps: seq<Point>, median: seq<real> -> real, b: int)
    requires |BinPoints(ps, CoarseBins, b)| < MinBinPoints
    ensures BinPoints(DeviationRule(ps, median), CoarseBins, b) == BinPoints(ps, CoarseBins, b)
  {
    var keepDev := (p: Point) => !FarFromBinMedian(ps, p, median);
    var inBin := (p: Point) => BinIndex(p.norm, CoarseBins) == b;
    var both := (p: Point) => keepDev(p) && inBin(p);
    FilterFilter(ps, keepDev, inBin, both);
    forall k | 0 <= k < |ps| ensures both(ps[k]) == inBin(ps[k]) {
    }
    FilterAgree(ps, both, inBin);
  }

  // ---------------------------------------------------------------------
  // Rule 3: pit-lane windows
  // ---------------------------------------------------------------------

  function Mean(s: seq<real>): real
    requires |s| > 0
  {
    SumReal(s) / |s| as real
  }

  /** Population variance, as `np.var` computes it. */
  function Var(s: seq<real>): real
    requires |s| > 0
  {
    var m := Mean(s);
    Mean(seq(|s|, i requires 0 <= i < |s| => (s[i] - m) * (s[i] - m)))
  }

  /** A window of at least ten points, slow on average and spread out:
      `sqrt(var x + var y) > 30`, compared squared. */
  predicate IsPitWindow(ps: seq<Point>, w: int)
  {
    var m := BinPoints(ps, WindowBins, w);
    |m| >= MinWindowPoints && Mean(Speeds(m)) < PitSpeed && Var(Xs(m)) + Var(Ys(m)) > PitSpread * PitSpread
  }

  function PitRule(ps: seq<Point>): seq<Point>
  {
    Filter(ps, (p: Point) => !IsPitWindow(ps, BinIndex(p.norm, WindowBins)))
  }

  /** The loop that collects `pit_windows`. */
  method PitWindows(ps: seq<Point>) returns (windows: seq<int>)
    ensures StrictlyIncreasing(windows)
    ensures forall w :: w in windows <==> 0 <= w < WindowBins && IsPitWindow(ps, w)
  {
    windows := [];
    var i := 0;
    while i < WindowBins
      invariant 0 <= i <= WindowBins
      invariant StrictlyIncreasing(windows)
      invariant forall k :: 0 <= k < |windows| ==> windows[k] < i
      invariant forall w :: w in windows <==> 0 <= w < i && IsPitWindow(ps, w)
    {
      var members := BinPoints(ps, WindowBins, i);
      if |members| >= MinWindowPoints {
        var avgSpeed := Mean(Speeds(members));
        var spread := Var(Xs(members)) + Var(Ys(members));
        if avgSpeed < PitSpeed && spread > PitSpread * PitSpread {
          windows := windows + [i];
        }
      }
      i := i + 1;
    }
  }

  /** The `pit_mask |= ...` loop and the removal of masked points. */
  method RemovePitWindows(ps: seq<Point>, windows: seq<int>) returns (kept: seq<Point>)
    requires forall w :: w in windows <==> 0 <= w < WindowBins && IsPitWindow(ps, w)
    ensures kept == PitRule(ps)
  {
    var pit := new bool[|ps|](_ => false);
    var k := 0;
    while k < |windows|
      invariant 0 <= k <= |windows|
      invariant forall j :: 0 <= j < |ps| ==> pit[j] == (BinIndex(ps[j].norm, WindowBins) in windows[..k])
    {
      var j := 0;
      while j < |ps|
        invariant 0 <= j <= |ps|
        invariant forall q :: 0 <= q < |ps| ==>
          pit[q] == (BinIndex(ps[q].norm, WindowBins) in windows[..k]
                     || (q < j && BinIndex(ps[q].norm, WindowBins) == windows[k]))
      {
        if BinIndex(ps[j].norm, WindowBins) == windows[k] {
          pit[j] := true;
        }
        j := j + 1;
      }
      assert windows[..k + 1] == windows[..k] + [windows[k]];
      k := k + 1;
    }
    assert windows[..k] == windows;
    var pitv := pit[..];
    var keep := seq(|ps|, j requires 0 <= j < |ps| => !pitv[j]);
    SelectIsFilter(ps, keep, (p: Point) => !IsPitWindow(ps, BinIndex(p.norm, WindowBins)));
    kept := Select(ps, keep);
  }

  // ---------------------------------------------------------------------
  // filter_main_track_points
  // ---------------------------------------------------------------------

  function MainTrack(ps: seq<Point>, median: seq<real> -> real): seq<Point>
  {
    PitRule(DeviationRule(SpeedRule(ps), median))
  }

  /** The three rules in order, with the early returns on an empty stage. */
  method FilterMainTrackPoints(ps: seq<Point>, median: seq<real> -> real) returns (filtered: seq<Point>)
    ensures filtered == MainTrack(ps, median)
  {
    if |ps| == 0 {
      return ps;
    }
    filtered := SpeedRule(ps);
    if |filtered| == 0 {
      return filtered;
    }
    filtered := DeviationFilter(filtered, median);
    if |filtered| == 0 {
      return filtered;
    }
    var windows := PitWindows(filtered);
    if |windows| > 0 {
      filtered := RemovePitWindows(filtered, windows);
    } else {
      var f := filtered;
      forall j | 0 <= j < |f| ensures !IsPitWindow(f, BinIndex(f[j].norm, WindowBins)) {
      }
      FilterKeepsAll(f, (p: Point) => !IsPitWindow(f, BinIndex(p.norm, WindowBins)));
    }
  }

  /** The filtered points are an order-preserving subsequence of the input,
      every one fast enough, and none in a pit window of the points that
      reached the third rule. */
  lemma {:induction false} MainTrackSpec(ps: seq<Point>, median: seq<real> -> real)
    ensures IsSubsequence(MainTrack(ps, median), ps)
    ensures forall p :: p in MainTrack(ps, median) ==> p.speed >= SpeedThreshold
    ensures var d := DeviationRule(SpeedRule(ps), median);
      forall p :: p in MainTrack(ps, median) ==> !IsPitWindow(d, BinIndex(p.norm, WindowBins))
    ensures ps == [] ==> MainTrack(ps, median) == []
  {
    var s := SpeedRule(ps);
    var d := DeviationRule(s, median);
    var fs := (p: Point) => p.speed >= SpeedThreshold;
    var fd := (p: Point) => !FarFromBinMedian(s, p, median);
    var fp := (p: Point) => !IsPitWindow(d, BinIndex(p.norm, WindowBins));
    var sd := (p: Point) => fs(p) && fd(p);
    var all := (p: Point) => sd(p) && fp(p);
    FilterFilter(ps, fs, fd, sd);
    FilterFilter(ps, sd, fp, all);
    FilterIsSubsequence(ps, all);
  }

  // ---------------------------------------------------------------------
  // compute_racing_line
  // ---------------------------------------------------------------------

  function Lapdists(traj: seq<TrajRow>): seq<real>
  {
    seq(|traj|, i requires 0 <= i < |traj| => traj[i].lapdist)
  }

  /** One car's samples on the normalised axis, or none when its lap-distance
      range is below 100 m. */
  function CarPoints(traj: seq<TrajRow>): seq<Point>
    requires |traj| > 0
  {
    var lo := MinOf(Lapdists(traj));
    var hi := MaxOf(Lapdists(traj));
    if hi - lo < MinLapdistRange then []
    else
      seq(|traj|, i requires 0 <= i < |traj| =>
        Point((traj[i].lapdist - lo) / (hi - lo), traj[i].x, traj[i].y, traj[i].speed))
  }

  /** Normalised lap distances lie in [0, 1]. */
  lemma CarPointsInUnit(traj: seq<TrajRow>)
    requires |traj| > 0
    ensures forall p :: p in CarPoints(traj) ==> 0.0 <= p.norm <= 1.0
  {
    var lo := MinOf(Lapdists(traj));
    var hi := MaxOf(Lapdists(traj));
    if hi - lo >= MinLapdistRange {
      forall i | 0 <= i < |traj| ensures 0.0 <= (traj[i].lapdist - lo) / (hi - lo) <= 1.0 {
        assert Lapdists(traj)[i] in Lapdists(traj);
        UnitRatio(traj[i].lapdist - lo, hi - lo);
      }
    }
  }

  lemma UnitRatio(a: real, b: real)
    requires 0.0 <= a <= b && b > 0.0
    ensures 0.0 <= a / b <= 1.0
  {
  }

  /** All cars' points in dictionary order; a car with no rows makes
      `lapdist.min()` raise. */
  function Collected(trajs: seq<seq<TrajRow>>): Result<seq<Point>>
  {
    if trajs == [] then Ok([])
    else
      match Collected(trajs[..|trajs| - 1])
      case Err(e) => Err(e)
      case Ok(ps) =>
        var last := trajs[|trajs| - 1];
        if |last| == 0 then Err("zero-size array to reduction operation minimum")
        else Ok(ps + CarPoints(last))
  }

  lemma {:induction false} CollectedInUnit(trajs: seq<seq<TrajRow>>)
    ensures Collected(trajs).Ok? ==> forall p :: p in Collected(trajs).value ==> 0.0 <= p.norm <= 1.0
  {
    if trajs != [] {
      CollectedInUnit(trajs[..|trajs| - 1]);
      if |trajs[|trajs| - 1]| > 0 {
        CarPointsInUnit(trajs[|trajs| - 1]);
      }
    }
  }

  /** The loop that appends every car's points. */
  method CollectPoints(trajs: seq<seq<TrajRow>>) returns (r: Result<seq<Point>>)
    ensures r == Collected(trajs)
  {
    var all: seq<Point> := [];
    var c := 0;
    while c < |trajs|
      invariant 0 <= c <= |trajs|
      invariant Collected(trajs[..c]) == Ok(all)
    {
      assert trajs[..c + 1][..c] == trajs[..c];
      var traj := trajs[c];
      if |traj| == 0 {
        assert Collected(trajs[..c + 1]).Err?;
        CollectedErrPersists(trajs, c + 1);
        return Err("zero-size array to reduction operation minimum");
      }
      all := all + CarPoints(traj);
      c := c + 1;
    }
    assert trajs[..c] == trajs;
    return Ok(all);
  }

  lemma {:induction false} CollectedErrPersists(trajs: seq<seq<TrajRow>>, c: int)
    requires 0 <= c <= |trajs| && Collected(trajs[..c]).Err?
    ensures Collected(trajs) == Err("zero-size array to reduction operation minimum")
      || Collected(trajs) == Collected(trajs[..c])
    decreases |trajs| - c
  {
    if c == |trajs| {
      assert trajs[..c] == trajs;
    } else {
      assert trajs[..c + 1][..c] == trajs[..c];
      CollectedErrPersists(trajs, c + 1);
    }
  }

  /** The binned line: the per-bin median point, or `None` (NaN) for an empty bin. */
  function BinLine(ps: seq<Point>, n: nat, median: seq<real> -> real): (line: seq<Option<XY>>)
    requires n >= 1
    ensures |line| == n
  {
    seq(n, i requires 0 <= i < n =>
      var m := BinPoints(ps, n, i);
      if |m| > 0 then Some(XY(median(Xs(m)), median(Ys(m)))) else None)
  }

  function SqLen(a: XY, b: XY): real
  {
    SqDist(a.x, a.y, b.x, b.y)
  }

  /** Python's `(i + 1) % n` and `(i - 1) % n` for 0 <= i < n. */
  function Next(i: int, n: int): int
  {
    if i + 1 == n then 0 else i + 1
  }

  function Prev(i: int, n: int): int
  {
    if i == 0 then n - 1 else i - 1
  }

  lemma NextPrevAreMod(i: int, n: int)
    requires 0 <= i < n
    ensures Next(i, n) == (i + 1) % n && Prev(i, n) == (i - 1) % n
    ensures Next(Prev(i, n), n) == i
  {
  }

  /** Squared distance from each point to the next (circularly), 0 when either is missing. */
  function JumpDistances(line: seq<Option<XY>>): (d: seq<real>)
    requires |line| >= 1
    ensures |d| == |line|
  {
    seq(|line|, i requires 0 <= i < |line| =>
      var j := Next(i, |line|);
      if line[i].Some? && line[j].Some? then SqLen(line[i].value, line[j].value) else 0.0)
  }

  /** A present point whose incoming or outgoing edge (both measured before
      any removal) exceeds `MaxJump` becomes missing. */
  function AfterJumps(line: seq<Option<XY>>): (r: seq<Option<XY>>)
    requires |line| >= 1
    ensures |r| == |line|
  {
    var d := JumpDistances(line);
    seq(|line|, i requires 0 <= i < |line| =>
      if line[i].Some? && (d[Prev(i, |line|)] > MaxJump * MaxJump || d[i] > MaxJump * MaxJump) then None
      else line[i])
  }

  lemma AfterJumpsAt(line: seq<Option<XY>>, i: int)
    requires |line| >= 1 && 0 <= i < |line|
    ensures var d := JumpDistances(line);
      AfterJumps(line)[i] == if line[i].Some? && (d[Prev(i, |line|)] > MaxJump * MaxJump || d[i] > MaxJump * MaxJump)
                             then None else line[i]
  {
  }

  /** Jump removal only removes points, and removes exactly the present
      points with a long edge on either side. */
  lemma AfterJumpsSpec(line: seq<Option<XY>>, i: int)
    requires |line| >= 1 && 0 <= i < |line|
    ensures line[i].None? ==> AfterJumps(line)[i].None?
    ensures var n := |line|; var prev := Prev(i, n); var next := Next(i, n);
      line[i].Some? ==>
        (AfterJumps(line)[i].None? <==>
           (line[prev].Some? && SqLen(line[prev].value, line[i].value) > MaxJump * MaxJump)
           || (line[next].Some? && SqLen(line[i].value, line[next].value) > MaxJump * MaxJump))
    ensures AfterJumps(line)[i].Some? ==> AfterJumps(line)[i] == line[i]
  {
    NextPrevAreMod(i, |line|);
  }

  /** Indices of the present points, ascending. */
  function ValidIndices(line: seq<Option<XY>>): (xs: seq<int>)
    ensures StrictlyIncreasing(xs)
    ensures forall i :: i in xs <==> 0 <= i < |line| && line[i].Some?
    ensures forall k :: 0 <= k < |xs| ==> 0 <= xs[k] < |line| && line[xs[k]].Some?
    decreases |line|
  {
    if line == [] then []
    else
      var rest := ValidIndices(line[..|line| - 1]);
      if line[|line| - 1].Some? then rest + [|line| - 1] else rest
  }

  function Lerp(a: XY, b: XY, t: real): XY
  {
    XY(a.x + (b.x - a.x) * t, a.y + (b.y - a.y) * t)
  }

  /** `np.interp(i, xs, fs)`: the end values outside [xs[0], xs[last]],
      linear between the two bracketing knots inside. */
  function InterpAt(i: int, xs: seq<int>, fs: seq<XY>): XY
    requires |xs| == |fs| > 0 && StrictlyIncreasing(xs)
  {
    if i <= xs[0] || |xs| == 1 then fs[0]
    else if i < xs[1] then Lerp(fs[0], fs[1], (i - xs[0]) as real / (xs[1] - xs[0]) as real)
    else InterpAt(i, xs[1..], fs[1..])
  }

  /** The interpolant passes through every knot and clamps to the end values. */
  lemma {:induction false} InterpAtSpec(i: int, xs: seq<int>, fs: seq<XY>)
    requires |xs| == |fs| > 0 && StrictlyIncreasing(xs)
    ensures forall k :: 0 <= k < |xs| && xs[k] == i ==> InterpAt(i, xs, fs) == fs[k]
    ensures i <= xs[0] ==> InterpAt(i, xs, fs) == fs[0]
    ensures i >= xs[|xs| - 1] ==> InterpAt(i, xs, fs) == fs[|fs| - 1]
  {
    if !(i <= xs[0] || |xs| == 1) && i >= xs[1] {
      InterpAtSpec(i, xs[1..], fs[1..]);
      forall k | 1 <= k < |xs| && xs[k] == i ensures InterpAt(i, xs, fs) == fs[k] {
        assert xs[1..][k - 1] == i;
      }
    }
  }

  function ValidValues(line: seq<Option<XY>>): (fs: seq<XY>)
    ensures |fs| == |ValidIndices(line)|
    ensures forall k :: 0 <= k < |fs| ==> Some(fs[k]) == line[ValidIndices(line)[k]]
  {
    var xs := ValidIndices(line);
    seq(|xs|, k requires 0 <= k < |xs| => line[xs[k]].value)
  }

  /** Fill the missing points by interpolation along the bin index. */
  function GapFill(line: seq<Option<XY>>): (r: seq<XY>)
    requires exists i :: 0 <= i < |line| && line[i].Some?
    ensures |r| == |line|
  {
    var xs := ValidIndices(line);
    SomePresentIndex(line);
    seq(|line|, j requires 0 <= j < |line| => InterpAt(j, xs, ValidValues(line)))
  }

  lemma SomePresentIndex(line: seq<Option<XY>>)
    requires exists i :: 0 <= i < |line| && line[i].Some?
    ensures |ValidIndices(line)| > 0
  {
    var i :| 0 <= i < |line| && line[i].Some?;
    assert i in ValidIndices(line);
  }

  /** Present points are kept; before the first and after the last present
      point the line is held at that point (no wrap-around). */
  lemma GapFillSpec(line: seq<Option<XY>>)
    requires exists i :: 0 <= i < |line| && line[i].Some?
    ensures var r := GapFill(line); var xs := ValidIndices(line);
      |xs| > 0
      && (forall i :: 0 <= i < |line| && line[i].Some? ==> r[i] == line[i].value)
      && (forall i :: 0 <= i <= xs[0] ==> Some(r[i]) == line[xs[0]])
      && (forall i :: xs[|xs| - 1] <= i < |line| ==> Some(r[i]) == line[xs[|xs| - 1]])
  {
    var r := GapFill(line);
    var xs := ValidIndices(line);
    SomePresentIndex(line);
    forall i | 0 <= i < |line| && line[i].Some? ensures r[i] == line[i].value {
      GapFillKept(line, i);
    }
    forall i | 0 <= i <= xs[0] ensures Some(r[i]) == line[xs[0]] {
      GapFillHead(line, i);
    }
    forall i | xs[|xs| - 1] <= i < |line| ensures Some(r[i]) == line[xs[|xs| - 1]] {
      GapFillTail(line, i);
    }
  }

  lemma GapFillKept(line: seq<Option<XY>>, i: int)
    requires exists i :: 0 <= i < |line| && line[i].Some?
    requires 0 <= i < |line| && line[i].Some?
    ensures GapFill(line)[i] == line[i].value
  {
    var xs := ValidIndices(line);
    var fs := ValidValues(line);
    GapFillAt(line, i);
    assert i in xs;
    var k :| 0 <= k < |xs| && xs[k] == i;
    InterpAtSpec(i, xs, fs);
    assert InterpAt(i, xs, fs) == fs[k];
    assert Some(fs[k]) == line[i];
  }

  lemma GapFillHead(line: seq<Option<XY>>, i: int)
    requires exists i :: 0 <= i < |line| && line[i].Some?
    requires 0 <= i < |line|
    ensures var xs := ValidIndices(line);
      |xs| > 0 && (i <= xs[0] ==> Some(GapFill(line)[i]) == line[xs[0]])
  {
    var xs := ValidIndices(line);
    var fs := ValidValues(line);
    GapFillAt(line, i);
    if i <= xs[0] {
      assert InterpAt(i, xs, fs) == fs[0];
      assert Some(fs[0]) == line[xs[0]];
    }
  }

  lemma GapFillTail(line: seq<Option<XY>>, i: int)
    requires exists i :: 0 <= i < |line| && line[i].Some?
    requires 0 <= i < |line|
    ensures var xs := ValidIndices(line);
      |xs| > 0 && (xs[|xs| - 1] <= i ==> Some(GapFill(line)[i]) == line[xs[|xs| - 1]])
  {
    var xs := ValidIndices(line);
    var fs := ValidValues(line);
    GapFillAt(line, i);
    if xs[|xs| - 1] <= i {
      InterpAtSpec(i, xs, fs);
      assert Some(fs[|fs| - 1]) == line[xs[|xs| - 1]];
    }
  }

  lemma GapFillAt(line: seq<Option<XY>>, i: int)
    requires exists i :: 0 <= i < |line| && line[i].Some?
    requires 0 <= i < |line|
    ensures |ValidIndices(line)| > 0
    ensures GapFill(line)[i] == InterpAt(i, ValidIndices(line), ValidValues(line))
  {
    SomePresentIndex(line);
  }

  function Zeros(n: nat): seq<XY>
  {
    seq(n, _ => XY(0.0, 0.0))
  }

  predicate AnyPresent(line: seq<Option<XY>>)
  {
    exists i :: 0 <= i < |line| && line[i].Some?
  }

  /** `compute_racing_line` up to, and not including, the Gaussian smoothing. */
  function RacingLine(trajs: seq<seq<TrajRow>>, n: nat, median: seq<real> -> real): Result<seq<XY>>
  {
    match Collected(trajs)
    case Err(e) => Err(e)
    case Ok(all) =>
      if |all| == 0 then Ok(Zeros(n))
      else
        var ps := MainTrack(all, median);
        if |ps| == 0 then Ok(Zeros(n))
        else if n == 0 then Err("No valid points in any bin - cannot compute racing line")
        else
          var line := AfterJumps(BinLine(ps, n, median));
          if AnyPresent(line) then Ok(GapFill(line))
          else Err("No valid points in any bin - cannot compute racing line")
  }

  /** Every successful result has one point per bin. */
  lemma RacingLineLength(trajs: seq<seq<TrajRow>>, n: nat, median: seq<real> -> real)
    ensures RacingLine(trajs, n, median).Ok? ==> |RacingLine(trajs, n, median).value| == n
  {
  }

  /** The bin-filling loop over `racing_line`. */
  method FillBins(line: array<Option<XY>>, ps: seq<Point>, median: seq<real> -> real)
    requires line.Length >= 1
    modifies line
    ensures line[..] == BinLine(ps, line.Length, median)
  {
    var n := line.Length;
    var i := 0;
    while i < n
      invariant 0 <= i <= n
      invariant forall k :: 0 <= k < i ==> line[k] == BinLine(ps, n, median)[k]
    {
      var m := BinPoints(ps, n, i);
      if |m| > 0 {
        line[i] := Some(XY(median(Xs(m)), median(Ys(m))));
      } else {
        line[i] := None;
      }
      i := i + 1;
    }
  }

  /** The loop filling `distances`. */
  method JumpDistanceArray(line: array<Option<XY>>) returns (dist: array<real>)
    requires line.Length >= 1
    ensures fresh(dist) && dist.Length == line.Length
    ensures forall k :: 0 <= k < dist.Length ==> dist[k] == JumpDistances(line[..])[k]
  {
    var n := line.Length;
    dist := new real[n](_ => 0.0);
    var i := 0;
    while i < n
      invariant 0 <= i <= n
      invariant forall k :: 0 <= k < i ==> dist[k] == JumpDistances(line[..])[k]
    {
      var next := Next(i, n);
      if line[i].Some? && line[next].Some? {
        dist[i] := SqLen(line[i].value, line[next].value);
      } else {
        dist[i] := 0.0;
      }
      i := i + 1;
    }
  }

  /** The marking loop: distances come from the line before any removal. */
  method RemoveJumps(line: array<Option<XY>>)
    requires line.Length >= 1
    modifies line
    ensures line[..] == AfterJumps(old(line[..]))
  {
    var n := line.Length;
    ghost var orig := line[..];
    var dist := JumpDistanceArray(line);
    var i := 0;
    while i < n
      invariant 0 <= i <= n
      invariant forall k :: 0 <= k < n ==> dist[k] == JumpDistances(orig)[k]
      invariant forall k :: 0 <= k < i ==> line[k] == AfterJumps(orig)[k]
      invariant forall k :: i <= k < n ==> line[k] == orig[k]
    {
      AfterJumpsAt(orig, i);
      var prev := Prev(i, n);
      if line[i].Some? && (dist[prev] > MaxJump * MaxJump || dist[i] > MaxJump * MaxJump) {
        line[i] := None;
      }
      i := i + 1;
    }
  }

  method ComputeRacingLine(trajs: seq<seq<TrajRow>>, n: nat, median: seq<real> -> real)
    returns (r: Result<seq<XY>>)
    ensures r == RacingLine(trajs, n, median)
  {
    var collected := CollectPoints(trajs);
    if collected.Err? {
      return Err(collected.msg);
    }
    var all := collected.value;
    if |all| == 0 {
      return Ok(Zeros(n));
    }
    var ps := FilterMainTrackPoints(all, median);
    if |ps| == 0 {
      return Ok(Zeros(n));
    }
    if n == 0 {
      return Err("No valid points in any bin - cannot compute racing line");
    }
    var line := new Option<XY>[n](_ => None);
    FillBins(line, ps, median);
    RemoveJumps(line);
    var binned := line[..];
    assert binned == AfterJumps(BinLine(ps, n, median));
    var valid := |ValidIndices(binned)|;
    if valid == 0 {
      assert !AnyPresent(binned) by {
        forall k | 0 <= k < n ensures binned[k].None? {
          assert k !in ValidIndices(binned);
        }
      }
      return Err("No valid points in any bin - cannot compute racing line");
    }
    assert ValidIndices(binned)[0] in ValidIndices(binned);
    return Ok(GapFill(binned));
  }
}
