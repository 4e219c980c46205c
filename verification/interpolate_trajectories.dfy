/** Resampling of one car's aligned telemetry onto the uniform 10 ms grid:
    the duplicate/grid guards, lap-reset detection on the interpolated lap
    distance, the in-place repair that makes lap distance monotone with a
    bounded step inside each lap, lap renumbering and the normalised
    acceleration column. The linear/nearest interpolators themselves are
    parameters (functions of grid time). */
module InterpolateTrajectories {
  import opened Common

  /** Maximum plausible lap-distance slope, metres per second. */
  const MaxSlope: real := 120.0
  /** A lap reset needs a drop of more than this many metres ... */
  const ResetDrop: real := 100.0
  /** ... to a value below this many metres. */
  const ResetBelow: real := 500.0
  /** Acceleration magnitudes are clipped to this many m/s^2, then scaled to [0, 1]. */
  const AccelClip: real := 12.0

  // ---------------------------------------------------------------------
  // Sorted distinct timestamps (drop_duplicates on rel_time + sort_values)
  // ---------------------------------------------------------------------

  function Insert(x: real, s: seq<real>): (r: seq<real>)
    requires StrictlyIncreasingReal(s)
    ensures StrictlyIncreasingReal(r)
    ensures forall y :: y in r <==> y in s || y == x
  {
    if s == [] then [x]
    else if x < s[0] then [x] + s
    else if x == s[0] then s
    else
      var t := Insert(x, s[1..]);
      assert forall y :: y in s <==> y == s[0] || y in s[1..];
      assert forall k :: 0 <= k < |t| ==> s[0] < t[k] by {
        forall k | 0 <= k < |t| ensures s[0] < t[k] {
          assert t[k] in t;
        }
      }
      [s[0]] + t
  }

  /** The distinct values of `t` in ascending order. */
  function SortedDistinct(t: seq<real>): (r: seq<real>)
    ensures StrictlyIncreasingReal(r)
    ensures forall y :: y in r <==> y in t
    ensures |r| <= |t|
  {
    if t == [] then []
    else
      var rest := SortedDistinct(t[1..]);
      assert forall y :: y in t <==> y == t[0] || y in t[1..];
      var r := Insert(t[0], rest);
      assert |r| <= |rest| + 1 by { InsertLength(t[0], rest); }
      r
  }

  lemma {:induction false} InsertLength(x: real, s: seq<real>)
    requires StrictlyIncreasingReal(s)
    ensures |Insert(x, s)| <= |s| + 1
    ensures x in s ==> |Insert(x, s)| == |s|
  {
    if s != [] && x > s[0] {
      InsertLength(x, s[1..]);
    }
  }

  // ---------------------------------------------------------------------
  // Uniform time grid: np.arange(0, t_last, dt_s)
  // ---------------------------------------------------------------------

  /** Number of points k * dtS with k >= 0 and k * dtS < tLast. */
  function GridLength(tLast: real, dtS: real): (n: nat)
    requires dtS > 0.0
    ensures n as real * dtS >= tLast
    ensures n > 0 ==> (n - 1) as real * dtS < tLast
  {
    if tLast <= 0.0 then 0
    else
      var x := tLast / dtS;
      var n := -((-x).Floor);
      assert x <= n as real < x + 1.0;
      assert x * dtS == tLast;
      assert (n as real - x) * dtS >= 0.0;
      assert (x - (n - 1) as real) * dtS > 0.0;
      n
  }

  /** The grid `np.arange(0, tLast, dtS)`, in seconds. */
  function Grid(tLast: real, dtS: real): (g: seq<real>)
    requires dtS > 0.0
    ensures |g| == GridLength(tLast, dtS)
    ensures forall k :: 0 <= k < |g| ==> g[k] == k as real * dtS
  {
    seq(GridLength(tLast, dtS), k => k as real * dtS)
  }

  /** Every grid point lies in [0, tLast), consecutive points are dtS apart,
      and no further multiple of dtS below tLast was left out. */
  lemma GridCoversRange(tLast: real, dtS: real)
    requires dtS > 0.0
    ensures var g := Grid(tLast, dtS);
      (forall k :: 0 <= k < |g| ==> 0.0 <= g[k] < tLast)
      && (forall k :: 0 < k < |g| ==> g[k] - g[k - 1] == dtS)
      && |g| as real * dtS >= tLast
  {
    GridWithin(tLast, dtS);
    GridSpaced(tLast, dtS);
  }

  lemma GridWithin(tLast: real, dtS: real)
    requires dtS > 0.0
    ensures var g := Grid(tLast, dtS); forall k :: 0 <= k < |g| ==> 0.0 <= g[k] < tLast
  {
    var g := Grid(tLast, dtS);
    forall k | 0 <= k < |g| ensures 0.0 <= g[k] < tLast {
      GridPointBelow(k, |g|, dtS, tLast);
    }
  }

  lemma GridSpaced(tLast: real, dtS: real)
    requires dtS > 0.0
    ensures var g := Grid(tLast, dtS); forall k :: 0 < k < |g| ==> g[k] - g[k - 1] == dtS
  {
    var g := Grid(tLast, dtS);
    forall k | 0 < k < |g| ensures g[k] - g[k - 1] == dtS {
      GridStep(k, dtS);
    }
  }

  lemma GridPointBelow(k: nat, n: nat, dtS: real, tLast: real)
    requires k < n && dtS > 0.0 && (n - 1) as real * dtS < tLast
    ensures 0.0 <= k as real * dtS < tLast
  {
    assert (n - 1) as real * dtS - k as real * dtS == (n - 1 - k) as real * dtS;
    assert (n - 1 - k) as real * dtS >= 0.0;
    assert k as real * dtS >= 0.0;
  }

  lemma GridStep(k: nat, dtS: real)
    requires k > 0
    ensures k as real * dtS - (k - 1) as real * dtS == dtS
  {
  }

  // ---------------------------------------------------------------------
  // Lap-reset detection on the unrepaired interpolated lap distance
  // ---------------------------------------------------------------------

  /** Sample i is the first sample of a new lap. */
  predicate IsReset(ld: seq<real>, i: int)
  {
    1 <= i < |ld| && ld[i] < ld[i - 1] - ResetDrop && ld[i] < ResetBelow
  }

  function ResetAt(ld: seq<real>): int -> bool
  {
    (i: int) => IsReset(ld, i)
  }

  /** The reset indices below k, in ascending order. */
  function ResetsBelow(ld: seq<real>, k: int): seq<int>
    requires k <= |ld|
  {
    IndicesWhere(k, ResetAt(ld))
  }

  function ResetIndices(ld: seq<real>): seq<int>
  {
    ResetsBelow(ld, |ld|)
  }

  lemma ResetsBelowSpec(ld: seq<real>, k: int)
    requires k <= |ld|
    ensures forall x :: x in ResetsBelow(ld, k) <==> 1 <= x < k && IsReset(ld, x)
    ensures StrictlyIncreasing(ResetsBelow(ld, k))
  {
    IndicesWhereSpec(k, ResetAt(ld));
  }

  /** The reset list holds exactly the resets, ascending, each in [1, n). */
  lemma ResetIndicesSpec(ld: seq<real>)
    ensures forall x :: x in ResetIndices(ld) <==> IsReset(ld, x)
    ensures StrictlyIncreasing(ResetIndices(ld))
    ensures forall x :: x in ResetIndices(ld) ==> 1 <= x < |ld|
  {
    ResetsBelowSpec(ld, |ld|);
  }

  /** `[0] + resets + [n]`. */
  function LapBoundaries(resets: seq<int>, n: int): seq<int>
  {
    [0] + resets + [n]
  }

  /** With n >= 1 the boundaries are strictly increasing, start at 0 and end at n. */
  lemma BoundariesIncreasing(ld: seq<real>)
    requires |ld| >= 1
    ensures var b := LapBoundaries(ResetIndices(ld), |ld|);
      StrictlyIncreasing(b) && b[0] == 0 && b[|b| - 1] == |ld|
  {
    ResetIndicesSpec(ld);
    var r := ResetIndices(ld);
    var b := LapBoundaries(r, |ld|);
    forall i, j | 0 <= i < j < |b| ensures b[i] < b[j] {
      if i == 0 {
        if j < |b| - 1 { assert b[j] == r[j - 1] && r[j - 1] in r; }
      } else if j == |b| - 1 {
        assert b[i] == r[i - 1] && r[i - 1] in r;
      } else {
        assert b[i] == r[i - 1] && b[j] == r[j - 1];
      }
    }
  }

  method DetectResets(ld: array<real>) returns (resets: seq<int>)
    ensures resets == ResetIndices(ld[..])
    ensures StrictlyIncreasing(resets)
    ensures forall x :: x in resets <==> IsReset(ld[..], x)
  {
    resets := [];
    var i := 1;
    while i < ld.Length
      invariant 1 <= i
      invariant i <= ld.Length || ld.Length == 0
      invariant resets == ResetsBelow(ld[..], if i <= ld.Length then i else ld.Length)
    {
      if ld[i] < ld[i - 1] - ResetDrop && ld[i] < ResetBelow {
        resets := resets + [i];
      }
      i := i + 1;
    }
    ResetIndicesSpec(ld[..]);
  }

  // ---------------------------------------------------------------------
  // The in-place repair
  // ---------------------------------------------------------------------

  /** One repair step: raise to the repaired predecessor, then cap the rise. */
  function Step(prev: real, v: real, maxDiff: real): real
  {
    var w := if v < prev then prev else v;
    if w - prev > maxDiff then prev + maxDiff else w
  }

  predicate IsSegmentStart(resets: seq<int>, i: int)
  {
    i == 0 || i in resets
  }

  /** The lap distance after the repair: left to right, every sample that is
      not a segment start is stepped against its already repaired predecessor. */
  function Repaired(s: seq<real>, resets: seq<int>, maxDiff: real): (r: seq<real>)
    ensures |r| == |s|
  {
    if |s| == 0 then []
    else
      var p := Repaired(s[..|s| - 1], resets, maxDiff);
      var i := |s| - 1;
      p + [if IsSegmentStart(resets, i) then s[i] else Step(p[i - 1], s[i], maxDiff)]
  }

  lemma {:induction false} RepairedPrefix(s: seq<real>, resets: seq<int>, maxDiff: real, k: nat)
    requires k <= |s|
    ensures Repaired(s[..k], resets, maxDiff) == Repaired(s, resets, maxDiff)[..k]
    decreases |s| - k
  {
    if k < |s| {
      var s' := s[..|s| - 1];
      RepairedPrefix(s', resets, maxDiff, k);
      assert s'[..k] == s[..k];
    } else {
      assert s[..k] == s;
    }
  }

  lemma RepairedAt(s: seq<real>, resets: seq<int>, maxDiff: real, i: nat)
    requires i < |s|
    ensures var r := Repaired(s, resets, maxDiff);
      r[i] == if IsSegmentStart(resets, i) then s[i] else Step(r[i - 1], s[i], maxDiff)
  {
    RepairedPrefix(s, resets, maxDiff, i + 1);
    assert s[..i + 1][..i] == s[..i];
  }

  /** Inside each lap segment the repaired lap distance is non-decreasing and
      rises by at most maxDiff per sample. */
  lemma RepairedMonotoneBounded(s: seq<real>, resets: seq<int>, maxDiff: real, i: nat)
    requires maxDiff >= 0.0
    requires i < |s| && !IsSegmentStart(resets, i)
    ensures var r := Repaired(s, resets, maxDiff); r[i - 1] <= r[i] <= r[i - 1] + maxDiff
  {
    RepairedAt(s, resets, maxDiff, i);
  }

  /** Segment starts are never modified. */
  lemma RepairedKeepsStarts(s: seq<real>, resets: seq<int>, maxDiff: real, i: nat)
    requires i < |s| && IsSegmentStart(resets, i)
    ensures Repaired(s, resets, maxDiff)[i] == s[i]
  {
    RepairedAt(s, resets, maxDiff, i);
  }

  predicate WithinSteps(s: seq<real>, resets: seq<int>, maxDiff: real)
  {
    forall i :: 1 <= i < |s| && !IsSegmentStart(resets, i) ==> s[i - 1] <= s[i] <= s[i - 1] + maxDiff
  }

  /** A sequence already inside the bounds is left as it is. */
  lemma {:induction false} RepairedFixesWithin(s: seq<real>, resets: seq<int>, maxDiff: real)
    requires WithinSteps(s, resets, maxDiff)
    ensures Repaired(s, resets, maxDiff) == s
  {
    if |s| > 0 {
      var i := |s| - 1;
      var s' := s[..i];
      assert WithinSteps(s', resets, maxDiff) by {
        forall k | 1 <= k < |s'| && !IsSegmentStart(resets, k) ensures s'[k - 1] <= s'[k] <= s'[k - 1] + maxDiff {
          assert s'[k - 1] == s[k - 1] && s'[k] == s[k];
        }
      }
      RepairedFixesWithin(s', resets, maxDiff);
      if !IsSegmentStart(resets, i) {
        StepWithin(s[i - 1], s[i], maxDiff);
      }
      assert s == s' + [s[i]];
    }
  }

  lemma StepWithin(prev: real, v: real, maxDiff: real)
    requires prev <= v <= prev + maxDiff
    ensures Step(prev, v, maxDiff) == v
  {
  }

  /** Repairing twice with the same boundaries changes nothing more. */
  lemma RepairIdempotent(s: seq<real>, resets: seq<int>, maxDiff: real)
    requires maxDiff >= 0.0
    ensures var r := Repaired(s, resets, maxDiff); Repaired(r, resets, maxDiff) == r
  {
    var r := Repaired(s, resets, maxDiff);
    forall i | 1 <= i < |r| && !IsSegmentStart(resets, i)
      ensures r[i - 1] <= r[i] <= r[i - 1] + maxDiff
    {
      RepairedMonotoneBounded(s, resets, maxDiff, i);
    }
    RepairedFixesWithin(r, resets, maxDiff);
  }

  lemma BetweenBoundariesNotStart(resets: seq<int>, n: int, j: int, i: int)
    requires StrictlyIncreasing(LapBoundaries(resets, n))
    requires 0 <= j < |resets| + 1
    requires LapBoundaries(resets, n)[j] < i < LapBoundaries(resets, n)[j + 1]
    ensures !IsSegmentStart(resets, i)
  {
    var b := LapBoundaries(resets, n);
    if j > 0 { assert b[0] < b[j]; }
    forall k | 0 <= k < |resets| ensures resets[k] != i {
      assert b[k + 1] == resets[k];
      if k + 1 <= j { assert b[k + 1] <= b[j]; } else { assert b[k + 1] >= b[j + 1]; }
    }
  }

  /** The inner loop of the repair: fix samples start+1 .. end-1 in place. */
  method RepairSegment(ld: array<real>, ghost orig: seq<real>, resets: seq<int>, maxDiff: real,
                       start: int, end: int)
    requires |orig| == ld.Length && 0 <= start < end <= ld.Length
    requires forall i :: start < i < end ==> !IsSegmentStart(resets, i)
    requires forall k :: 0 <= k <= start ==> ld[k] == Repaired(orig, resets, maxDiff)[k]
    requires forall k :: start < k < ld.Length ==> ld[k] == orig[k]
    modifies ld
    ensures forall k :: 0 <= k < end ==> ld[k] == Repaired(orig, resets, maxDiff)[k]
    ensures forall k :: end <= k < ld.Length ==> ld[k] == orig[k]
  {
    ghost var R := Repaired(orig, resets, maxDiff);
    var i := start + 1;
    while i < end
      invariant start + 1 <= i <= end
      invariant forall k :: 0 <= k < i ==> ld[k] == R[k]
      invariant forall k :: i <= k < ld.Length ==> ld[k] == orig[k]
    {
      RepairedAt(orig, resets, maxDiff, i);
      if ld[i] < ld[i - 1] {
        ld[i] := ld[i - 1];
      }
      var diff := ld[i] - ld[i - 1];
      if diff > maxDiff {
        ld[i] := ld[i - 1] + maxDiff;
      }
      i := i + 1;
    }
  }

  /** Lap-distance repair as the source performs it: detect resets on the
      unrepaired values, then walk each segment and fix samples in place. */
  method RepairLapDist(ld: array<real>, dtS: real) returns (resets: seq<int>)
    requires ld.Length >= 1
    modifies ld
    ensures resets == ResetIndices(old(ld[..]))
    ensures ld[..] == Repaired(old(ld[..]), resets, MaxSlope * dtS)
  {
    resets := DetectResets(ld);
    ghost var orig := ld[..];
    var n := ld.Length;
    var maxDiff := MaxSlope * dtS;
    ghost var R := Repaired(orig, resets, maxDiff);
    var bounds := [0] + resets + [n];
    BoundariesIncreasing(orig);
    assert bounds == LapBoundaries(resets, n);
    var j := 0;
    while j < |bounds| - 1
      invariant 0 <= j <= |bounds| - 1
      invariant forall k :: 0 <= k < bounds[j] ==> ld[k] == R[k]
      invariant forall k :: bounds[j] <= k < n ==> ld[k] == orig[k]
    {
      var start := bounds[j];
      var end := bounds[j + 1];
      assert start < end <= n;
      // The segment start keeps its value.
      assert IsSegmentStart(resets, start) by {
        if j > 0 { assert start == resets[j - 1]; }
      }
      RepairedKeepsStarts(orig, resets, maxDiff, start);
      forall i | start < i < end ensures !IsSegmentStart(resets, i) {
        BetweenBoundariesNotStart(resets, n, j, i);
      }
      RepairSegment(ld, orig, resets, maxDiff, start, end);
      j := j + 1;
    }
    assert bounds[j] == n;
  }

  // ---------------------------------------------------------------------
  // Lap renumbering and acceleration normalisation
  // ---------------------------------------------------------------------

  /** `lap - min_lap + 1` when the smallest lap exceeds 1, otherwise unchanged. */
  function NormaliseLaps(laps: seq<real>): (r: seq<real>)
    requires |laps| > 0
    ensures |r| == |laps|
  {
    var m := MinOf(laps);
    if m > 1.0 then seq(|laps|, i requires 0 <= i < |laps| => laps[i] - m + 1.0) else laps
  }

  /** After renumbering the first lap is numbered 1 whenever it was above 1,
      lap differences are preserved, and laps already starting at or below 1
      are untouched. */
  lemma NormaliseLapsSpec(laps: seq<real>)
    requires |laps| > 0
    ensures var r := NormaliseLaps(laps);
      (MinOf(laps) > 1.0 ==> MinOf(r) == 1.0)
      && (MinOf(laps) <= 1.0 ==> r == laps)
      && (forall i, j :: 0 <= i < |r| && 0 <= j < |r| ==> r[i] - r[j] == laps[i] - laps[j])
  {
    var m := MinOf(laps);
    var r := NormaliseLaps(laps);
    if m > 1.0 {
      var k :| 0 <= k < |laps| && laps[k] == m;
      assert r[k] == 1.0;
      forall i | 0 <= i < |r| ensures 1.0 <= r[i] {
        assert laps[i] in laps;
      }
      var mr := MinOf(r);
      assert r[k] in r;
      var q :| 0 <= q < |r| && r[q] == mr;
    }
  }

  /** `clip(mag, 0, 12) / 12`. */
  function AccelNorm(mag: real): (a: real)
    ensures 0.0 <= a <= 1.0
    ensures a == 1.0 <==> mag >= AccelClip
    ensures a == 0.0 <==> mag <= 0.0
  {
    ClampReal(mag, 0.0, AccelClip) / AccelClip
  }

  // ---------------------------------------------------------------------
  // The whole resampling step
  // ---------------------------------------------------------------------

  /** The columns of the resampled trajectory that carry logic of their own. */
  datatype Trajectory = Trajectory(grid: seq<real>, lapdist: seq<real>, lap: seq<real>, accelNorm: seq<real>)

  function Sample(g: seq<real>, f: real -> real): (r: seq<real>)
    ensures |r| == |g| && forall k :: 0 <= k < |g| ==> r[k] == f(g[k])
  {
    seq(|g|, k requires 0 <= k < |g| => f(g[k]))
  }

  /** The grid the source builds for these relative times, or [] when fewer
      than two distinct times exist. */
  function GridFor(relTimes: seq<real>, dtMs: int): seq<real>
    requires dtMs > 0
  {
    var t := SortedDistinct(relTimes);
    if |t| < 2 then [] else Grid(t[|t| - 1], dtMs as real / 1000.0)
  }

  /** Resample one car. `lapdistAt` and `lapAt` are the fitted linear and
      nearest interpolators of the lap-distance and lap columns (None when the
      lap column is absent); `accelMagAt` gives the interpolated acceleration
      magnitude. Returns None where the source returns (None, None). */
  method InterpolateTrajectory(relTimes: seq<real>, dtMs: int, lapdistAt: real -> real,
                               lapAt: Option<real -> real>, accelMagAt: real -> real)
    returns (r: Option<Trajectory>)
    requires dtMs > 0
    ensures r.None? <==> |SortedDistinct(relTimes)| < 2 || |GridFor(relTimes, dtMs)| < 2
    ensures r.Some? ==> TrajectoryOn(r.value, GridFor(relTimes, dtMs), dtMs, lapdistAt, lapAt, accelMagAt)
  {
    var t := SortedDistinct(relTimes);
    if |t| < 2 {
      return None;
    }
    var g := GridFor(relTimes, dtMs);
    if |g| < 2 {
      return None;
    }
    var tr := TrajectoryAt(g, dtMs, lapdistAt, lapAt, accelMagAt);
    r := Some(tr);
  }

  /** The columns of a trajectory on a non-empty grid. */
  method TrajectoryAt(g: seq<real>, dtMs: int, lapdistAt: real -> real,
                      lapAt: Option<real -> real>, accelMagAt: real -> real)
    returns (tr: Trajectory)
    requires |g| > 0
    ensures TrajectoryOn(tr, g, dtMs, lapdistAt, lapAt, accelMagAt)
  {
    var lap, accel := LapColumn(g, lapAt), AccelColumn(g, accelMagAt);
    var lapdist := RepairedSamples(Sample(g, lapdistAt), dtMs as real / 1000.0);
    tr := Trajectory(g, lapdist, lap, accel);
  }

  function AccelColumn(g: seq<real>, accelMagAt: real -> real): (a: seq<real>)
    ensures AccelOn(a, g, accelMagAt)
  {
    seq(|g|, k requires 0 <= k < |g| => AccelNorm(accelMagAt(g[k])))
  }

  predicate AccelOn(a: seq<real>, g: seq<real>, accelMagAt: real -> real)
  {
    |a| == |g| && forall k :: 0 <= k < |g| ==> a[k] == AccelNorm(accelMagAt(g[k]))
  }

  /** The trajectory on grid g: the sampled lap distance repaired with the
      slope cap for the grid step, the lap column, and the normalised
      acceleration at every grid time. */
  predicate TrajectoryOn(tr: Trajectory, g: seq<real>, dtMs: int, lapdistAt: real -> real,
                         lapAt: Option<real -> real>, accelMagAt: real -> real)
    requires |g| > 0
  {
    tr.grid == g
    && RepairedOf(tr.lapdist, Sample(g, lapdistAt), dtMs as real / 1000.0)
    && tr.lap == LapColumn(g, lapAt)
    && AccelOn(tr.accelNorm, g, accelMagAt)
  }

  /** The lap column: the renumbered interpolated laps, or all 1 when the
      source has no lap column. */
  function LapColumn(g: seq<real>, lapAt: Option<real -> real>): (lap: seq<real>)
    requires |g| > 0
    ensures |lap| == |g|
  {
    if lapAt.Some? then NormaliseLaps(Sample(g, lapAt.value)) else seq(|g|, _ => 1.0)
  }

  /** The repaired lap distance for samples taken dtS seconds apart. */
  predicate RepairedOf(lapdist: seq<real>, raw: seq<real>, dtS: real)
  {
    lapdist == Repaired(raw, ResetIndices(raw), MaxSlope * dtS)
  }

  /** The sampled lap distance copied into a fresh array and repaired there. */
  method RepairedSamples(raw: seq<real>, dtS: real) returns (lapdist: seq<real>)
    requires |raw| >= 1
    ensures RepairedOf(lapdist, raw, dtS)
  {
    var ld := new real[|raw|](k requires 0 <= k < |raw| => raw[k]);
    assert ld[..] == raw;
    var resets := RepairLapDist(ld, dtS);
    lapdist := ld[..];
  }
}
