/** The state the world model fills once at load time and updates from the
    UI: lap starts per car, sector and lap times, personal and fleet best
    sectors, and the selected cars. Times are in seconds; a best sector of
    `None` is Python's `float('inf')`. */
module WorldModelState {
  import opened Common
  import WorldModel

  datatype SectorBound = SectorBound(startDist: real, endDist: real)

  /** The number of best-sector slots the source allocates. */
  const BestSlots: nat := 3
  const MinLapSamples: nat := 10

  /** The first sample of the lap whose lapdist reaches d. */
  function FirstAtLeast(ld: seq<real>, d: real): (r: Option<nat>)
    ensures r.Some? ==> r.value < |ld| && ld[r.value] >= d && forall j :: 0 <= j < r.value ==> ld[j] < d
    ensures r.None? ==> forall j :: 0 <= j < |ld| ==> ld[j] < d
  {
    if ld == [] then None
    else
      match FirstAtLeast(ld[..|ld| - 1], d)
      case Some(i) => Some(i)
      case None => if ld[|ld| - 1] >= d then Some(|ld| - 1) else None
  }

  /** The sector pass over one lap starting at sample `lapStart`: sector k
      ends at the first sample reaching its end distance and lasts from the
      previous resolved end (initially the lap start) in 10 ms steps; `last`
      is the sample index of the last resolved end. */
  datatype Pass = Pass(times: seq<Option<real>>, last: int)

  function SectorPass(ld: seq<real>, bounds: seq<SectorBound>, lapStart: int): (p: Pass)
    ensures |p.times| == |bounds|
  {
    if bounds == [] then Pass([], lapStart)
    else
      var prev := SectorPass(ld, bounds[..|bounds| - 1], lapStart);
      match FirstAtLeast(ld, bounds[|bounds| - 1].endDist)
      case None => Pass(prev.times + [None], prev.last)
      case Some(e) =>
        Pass(prev.times + [Some(((lapStart + e - prev.last) * 10) as real / 1000.0)], lapStart + e)
  }

  predicate AllResolved(times: seq<Option<real>>)
  {
    forall k :: 0 <= k < |times| ==> times[k].Some?
  }

  function Values(times: seq<Option<real>>): (vs: seq<real>)
    requires AllResolved(times)
    ensures |vs| == |times| && forall k :: 0 <= k < |times| ==> vs[k] == times[k].value
  {
    seq(|times|, k requires 0 <= k < |times| => times[k].value)
  }

  /** When every sector resolves, the sector times telescope: the lap time
      is the time from the lap start to the last sector's end. */
  lemma {:induction false} SectorPassTelescopes(ld: seq<real>, bounds: seq<SectorBound>, lapStart: int)
    requires AllResolved(SectorPass(ld, bounds, lapStart).times)
    ensures var p := SectorPass(ld, bounds, lapStart);
      SumReal(Values(p.times)) == ((p.last - lapStart) * 10) as real / 1000.0
  {
    if bounds != [] {
      var b := bounds[..|bounds| - 1];
      var prev := SectorPass(ld, b, lapStart);
      var p := SectorPass(ld, bounds, lapStart);
      assert prev.times == p.times[..|b|];
      SectorPassTelescopes(ld, b, lapStart);
      assert Values(p.times)[..|b|] == Values(prev.times);
    }
  }

  predicate NonDecreasingEnds(bounds: seq<SectorBound>)
  {
    forall i, j :: 0 <= i < j < |bounds| ==> bounds[i].endDist <= bounds[j].endDist
  }

  /** With non-decreasing sector end distances every resolved sector
      time is non-negative, and the last resolved end never precedes the
      lap start. */
  lemma {:induction false} SectorPassNonNegative(ld: seq<real>, bounds: seq<SectorBound>, lapStart: int)
    requires NonDecreasingEnds(bounds)
    ensures PassSound(ld, bounds, lapStart, SectorPass(ld, bounds, lapStart))
  {
    if bounds != [] {
      var b := bounds[..|bounds| - 1];
      assert NonDecreasingEnds(b);
      SectorPassNonNegative(ld, b, lapStart);
      var last := bounds[|bounds| - 1];
      match FirstAtLeast(ld, last.endDist)
      case None => PassSoundNoEnd(ld, bounds, lapStart);
      case Some(e) => PassSoundEnd(ld, bounds, lapStart, e);
    }
  }

  /** A last sector that never ends keeps the pass sound. */
  lemma PassSoundNoEnd(ld: seq<real>, bounds: seq<SectorBound>, lapStart: int)
    requires bounds != [] && NonDecreasingEnds(bounds)
    requires FirstAtLeast(ld, bounds[|bounds| - 1].endDist).None?
    requires PassSound(ld, bounds[..|bounds| - 1], lapStart, SectorPass(ld, bounds[..|bounds| - 1], lapStart))
    ensures PassSound(ld, bounds, lapStart, SectorPass(ld, bounds, lapStart))
  {
    var b := bounds[..|bounds| - 1];
    var prev := SectorPass(ld, b, lapStart);
    assert SectorPass(ld, bounds, lapStart) == Pass(prev.times + [None], prev.last);
    if b != [] {
      assert b[|b| - 1].endDist <= bounds[|bounds| - 1].endDist;
    }
  }

  /** A last sector ending at sample e adds a non-negative time and moves
      the last end to it. */
  lemma PassSoundEnd(ld: seq<real>, bounds: seq<SectorBound>, lapStart: int, e: nat)
    requires bounds != [] && NonDecreasingEnds(bounds)
    requires FirstAtLeast(ld, bounds[|bounds| - 1].endDist) == Some(e)
    requires PassSound(ld, bounds[..|bounds| - 1], lapStart, SectorPass(ld, bounds[..|bounds| - 1], lapStart))
    ensures PassSound(ld, bounds, lapStart, SectorPass(ld, bounds, lapStart))
  {
    var b := bounds[..|bounds| - 1];
    var prev := SectorPass(ld, b, lapStart);
    var last := bounds[|bounds| - 1];
    if prev.last > lapStart {
      assert b != [] && b[|b| - 1].endDist <= last.endDist;
      assert ld[e] >= last.endDist;
    }
    assert lapStart + e >= prev.last;
    var p := SectorPass(ld, bounds, lapStart);
    assert p == Pass(prev.times + [Some(((lapStart + e - prev.last) * 10) as real / 1000.0)], lapStart + e);
  }

  /** A sector pass whose resolved times are all non-negative and whose
      last resolved end lies between the lap start and the lap's end, with
      every sample before it short of the last sector's end distance. */
  predicate PassSound(ld: seq<real>, bounds: seq<SectorBound>, lapStart: int, p: Pass)
  {
    lapStart <= p.last <= lapStart + |ld|
    && (bounds == [] ==> p.last == lapStart)
    && (bounds != [] ==> forall j :: 0 <= j < p.last - lapStart ==> ld[j] < bounds[|bounds| - 1].endDist)
    && forall k :: 0 <= k < |p.times| && p.times[k].Some? ==> p.times[k].value >= 0.0
  }

  /** Widen each best sector by a lap's resolved times. */
  function Improve(best: seq<Option<real>>, times: seq<Option<real>>): (r: seq<Option<real>>)
    requires |times| <= |best|
    ensures |r| == |best|
  {
    seq(|best|, k requires 0 <= k < |best| =>
      if k < |times| && times[k].Some? && (best[k].None? || times[k].value < best[k].value) then times[k] else best[k])
  }

  /** An improved best is never worse than before nor than any resolved
      time of the lap, and is always one of the two. */
  lemma ImproveSpec(best: seq<Option<real>>, times: seq<Option<real>>)
    requires |times| <= |best|
    ensures var r := Improve(best, times);
      forall k :: 0 <= k < |best| ==>
        (r[k] == best[k] || (k < |times| && r[k] == times[k]))
        && (best[k].Some? ==> r[k].Some? && r[k].value <= best[k].value)
        && (k < |times| && times[k].Some? ==> r[k].Some? && r[k].value <= times[k].value)
  {
  }

  /** What `_compute_car_sector_times` records for one car. */
  datatype CarTimes = CarTimes(sectorTimes: map<int, seq<real>>, lapTimes: seq<real>, best: seq<Option<real>>)

  function InfBest(): seq<Option<real>> { [None, None, None] }

  /** The lap slice between consecutive starts. */
  function LapSlice(ld: seq<real>, starts: seq<int>, li: int): seq<real>
    requires 0 <= li < |starts| - 1 && 0 <= starts[li] <= starts[li + 1] <= |ld|
  {
    ld[starts[li]..starts[li + 1]]
  }

  predicate ValidStarts(ld: seq<real>, starts: seq<int>)
  {
    forall k :: 0 <= k < |starts| ==> 0 <= starts[k] <= |ld|
  }

  predicate Ordered(starts: seq<int>)
  {
    forall i, j :: 0 <= i < j < |starts| ==> starts[i] <= starts[j]
  }

  /** One lap of the loop: laps under 10 samples are skipped; otherwise
      the resolved sectors improve the bests and a fully resolved lap is
      recorded under its 1-based number with the sum as its lap time. */
  function LapStep(acc: CarTimes, ld: seq<real>, starts: seq<int>, li: int, bounds: seq<SectorBound>): CarTimes
    requires ValidStarts(ld, starts) && Ordered(starts) && 0 <= li < |starts| - 1 && |bounds| <= BestSlots
    requires |acc.best| == BestSlots
  {
    var lap := LapSlice(ld, starts, li);
    if |lap| < MinLapSamples then acc
    else
      var pass := SectorPass(lap, bounds, starts[li]);
      var best := Improve(acc.best, pass.times);
      if AllResolved(pass.times) then
        CarTimes(acc.sectorTimes[li + 1 := Values(pass.times)], acc.lapTimes + [SumReal(Values(pass.times))], best)
      else CarTimes(acc.sectorTimes, acc.lapTimes, best)
  }

  /** The number of laps between the lap starts: one fewer than the starts. */
  function LapCount(starts: seq<int>): (n: nat)
    requires |starts| >= 1
    ensures n < |starts| && n + 1 == |starts|
  {
    |starts| - 1
  }

  /** The first m laps folded. */
  function CarTimesUpTo(ld: seq<real>, starts: seq<int>, m: nat, bounds: seq<SectorBound>): (c: CarTimes)
    requires ValidStarts(ld, starts) && Ordered(starts) && m < |starts| && |bounds| <= BestSlots
    ensures |c.best| == BestSlots
  {
    if m == 0 then CarTimes(map[], [], InfBest())
    else LapStep(CarTimesUpTo(ld, starts, m - 1, bounds), ld, starts, m - 1, bounds)
  }

  /** Lap n (1-based) has at least 10 samples and every sector resolves. */
  predicate Recordable(ld: seq<real>, starts: seq<int>, bounds: seq<SectorBound>, n: int)
    requires ValidStarts(ld, starts) && Ordered(starts)
  {
    1 <= n < |starts|
    && |LapSlice(ld, starts, n - 1)| >= MinLapSamples
    && AllResolved(SectorPass(LapSlice(ld, starts, n - 1), bounds, starts[n - 1]).times)
  }

  /** The sector times of a recordable lap. */
  function LapSectorTimes(ld: seq<real>, starts: seq<int>, bounds: seq<SectorBound>, n: int): seq<real>
    requires ValidStarts(ld, starts) && Ordered(starts) && Recordable(ld, starts, bounds, n)
  {
    Values(SectorPass(LapSlice(ld, starts, n - 1), bounds, starts[n - 1]).times)
  }

  /** One lap adds its sector table entry exactly when it is recordable. */
  lemma SectorTableStep(ld: seq<real>, starts: seq<int>, m: nat, bounds: seq<SectorBound>)
    requires ValidStarts(ld, starts) && Ordered(starts) && 0 < m < |starts| && |bounds| <= BestSlots
    ensures var prev := CarTimesUpTo(ld, starts, m - 1, bounds).sectorTimes;
      CarTimesUpTo(ld, starts, m, bounds).sectorTimes
        == if Recordable(ld, starts, bounds, m) then prev[m := LapSectorTimes(ld, starts, bounds, m)] else prev
  {
  }

  /** Recorded laps are exactly the laps of at least 10 samples whose
      every sector resolves, each with its own sector times. */
  lemma {:induction false} RecordedLaps(ld: seq<real>, starts: seq<int>, m: nat, bounds: seq<SectorBound>)
    requires ValidStarts(ld, starts) && Ordered(starts) && m < |starts| && |bounds| <= BestSlots
    ensures var c := CarTimesUpTo(ld, starts, m, bounds);
      forall n :: n in c.sectorTimes <==> n <= m && Recordable(ld, starts, bounds, n)
    ensures var c := CarTimesUpTo(ld, starts, m, bounds);
      forall n :: n in c.sectorTimes ==>
        Recordable(ld, starts, bounds, n) && c.sectorTimes[n] == LapSectorTimes(ld, starts, bounds, n)
  {
    if m > 0 {
      RecordedLaps(ld, starts, m - 1, bounds);
      SectorTableStep(ld, starts, m, bounds);
    }
  }

  /** The telescoped lap time of lap li: from its start to the end of its
      last sector, when every sector resolves. */
  function LapTimeOf(ld: seq<real>, starts: seq<int>, li: int, bounds: seq<SectorBound>): Option<real>
    requires ValidStarts(ld, starts) && Ordered(starts) && 0 <= li < |starts| - 1
  {
    var p := SectorPass(LapSlice(ld, starts, li), bounds, starts[li]);
    if AllResolved(p.times) then Some(((p.last - starts[li]) * 10) as real / 1000.0) else None
  }

  /** Each recorded lap time is the time from the lap start to the end of
      its last sector, and a lap time is recorded per recorded lap. */
  lemma {:induction false} LapTimesTelescope(ld: seq<real>, starts: seq<int>, m: nat, bounds: seq<SectorBound>)
    requires ValidStarts(ld, starts) && Ordered(starts) && m < |starts| && |bounds| <= BestSlots
    ensures var c := CarTimesUpTo(ld, starts, m, bounds);
      forall t :: t in c.lapTimes ==>
        (exists li :: 0 <= li < m && LapTimeOf(ld, starts, li, bounds) == Some(t))
  {
    if m > 0 {
      LapTimesTelescope(ld, starts, m - 1, bounds);
      LapTimesStep(ld, starts, m, bounds);
      var prev := CarTimesUpTo(ld, starts, m - 1, bounds).lapTimes;
      var cur := CarTimesUpTo(ld, starts, m, bounds).lapTimes;
      forall t | t in cur ensures exists li :: 0 <= li < m && LapTimeOf(ld, starts, li, bounds) == Some(t) {
        if t in prev {
          var li :| 0 <= li < m - 1 && LapTimeOf(ld, starts, li, bounds) == Some(t);
        } else {
          assert t == cur[|prev|];
          assert LapTimeOf(ld, starts, m - 1, bounds) == Some(t);
        }
      }
    }
  }

  /** One lap appends its telescoped lap time when it is recorded, and
      nothing otherwise. */
  lemma LapTimesStep(ld: seq<real>, starts: seq<int>, m: nat, bounds: seq<SectorBound>)
    requires ValidStarts(ld, starts) && Ordered(starts) && 0 < m < |starts| && |bounds| <= BestSlots
    ensures var prev := CarTimesUpTo(ld, starts, m - 1, bounds).lapTimes;
      var cur := CarTimesUpTo(ld, starts, m, bounds).lapTimes;
      cur == prev
      || (|cur| == |prev| + 1 && cur == prev + [cur[|prev|]] && LapTimeOf(ld, starts, m - 1, bounds) == Some(cur[|prev|]))
  {
    LapStepLapTimes(CarTimesUpTo(ld, starts, m - 1, bounds), ld, starts, m - 1, bounds);
  }

  lemma LapStepLapTimes(acc: CarTimes, ld: seq<real>, starts: seq<int>, li: int, bounds: seq<SectorBound>)
    requires ValidStarts(ld, starts) && Ordered(starts) && 0 <= li < |starts| - 1 && |bounds| <= BestSlots
    requires |acc.best| == BestSlots
    ensures var prev := acc.lapTimes;
      var cur := LapStep(acc, ld, starts, li, bounds).lapTimes;
      cur == prev
      || (|cur| == |prev| + 1 && cur == prev + [cur[|prev|]] && LapTimeOf(ld, starts, li, bounds) == Some(cur[|prev|]))
  {
    var lap := LapSlice(ld, starts, li);
    if |lap| >= MinLapSamples {
      var p := SectorPass(lap, bounds, starts[li]);
      if AllResolved(p.times) {
        SectorPassTelescopes(lap, bounds, starts[li]);
        var x := SumReal(Values(p.times));
        assert LapTimeOf(ld, starts, li, bounds) == Some(x);
        assert LapStep(acc, ld, starts, li, bounds).lapTimes == acc.lapTimes + [x];
      }
    }
  }

  /** A car's best sector is never worse than any resolved sector time of
      any of its laps of at least 10 samples. */
  lemma {:induction false} BestIsMinimal(ld: seq<real>, starts: seq<int>, m: nat, bounds: seq<SectorBound>,
                                          li: int, k: int)
    requires ValidStarts(ld, starts) && Ordered(starts) && m < |starts| && |bounds| <= BestSlots
    requires 0 <= li < m && 0 <= k < |bounds| && |LapSlice(ld, starts, li)| >= MinLapSamples
    requires SectorPass(LapSlice(ld, starts, li), bounds, starts[li]).times[k].Some?
    ensures var best := CarTimesUpTo(ld, starts, m, bounds).best;
      best[k].Some? && best[k].value <= SectorPass(LapSlice(ld, starts, li), bounds, starts[li]).times[k].value
  {
    var prevBest := CarTimesUpTo(ld, starts, m - 1, bounds).best;
    var best := CarTimesUpTo(ld, starts, m, bounds).best;
    var lap := LapSlice(ld, starts, m - 1);
    var p := SectorPass(lap, bounds, starts[m - 1]);
    BestStep(ld, starts, m, bounds);
    var t := SectorPass(LapSlice(ld, starts, li), bounds, starts[li]).times[k].value;
    if li < m - 1 {
      BestIsMinimal(ld, starts, m - 1, bounds, li, k);
      if |lap| >= MinLapSamples {
        ImproveKeepsBound(prevBest, p.times, k, t);
      }
    } else {
      assert li == m - 1;
      ImproveTakesTime(prevBest, p.times, k);
    }
  }

  /** A best already within `t` stays within `t`. */
  lemma ImproveKeepsBound(best: seq<Option<real>>, times: seq<Option<real>>, k: int, t: real)
    requires |times| <= |best| && 0 <= k < |best|
    requires best[k].Some? && best[k].value <= t
    ensures Improve(best, times)[k].Some? && Improve(best, times)[k].value <= t
  {
  }

  /** An improved best is within the lap's own resolved time. */
  lemma ImproveTakesTime(best: seq<Option<real>>, times: seq<Option<real>>, k: int)
    requires |times| <= |best| && 0 <= k < |times| && times[k].Some?
    ensures Improve(best, times)[k].Some? && Improve(best, times)[k].value <= times[k].value
  {
  }

  /** One lap improves the bests by its resolved sector times when it has
      at least 10 samples, and leaves them alone otherwise. */
  lemma BestStep(ld: seq<real>, starts: seq<int>, m: nat, bounds: seq<SectorBound>)
    requires ValidStarts(ld, starts) && Ordered(starts) && 0 < m < |starts| && |bounds| <= BestSlots
    ensures var prevBest := CarTimesUpTo(ld, starts, m - 1, bounds).best;
      var lap := LapSlice(ld, starts, m - 1);
      CarTimesUpTo(ld, starts, m, bounds).best
        == if |lap| >= MinLapSamples then Improve(prevBest, SectorPass(lap, bounds, starts[m - 1]).times) else prevBest
  {
  }

  /** The current sector: the first sector whose [start, end) holds the
      lapdist, else the last; 1 without sectors. */
  function CurrentSector(bounds: seq<SectorBound>, lapdist: real): (s: int)
    ensures 1 <= s <= if |bounds| == 0 then 1 else |bounds|
  {
    if |bounds| == 0 then 1 else CurrentFrom(bounds, lapdist, 0)
  }

  function CurrentFrom(bounds: seq<SectorBound>, lapdist: real, i: nat): (s: int)
    requires 0 < |bounds| && i <= |bounds|
    ensures i < s <= |bounds| || (i == |bounds| && s == |bounds|)
    decreases |bounds| - i
  {
    if i == |bounds| then |bounds|
    else if bounds[i].startDist <= lapdist < bounds[i].endDist then i + 1
    else CurrentFrom(bounds, lapdist, i + 1)
  }

  /** A lapdist inside some sector's range is placed in the first such
      sector; outside every range the car is in the last sector. */
  lemma CurrentSectorSpec(bounds: seq<SectorBound>, lapdist: real)
    requires |bounds| > 0
    ensures var s := CurrentSector(bounds, lapdist);
      (forall j :: 0 <= j < s - 1 ==> !(bounds[j].startDist <= lapdist < bounds[j].endDist))
      && ((bounds[s - 1].startDist <= lapdist < bounds[s - 1].endDist)
          || (s == |bounds| && forall j :: 0 <= j < |bounds| ==> !(bounds[j].startDist <= lapdist < bounds[j].endDist)))
  {
    CurrentFromSpec(bounds, lapdist, 0);
  }

  lemma {:induction false} CurrentFromSpec(bounds: seq<SectorBound>, lapdist: real, i: nat)
    requires 0 < |bounds| && i <= |bounds|
    requires forall j :: 0 <= j < i ==> !(bounds[j].startDist <= lapdist < bounds[j].endDist)
    ensures var s := CurrentFrom(bounds, lapdist, i);
      (forall j :: 0 <= j < s - 1 ==> !(bounds[j].startDist <= lapdist < bounds[j].endDist))
      && ((bounds[s - 1].startDist <= lapdist < bounds[s - 1].endDist)
          || (s == |bounds| && forall j :: 0 <= j < |bounds| ==> !(bounds[j].startDist <= lapdist < bounds[j].endDist)))
    decreases |bounds| - i
  {
    if i < |bounds| && !(bounds[i].startDist <= lapdist < bounds[i].endDist) {
      CurrentFromSpec(bounds, lapdist, i + 1);
    }
  }

  /** Per-sector minimum of two bests. */
  function MinBest(a: seq<Option<real>>, b: seq<Option<real>>): (r: seq<Option<real>>)
    requires |a| == |b|
    ensures |r| == |a|
  {
    seq(|a|, k requires 0 <= k < |a| =>
      if b[k].Some? && (a[k].None? || b[k].value < a[k].value) then b[k] else a[k])
  }

  /** The fleet best over the bests of `cars`, folded from `init`. */
  function FleetBest(init: seq<Option<real>>, cars: seq<string>, bests: map<string, seq<Option<real>>>)
    : (r: seq<Option<real>>)
    requires |init| == BestSlots && forall c :: c in bests ==> |bests[c]| == BestSlots
    ensures |r| == BestSlots
  {
    if cars == [] then init
    else
      var prev := FleetBest(init, cars[..|cars| - 1], bests);
      var c := cars[|cars| - 1];
      if c in bests then MinBest(prev, bests[c]) else prev
  }

  /** The fleet best of each sector is the smallest of the cars' bests
      (and of the starting value), and is one of them. */
  lemma {:induction false} FleetBestSpec(init: seq<Option<real>>, cars: seq<string>, bests: map<string, seq<Option<real>>>, k: int)
    requires |init| == BestSlots && forall c :: c in bests ==> |bests[c]| == BestSlots
    requires 0 <= k < BestSlots
    ensures var r := FleetBest(init, cars, bests);
      (init[k].Some? ==> r[k].Some? && r[k].value <= init[k].value)
      && (forall c :: c in cars && c in bests && bests[c][k].Some? ==> r[k].Some? && r[k].value <= bests[c][k].value)
      && (r[k] == init[k] || exists c :: c in cars && c in bests && r[k] == bests[c][k])
  {
    if cars != [] {
      var p := cars[..|cars| - 1];
      var c := cars[|cars| - 1];
      FleetBestSpec(init, p, bests, k);
      assert cars == p + [c];
      assert forall d :: d in cars ==> d in p || d == c;
    }
  }

  /** Every car's lap starts are the lap starts of its own lapdist. */
  predicate LapsOfOwnDistance(lapdist: map<string, seq<real>>, lapData: map<string, seq<int>>)
  {
    forall c :: c in lapData ==> c in lapdist && lapData[c] == WorldModel.LapStartsOf(lapdist[c])
  }

  /** The starts `_compute_car_sector_times` reads for a car. */
  function StartsOf(lapData: map<string, seq<int>>, c: string): seq<int>
  {
    if c in lapData then lapData[c] else [0]
  }

  /** A car with a complete lap has its sector table, bests and lap times
      recorded. */
  predicate CarDone(lapdist: map<string, seq<real>>, lapData: map<string, seq<int>>, bounds: seq<SectorBound>,
                    secs: map<string, map<int, seq<real>>>, bests: map<string, seq<Option<real>>>,
                    lapTimes: map<string, seq<real>>, c: string)
    requires |bounds| <= BestSlots
  {
    var starts := StartsOf(lapData, c);
    |starts| >= 2 ==>
      c in lapdist && ValidStarts(lapdist[c], starts) && Ordered(starts)
      && Recorded(secs, bests, lapTimes, c, CarTimesUpTo(lapdist[c], starts, LapCount(starts), bounds))
  }

  /** The car's sector table, bests and lap times are the ones stored
      under it. */
  predicate Recorded(secs: map<string, map<int, seq<real>>>, bests: map<string, seq<Option<real>>>,
                     lapTimes: map<string, seq<real>>, c: string, times: CarTimes)
  {
    Stored(secs, c) == Some(times.sectorTimes) && Stored(bests, c) == Some(times.best)
    && Stored(lapTimes, c) == Some(times.lapTimes)
  }

  /** The entries stored under c are the same in both sets of tables. */
  predicate SameEntries(secs: map<string, map<int, seq<real>>>, bests: map<string, seq<Option<real>>>,
                        lapTimes: map<string, seq<real>>,
                        secs': map<string, map<int, seq<real>>>, bests': map<string, seq<Option<real>>>,
                        lapTimes': map<string, seq<real>>, c: string)
  {
    Stored(secs', c) == Stored(secs, c) && Stored(bests', c) == Stored(bests, c)
    && Stored(lapTimes', c) == Stored(lapTimes, c)
  }

  /** The entry stored under c, if any. */
  function Stored<V>(m: map<string, V>, c: string): Option<V>
  {
    if c in m then Some(m[c]) else None
  }

  /** Storing a car's times records them and keeps every stored best the
      right size. */
  lemma StoredRecorded(secs: map<string, map<int, seq<real>>>, bests: map<string, seq<Option<real>>>,
                       lapTimes: map<string, seq<real>>, c: string, acc: CarTimes)
    requires BestsSized(bests) && |acc.best| == BestSlots
    ensures Recorded(secs[c := acc.sectorTimes], bests[c := acc.best], lapTimes[c := acc.lapTimes], c, acc)
    ensures BestsSized(bests[c := acc.best])
  {
  }

  /** Every stored best has one slot per sector. */
  predicate BestsSized(bests: map<string, seq<Option<real>>>)
  {
    forall d :: d in bests ==> |bests[d]| == BestSlots
  }

  /** Whether a car is done depends only on its own entries. */
  lemma CarDoneFrame(lapdist: map<string, seq<real>>, lapData: map<string, seq<int>>, bounds: seq<SectorBound>,
                     secs: map<string, map<int, seq<real>>>, bests: map<string, seq<Option<real>>>,
                     lapTimes: map<string, seq<real>>,
                     secs': map<string, map<int, seq<real>>>, bests': map<string, seq<Option<real>>>,
                     lapTimes': map<string, seq<real>>, c: string)
    requires LapsOfOwnDistance(lapdist, lapData) && |bounds| <= BestSlots
    requires CarDone(lapdist, lapData, bounds, secs, bests, lapTimes, c)
    requires SameEntries(secs, bests, lapTimes, secs', bests', lapTimes', c)
    ensures CarDone(lapdist, lapData, bounds, secs', bests', lapTimes', c)
  {
  }

  /** Every car of `cars` has its times recorded. */
  predicate AllDone(lapdist: map<string, seq<real>>, lapData: map<string, seq<int>>, bounds: seq<SectorBound>,
                    secs: map<string, map<int, seq<real>>>, bests: map<string, seq<Option<real>>>,
                    lapTimes: map<string, seq<real>>, cars: seq<string>)
    requires |bounds| <= BestSlots
  {
    forall c :: c in cars ==> CarDone(lapdist, lapData, bounds, secs, bests, lapTimes, c)
  }

  /** Every car outside `cars`, or with fewer than two lap starts, has the
      same entries in both sets of tables. */
  ghost predicate KeptOutside(lapData: map<string, seq<int>>,
                        secs: map<string, map<int, seq<real>>>, bests: map<string, seq<Option<real>>>,
                        lapTimes: map<string, seq<real>>,
                        secs': map<string, map<int, seq<real>>>, bests': map<string, seq<Option<real>>>,
                        lapTimes': map<string, seq<real>>, cars: seq<string>)
  {
    forall c :: c !in cars || |StartsOf(lapData, c)| < 2 ==> SameEntries(secs, bests, lapTimes, secs', bests', lapTimes', c)
  }

  /** One more car of the per-car loop: the cars done so far stay done,
      the new car is done, and the cars not yet visited keep their
      entries. */
  lemma EachCarStep(lapdist: map<string, seq<real>>, lapData: map<string, seq<int>>, bounds: seq<SectorBound>,
                    o1: map<string, map<int, seq<real>>>, o2: map<string, seq<Option<real>>>, o3: map<string, seq<real>>,
                    p1: map<string, map<int, seq<real>>>, p2: map<string, seq<Option<real>>>, p3: map<string, seq<real>>,
                    q1: map<string, map<int, seq<real>>>, q2: map<string, seq<Option<real>>>, q3: map<string, seq<real>>,
                    cars: seq<string>, c0: string)
    requires LapsOfOwnDistance(lapdist, lapData) && |bounds| <= BestSlots
    requires AllDone(lapdist, lapData, bounds, p1, p2, p3, cars)
    requires KeptOutside(lapData, o1, o2, o3, p1, p2, p3, cars)
    requires CarDone(lapdist, lapData, bounds, q1, q2, q3, c0)
    requires forall d :: d != c0 ==> SameEntries(p1, p2, p3, q1, q2, q3, d)
    requires |StartsOf(lapData, c0)| < 2 ==> SameEntries(p1, p2, p3, q1, q2, q3, c0)
    ensures AllDone(lapdist, lapData, bounds, q1, q2, q3, cars + [c0])
    ensures KeptOutside(lapData, o1, o2, o3, q1, q2, q3, cars + [c0])
  {
    forall c | c in cars + [c0] ensures CarDone(lapdist, lapData, bounds, q1, q2, q3, c) {
      if c != c0 {
        CarDoneFrame(lapdist, lapData, bounds, p1, p2, p3, q1, q2, q3, c);
      }
    }
    forall c | c !in cars + [c0] || |StartsOf(lapData, c)| < 2
      ensures SameEntries(o1, o2, o3, q1, q2, q3, c)
    {
      assert SameEntries(o1, o2, o3, p1, p2, p3, c);
      assert SameEntries(p1, p2, p3, q1, q2, q3, c);
    }
  }

  // ---------------------------------------------------------------------
  // The mutable state
  // ---------------------------------------------------------------------

  class WorldState {
    var carIds: seq<string>
    /** Column 3 (lapdist) of every loaded trajectory. */
    var lapdist: map<string, seq<real>>
    var sectorBounds: seq<SectorBound>
    var lapData: map<string, seq<int>>
    var carSectorTimes: map<string, map<int, seq<real>>>
    var carLapTimes: map<string, seq<real>>
    var carBestSectors: map<string, seq<Option<real>>>
    var overallBestSectors: seq<Option<real>>
    var selectedCarIds: seq<string>

    /** Lap data is always the lap starts of the car's own lapdist, and
        every best-sector list has three slots. */
    predicate Valid()
      reads this
    {
      LapsOfOwnDistance(lapdist, lapData)
      && |overallBestSectors| == BestSlots
      && (forall c :: c in carBestSectors ==> |carBestSectors[c]| == BestSlots)
      && |sectorBounds| <= BestSlots
    }

    /** The state before loading: no cars, no sectors, infinite bests. */
    constructor ()
      ensures Valid()
      ensures carIds == [] && lapdist == map[] && sectorBounds == [] && lapData == map[]
      ensures carSectorTimes == map[] && carLapTimes == map[] && carBestSectors == map[]
      ensures overallBestSectors == InfBest() && selectedCarIds == []
    {
      carIds := [];
      lapdist := map[];
      sectorBounds := [];
      lapData := map[];
      carSectorTimes := map[];
      carLapTimes := map[];
      carBestSectors := map[];
      overallBestSectors := InfBest();
      selectedCarIds := [];
    }

    /** `_compute_lap_data`: the loop over the car's lapdist. */
    method ComputeLapData(carId: string)
      requires Valid() && carId in lapdist
      modifies this
      ensures carIds == old(carIds) && lapdist == old(lapdist) && sectorBounds == old(sectorBounds)
      ensures Valid()
      ensures lapData == old(lapData)[carId := WorldModel.LapStartsOf(lapdist[carId])]
      ensures carSectorTimes == old(carSectorTimes) && carLapTimes == old(carLapTimes)
      ensures carBestSectors == old(carBestSectors) && overallBestSectors == old(overallBestSectors)
      ensures selectedCarIds == old(selectedCarIds)
    {
      var ld := lapdist[carId];
      var starts := [0];
      if |ld| == 0 {
        lapData := lapData[carId := starts];
        return;
      }
      var i := 1;
      while i < |ld|
        invariant 1 <= i <= |ld|
        invariant starts == WorldModel.LapStartsOf(ld[..i])
      {
        assert ld[..i + 1][..i] == ld[..i];
        if ld[i] < ld[i - 1] - WorldModel.LapResetDrop {
          starts := starts + [i];
        }
        i := i + 1;
      }
      assert ld[..i] == ld;
      lapData := lapData[carId := starts];
    }

    /** `_compute_car_sector_times`: cars with fewer than two lap starts
        are left alone; otherwise the lap loop records the car's sector
        table, lap times and bests. */
    method ComputeCarSectorTimes(carId: string)
      requires Valid() && carId in lapdist
      modifies this
      ensures Valid()
      ensures CarDone(lapdist, lapData, sectorBounds, carSectorTimes, carBestSectors, carLapTimes, carId)
      ensures forall d :: d != carId ==>
        SameEntries(old(carSectorTimes), old(carBestSectors), old(carLapTimes), carSectorTimes, carBestSectors, carLapTimes, d)
      ensures var starts := StartsOf(lapData, carId);
        if |starts| < 2 then
          carSectorTimes == old(carSectorTimes) && carLapTimes == old(carLapTimes)
          && carBestSectors == old(carBestSectors)
        else
          var c := CarTimesUpTo(lapdist[carId], starts, LapCount(starts), sectorBounds);
          carSectorTimes == old(carSectorTimes)[carId := c.sectorTimes]
          && carLapTimes == old(carLapTimes)[carId := c.lapTimes]
          && carBestSectors == old(carBestSectors)[carId := c.best]
      ensures carIds == old(carIds) && lapdist == old(lapdist) && sectorBounds == old(sectorBounds)
      ensures lapData == old(lapData) && overallBestSectors == old(overallBestSectors)
      ensures selectedCarIds == old(selectedCarIds)
    {
      var ld := lapdist[carId];
      var starts := StartsOf(lapData, carId);
      if |starts| < 2 {
        return;
      }
      assert starts == WorldModel.LapStartsOf(ld);
      LapStartsWellFormed(ld);
      var acc := FoldLaps(ld, starts, sectorBounds);
      StoredRecorded(carSectorTimes, carBestSectors, carLapTimes, carId, acc);
      carSectorTimes := carSectorTimes[carId := acc.sectorTimes];
      carLapTimes := carLapTimes[carId := acc.lapTimes];
      carBestSectors := carBestSectors[carId := acc.best];
    }

    /** The fleet-best step of `_compute_all_sector_times`: fold every
        car's bests into the fleet bests. */
    method ComputeOverallBest()
      requires Valid()
      modifies this
      ensures Valid()
      ensures overallBestSectors == FleetBest(old(overallBestSectors), carIds, carBestSectors)
      ensures carIds == old(carIds) && lapdist == old(lapdist) && sectorBounds == old(sectorBounds)
      ensures lapData == old(lapData) && carSectorTimes == old(carSectorTimes)
      ensures carLapTimes == old(carLapTimes) && carBestSectors == old(carBestSectors)
      ensures selectedCarIds == old(selectedCarIds)
    {
      var i := 0;
      var init := overallBestSectors;
      while i < |carIds|
        invariant 0 <= i <= |carIds|
        invariant Valid()
        invariant overallBestSectors == FleetBest(init, carIds[..i], carBestSectors)
        invariant carIds == old(carIds) && lapdist == old(lapdist) && sectorBounds == old(sectorBounds)
        invariant lapData == old(lapData) && carSectorTimes == old(carSectorTimes)
        invariant carLapTimes == old(carLapTimes) && carBestSectors == old(carBestSectors)
        invariant selectedCarIds == old(selectedCarIds)
      {
        assert carIds[..i + 1][..i] == carIds[..i];
        var c := carIds[i];
        if c in carBestSectors {
          var best := carBestSectors[c];
          var k := 0;
          var fleet := overallBestSectors;
          while k < BestSlots
            invariant 0 <= k <= BestSlots
            invariant |fleet| == BestSlots
            invariant forall j :: 0 <= j < k ==> fleet[j] == MinBest(overallBestSectors, best)[j]
            invariant forall j :: k <= j < BestSlots ==> fleet[j] == overallBestSectors[j]
          {
            if best[k].Some? && (fleet[k].None? || best[k].value < fleet[k].value) {
              fleet := fleet[k := best[k]];
            }
            k := k + 1;
          }
          overallBestSectors := fleet;
        }
        i := i + 1;
      }
      assert carIds[..i] == carIds;
    }

    /** `_compute_all_sector_times`: nothing without sector boundaries;
        otherwise every car's sector pass, then the fleet bests. Every car
        with a complete lap ends with its own sector table, bests and lap
        times; every other car keeps its entries; and the fleet best is the
        fold of every car's bests into the previous one. */
    method ComputeAllSectorTimes()
      requires Valid() && forall c :: c in carIds ==> c in lapdist
      modifies this
      ensures Valid()
      ensures carIds == old(carIds) && lapdist == old(lapdist) && sectorBounds == old(sectorBounds)
      ensures lapData == old(lapData) && selectedCarIds == old(selectedCarIds)
      ensures sectorBounds == [] ==>
        carSectorTimes == old(carSectorTimes) && carLapTimes == old(carLapTimes)
        && carBestSectors == old(carBestSectors) && overallBestSectors == old(overallBestSectors)
      ensures sectorBounds != [] ==>
        overallBestSectors == FleetBest(old(overallBestSectors), carIds, carBestSectors)
        && (forall c :: c in carIds ==> CarDone(lapdist, lapData, sectorBounds, carSectorTimes, carBestSectors, carLapTimes, c))
        && forall c :: c !in carIds || |StartsOf(lapData, c)| < 2 ==>
             SameEntries(old(carSectorTimes), old(carBestSectors), old(carLapTimes), carSectorTimes, carBestSectors, carLapTimes, c)
    {
      if sectorBounds == [] {
        return;
      }
      ComputeEachCar();
      ComputeOverallBest();
    }

    /** The per-car loop of `_compute_all_sector_times`: every car with a
        complete lap ends with its own entries recorded, and the entries of
        every other car are kept. */
    method ComputeEachCar()
      requires Valid() && forall c :: c in carIds ==> c in lapdist
      modifies this
      ensures Valid()
      ensures carIds == old(carIds) && lapdist == old(lapdist) && sectorBounds == old(sectorBounds)
      ensures lapData == old(lapData) && selectedCarIds == old(selectedCarIds)
      ensures overallBestSectors == old(overallBestSectors)
      ensures forall c :: c in carIds ==> CarDone(lapdist, lapData, sectorBounds, carSectorTimes, carBestSectors, carLapTimes, c)
      ensures forall c :: c !in carIds || |StartsOf(lapData, c)| < 2 ==>
        SameEntries(old(carSectorTimes), old(carBestSectors), old(carLapTimes), carSectorTimes, carBestSectors, carLapTimes, c)
    {
      var i := 0;
      while i < |carIds|
        invariant 0 <= i <= |carIds|
        invariant Valid()
        invariant carIds == old(carIds) && lapdist == old(lapdist) && sectorBounds == old(sectorBounds)
        invariant lapData == old(lapData) && selectedCarIds == old(selectedCarIds)
        invariant overallBestSectors == old(overallBestSectors)
        invariant AllDone(lapdist, lapData, sectorBounds, carSectorTimes, carBestSectors, carLapTimes, carIds[..i])
        invariant KeptOutside(lapData, old(carSectorTimes), old(carBestSectors), old(carLapTimes),
                              carSectorTimes, carBestSectors, carLapTimes, carIds[..i])
      {
        assert carIds[..i + 1] == carIds[..i] + [carIds[i]];
        ghost var secs, bests, times := carSectorTimes, carBestSectors, carLapTimes;
        ComputeCarSectorTimes(carIds[i]);
        EachCarStep(lapdist, lapData, sectorBounds, old(carSectorTimes), old(carBestSectors), old(carLapTimes),
                    secs, bests, times, carSectorTimes, carBestSectors, carLapTimes, carIds[..i], carIds[i]);
        i := i + 1;
      }
      assert carIds[..i] == carIds;
    }

    /** `toggle_car_selection`: remove the first occurrence, or append. */
    method ToggleCarSelection(carId: string)
      modifies this
      ensures carId in old(selectedCarIds) ==>
        exists k :: 0 <= k < |old(selectedCarIds)| && old(selectedCarIds)[k] == carId
          && (forall j :: 0 <= j < k ==> old(selectedCarIds)[j] != carId)
          && selectedCarIds == old(selectedCarIds)[..k] + old(selectedCarIds)[k + 1..]
      ensures carId !in old(selectedCarIds) ==> selectedCarIds == old(selectedCarIds) + [carId]
      ensures carIds == old(carIds) && lapdist == old(lapdist) && sectorBounds == old(sectorBounds)
      ensures lapData == old(lapData) && carSectorTimes == old(carSectorTimes)
      ensures carLapTimes == old(carLapTimes) && carBestSectors == old(carBestSectors)
      ensures overallBestSectors == old(overallBestSectors)
    {
      var k := FirstIndex(selectedCarIds, carId);
      if k < |selectedCarIds| {
        selectedCarIds := selectedCarIds[..k] + selectedCarIds[k + 1..];
      } else {
        selectedCarIds := selectedCarIds + [carId];
      }
    }

    /** `select_all_cars` and `select_no_cars`. */
    method SelectAll()
      modifies this
      ensures selectedCarIds == carIds
      ensures carIds == old(carIds) && lapdist == old(lapdist) && sectorBounds == old(sectorBounds)
      ensures lapData == old(lapData) && carSectorTimes == old(carSectorTimes)
      ensures carLapTimes == old(carLapTimes) && carBestSectors == old(carBestSectors)
      ensures overallBestSectors == old(overallBestSectors)
    {
      selectedCarIds := carIds;
    }

    method SelectNone()
      modifies this
      ensures selectedCarIds == []
      ensures carIds == old(carIds) && lapdist == old(lapdist) && sectorBounds == old(sectorBounds)
      ensures lapData == old(lapData) && carSectorTimes == old(carSectorTimes)
      ensures carLapTimes == old(carLapTimes) && carBestSectors == old(carBestSectors)
      ensures overallBestSectors == old(overallBestSectors)
    {
      selectedCarIds := [];
    }
  }

  /** Lap starts index into their own lapdist in order. */
  lemma LapStartsWellFormed(ld: seq<real>)
    ensures ValidStarts(ld, WorldModel.LapStartsOf(ld)) && Ordered(WorldModel.LapStartsOf(ld))
  {
  }

  /** The loop over laps of `_compute_car_sector_times`. */
  method FoldLaps(ld: seq<real>, starts: seq<int>, bounds: seq<SectorBound>) returns (acc: CarTimes)
    requires ValidStarts(ld, starts) && Ordered(starts) && |starts| >= 1 && |bounds| <= BestSlots
    ensures acc == CarTimesUpTo(ld, starts, LapCount(starts), bounds)
  {
    acc := CarTimes(map[], [], InfBest());
    var li := 0;
    while li < |starts| - 1
      invariant 0 <= li <= |starts| - 1
      invariant acc == CarTimesUpTo(ld, starts, li, bounds)
    {
      acc := LapStep(acc, ld, starts, li, bounds);
      li := li + 1;
    }
  }

  /** The position of the first x in s, or |s|. */
  function FirstIndex(s: seq<string>, x: string): (k: nat)
    ensures k <= |s| && (k < |s| <==> x in s)
    ensures k < |s| ==> s[k] == x
    ensures forall j :: 0 <= j < k ==> s[j] != x
  {
    if s == [] then 0 else if s[0] == x then 0 else 1 + FirstIndex(s[1..], x)
  }

  /** Toggling twice restores a selection without repeats. */
  lemma ToggleTwice(sel: seq<string>, c: string)
    requires c !in sel
    ensures var once := sel + [c];
      var k := FirstIndex(once, c);
      k == |sel| && once[..k] + once[k + 1..] == sel
  {
    var once := sel + [c];
    assert forall j :: 0 <= j < |sel| ==> once[j] != c;
  }
}
