/** The per-frame queries of the replay's world model: lap starts and lap
    numbers, the car state at a replay time, the signed lateral deviation
    against the nearest racing-line point, the race order, the ideal-speed
    lookup, the trail helpers and the parse of trail file names. A
    trajectory is a sequence of rows of a common width (x, y, speed,
    lapdist, then brake, gear and the other channels). */
module WorldModel {
  import opened Common

  const SampleMs: real := 10.0
  const LapResetDrop: real := 100.0

  predicate Rectangular(traj: seq<seq<real>>, width: nat)
  {
    forall i :: 0 <= i < |traj| ==> |traj[i]| == width
  }

  /** Column `c` of a rectangular trajectory. */
  function Column(traj: seq<seq<real>>, width: nat, c: nat): (col: seq<real>)
    requires Rectangular(traj, width) && c < width
    ensures |col| == |traj| && forall i :: 0 <= i < |traj| ==> col[i] == traj[i][c]
  {
    seq(|traj|, i requires 0 <= i < |traj| => traj[i][c])
  }

  // ---------------------------------------------------------------------
  // Lap starts and lap numbers (`_compute_lap_data`, `_get_lap_number`)
  // ---------------------------------------------------------------------

  /** Sample i starts a lap when lapdist drops by more than 100 m. */
  predicate IsLapStart(ld: seq<real>, i: int)
  {
    i == 0 || (1 <= i < |ld| && ld[i] < ld[i - 1] - LapResetDrop)
  }

  /** `[0]` followed by every sample where lapdist drops by more than 100 m. */
  function LapStartsOf(ld: seq<real>): (s: seq<int>)
    ensures |s| > 0 && s[0] == 0
    ensures StrictlyIncreasing(s)
    ensures forall k :: 0 <= k < |s| ==> 0 <= s[k] && (s[k] < |ld| || s[k] == 0)
  {
    if |ld| <= 1 then [0]
    else
      var prev := LapStartsOf(ld[..|ld| - 1]);
      assert forall k :: 0 <= k < |prev| ==> prev[k] in prev;
      var n := |ld| - 1;
      if ld[n] < ld[n - 1] - LapResetDrop then prev + [n] else prev
  }

  /** The lap starts are exactly 0 and the reset samples. */
  lemma {:induction false} LapStartsSpec(ld: seq<real>)
    ensures forall i :: i in LapStartsOf(ld) <==> IsLapStart(ld, i)
  {
    if |ld| > 1 {
      var p := ld[..|ld| - 1];
      LapStartsSpec(p);
      forall i | 1 <= i < |p| ensures IsLapStart(p, i) <==> IsLapStart(ld, i) {
        assert p[i] == ld[i] && p[i - 1] == ld[i - 1];
      }
    }
  }

  /** Position of the first occurrence of x in s (Python `list.index`). */
  function IndexOf(s: seq<int>, x: int): (k: int)
    requires x in s
    ensures 0 <= k < |s| && s[k] == x && forall j :: 0 <= j < k ==> s[j] != x
  {
    if s[0] == x then 0 else 1 + IndexOf(s[1..], x)
  }

  /** `_get_lap_number`: 1 + the list position of the last start at or
      before idx, or 1. */
  function LapNumberOf(starts: seq<int>, idx: int): int
  {
    if starts == [] then 1
    else
      var last := starts[|starts| - 1];
      if idx >= last then IndexOf(starts, last) + 1 else LapNumberOf(starts[..|starts| - 1], idx)
  }

  /** The loop of `_get_lap_number`. */
  method LapNumber(starts: seq<int>, idx: int) returns (n: int)
    ensures n == LapNumberOf(starts, idx)
  {
    n := 1;
    var found := -1;
    var k := 0;
    while k < |starts|
      invariant 0 <= k <= |starts|
      invariant -1 <= found < k
      invariant found >= 0 ==> idx >= starts[found] && forall j :: found < j < k ==> idx < starts[j]
      invariant found < 0 ==> forall j :: 0 <= j < k ==> idx < starts[j]
      invariant n == (if found < 0 then 1 else IndexOf(starts, starts[found]) + 1)
    {
      if idx >= starts[k] {
        found := k;
        n := IndexOf(starts, starts[k]) + 1;
      }
      k := k + 1;
    }
    LapNumberLast(starts, idx, found);
  }

  lemma {:induction false} LapNumberLast(starts: seq<int>, idx: int, found: int)
    requires -1 <= found < |starts|
    requires found >= 0 ==> idx >= starts[found] && forall j :: found < j < |starts| ==> idx < starts[j]
    requires found < 0 ==> forall j :: 0 <= j < |starts| ==> idx < starts[j]
    ensures LapNumberOf(starts, idx) == if found < 0 then 1 else IndexOf(starts, starts[found]) + 1
    decreases |starts|
  {
    if starts != [] && found != |starts| - 1 {
      var p := starts[..|starts| - 1];
      LapNumberLast(p, idx, found);
      if found >= 0 {
        assert starts[found] in p;
        IndexOfPrefix(starts, starts[found]);
      }
    }
  }

  lemma IndexOfPrefix(s: seq<int>, x: int)
    requires |s| > 0 && x in s[..|s| - 1]
    ensures IndexOf(s[..|s| - 1], x) == IndexOf(s, x)
  {
    var p := s[..|s| - 1];
    var k := IndexOf(p, x);
    var m := IndexOf(s, x);
    assert s[k] == x;
    assert p[m] == x || m >= k;
  }

  /** On strictly increasing starts beginning at 0, the lap number of a
      sample idx >= 0 is n where starts[n-1] <= idx and idx comes before
      starts[n]: 1 + the position of the last start at or before idx. */
  lemma {:induction false} LapNumberSpec(starts: seq<int>, idx: int)
    requires |starts| > 0 && starts[0] == 0 && StrictlyIncreasing(starts) && idx >= 0
    ensures var n := LapNumberOf(starts, idx);
      1 <= n <= |starts| && starts[n - 1] <= idx && (n < |starts| ==> idx < starts[n])
    decreases |starts|
  {
    var last := starts[|starts| - 1];
    if idx >= last {
      assert forall j :: 0 <= j < |starts| - 1 ==> starts[j] < last;
    } else {
      var p := starts[..|starts| - 1];
      assert starts[0] <= idx < last;
      assert |p| > 0;
      LapNumberSpec(p, idx);
    }
  }

  // ---------------------------------------------------------------------
  // Ideal speed (`get_ideal_speed_at_distance`)
  // ---------------------------------------------------------------------

  /** `np.searchsorted(dist, d)`: the first index whose distance is >= d. */
  function SearchSorted(dist: seq<real>, d: real): (i: nat)
    ensures i <= |dist|
    ensures forall j :: 0 <= j < i ==> dist[j] < d
    ensures i < |dist| ==> dist[i] >= d
  {
    if dist == [] || dist[0] >= d then 0 else 1 + SearchSorted(dist[1..], d)
  }

  /** The ideal speed at a track distance: 0 without a profile, the end
      speeds outside the profile, linear interpolation inside it. */
  function IdealSpeedAt(dist: seq<real>, speed: seq<real>, d: real): (v: real)
    requires |speed| == |dist|
    ensures |dist| == 0 ==> v == 0.0
  {
    if |dist| == 0 then 0.0
    else if d <= dist[0] then speed[0]
    else if d >= dist[|dist| - 1] then speed[|speed| - 1]
    else
      var i := SearchSorted(dist, d);
      if i == 0 then speed[0]
      else
        var t := (d - dist[i - 1]) / (dist[i] - dist[i - 1]);
        speed[i - 1] + t * (speed[i] - speed[i - 1])
  }

  /** On a strictly increasing profile the lookup reproduces the profile
      at its knots, clamps outside it, and inside it stays between the
      speeds of the bracketing knots. */
  lemma IdealSpeedSpec(dist: seq<real>, speed: seq<real>, d: real)
    requires |speed| == |dist| > 0 && StrictlyIncreasingReal(dist)
    ensures d <= dist[0] ==> IdealSpeedAt(dist, speed, d) == speed[0]
    ensures d >= dist[|dist| - 1] ==> IdealSpeedAt(dist, speed, d) == speed[|speed| - 1]
    ensures forall k :: 0 <= k < |dist| && dist[k] == d ==> IdealSpeedAt(dist, speed, d) == speed[k]
    ensures dist[0] < d < dist[|dist| - 1] ==>
      exists k :: 1 <= k < |dist| && dist[k - 1] < d <= dist[k] && Between(IdealSpeedAt(dist, speed, d), speed[k - 1], speed[k])
  {
    var n := |dist|;
    if dist[0] < d < dist[n - 1] {
      var i := SearchSorted(dist, d);
      assert 0 < i < n;
      var t := (d - dist[i - 1]) / (dist[i] - dist[i - 1]);
      FractionBounds(d - dist[i - 1], dist[i] - dist[i - 1]);
      LerpBetween(speed[i - 1], speed[i], t);
      assert forall j :: i < j < n ==> dist[i] < dist[j];
      forall k | 0 <= k < n && dist[k] == d ensures IdealSpeedAt(dist, speed, d) == speed[k] {
        assert k == i;
        FractionBounds(d - dist[i - 1], dist[i] - dist[i - 1]);
      }
    } else {
      assert forall j :: 0 < j < n ==> dist[0] < dist[j];
      assert forall j :: 0 <= j < n - 1 ==> dist[j] < dist[n - 1];
    }
  }

  lemma FractionBounds(a: real, b: real)
    requires 0.0 < a <= b
    ensures 0.0 < a / b <= 1.0
    ensures a == b ==> a / b == 1.0
  {
  }

  // ---------------------------------------------------------------------
  // Signed lateral deviation (`compute_deviation`)
  // ---------------------------------------------------------------------

  datatype Point = Point(x: real, y: real)
  datatype DevInfo = DevInfo(deviation: real, idealX: real, idealY: real)

  const NoDeviation: DevInfo := DevInfo(0.0, 0.0, 0.0)

  function LineXs(line: seq<Point>): seq<real> { seq(|line|, k requires 0 <= k < |line| => line[k].x) }
  function LineYs(line: seq<Point>): seq<real> { seq(|line|, k requires 0 <= k < |line| => line[k].y) }

  /** The racing-line point nearest to (cx, cy). */
  function NearestOnLine(line: seq<Point>, cx: real, cy: real): (i: int)
    requires |line| > 0
    ensures 0 <= i < |line|
    ensures forall j :: 0 <= j < |line| ==>
      SqDist(line[i].x, line[i].y, cx, cy) <= SqDist(line[j].x, line[j].y, cx, cy)
  {
    var xs, ys := LineXs(line), LineYs(line);
    var i := Nearest(xs, ys, cx, cy);
    assert forall j :: 0 <= j < |line| ==> xs[j] == line[j].x && ys[j] == line[j].y;
    i
  }

  /** The tangent at line point i: towards the next point, or from the
      previous one at the end (Python's `line[-1]` for a one-point line). */
  function Tangent(line: seq<Point>, i: int): (t: Point)
    requires 0 <= i < |line|
  {
    var j0 := if i < |line| - 1 then i else (if i == 0 then |line| - 1 else i - 1);
    var j1 := if i < |line| - 1 then i + 1 else i;
    Point(line[j1].x - line[j0].x, line[j1].y - line[j0].y)
  }

  /** The offset (vx, vy) dotted with the left normal (-ty, tx) of the
      tangent, normalised by `tlen` when that is positive. */
  function Signed(vx: real, vy: real, tx: real, ty: real, tlen: real): real
  {
    var nx := if tlen > 0.0 then tx / tlen else tx;
    var ny := if tlen > 0.0 then ty / tlen else ty;
    vx * (-ny) + vy * nx
  }

  /** The signed offset is 0 for a zero offset or a zero tangent, and
      otherwise the cross product of tangent and offset divided by the
      tangent length. */
  lemma SignedSpec(vx: real, vy: real, tx: real, ty: real, tlen: real)
    ensures vx == 0.0 && vy == 0.0 ==> Signed(vx, vy, tx, ty, tlen) == 0.0
    ensures tx == 0.0 && ty == 0.0 ==> Signed(vx, vy, tx, ty, tlen) == 0.0
    ensures tlen > 0.0 ==> Signed(vx, vy, tx, ty, tlen) * tlen == vx * (-ty) + vy * tx
  {
    if tlen > 0.0 {
      NormalisedCross(vx, vy, tx, ty, tlen);
    }
  }

  lemma NormalisedCross(vx: real, vy: real, tx: real, ty: real, l: real)
    requires l > 0.0
    ensures (vx * (-(ty / l)) + vy * (tx / l)) * l == vx * (-ty) + vy * tx
  {
    assert (ty / l) * l == ty;
    assert (tx / l) * l == tx;
  }

  /** Deviation of (cx, cy) from the line, measured at the nearest line
      point along the left normal of the tangent there; `sqrt` stands for
      the floating-point square root of the tangent's squared length. */
  function DeviationFrom(line: seq<Point>, cx: real, cy: real, sqrt: real -> real): (r: DevInfo)
    requires |line| > 0
    ensures var i := NearestOnLine(line, cx, cy);
      r.idealX == line[i].x && r.idealY == line[i].y
    ensures forall j :: 0 <= j < |line| ==> SqDist(r.idealX, r.idealY, cx, cy) <= SqDist(line[j].x, line[j].y, cx, cy)
  {
    var i := NearestOnLine(line, cx, cy);
    var t := Tangent(line, i);
    var tlen := sqrt(t.x * t.x + t.y * t.y);
    DevInfo(Signed(cx - line[i].x, cy - line[i].y, t.x, t.y, tlen), line[i].x, line[i].y)
  }

  /** Which reference line `compute_deviation` uses. */
  datatype Lines = Lines(global: Option<seq<Point>>, perCar: Option<seq<Point>>)

  predicate LinesNonEmpty(lines: Lines)
  {
    (lines.global.Some? ==> |lines.global.value| > 0) && (lines.perCar.Some? ==> |lines.perCar.value| > 0)
  }

  /** `compute_deviation(car, frame)`: mode "global_racing_line" uses the
      global line, any other mode the car's own line; a missing line or a
      frame outside the trajectory gives zeros. */
  function ComputeDeviation(mode: string, lines: Lines, positions: seq<Point>, frame: int, sqrt: real -> real)
    : (r: DevInfo)
    requires LinesNonEmpty(lines)
    ensures ((if mode == "global_racing_line" then lines.global.None? else lines.perCar.None?)
             || frame < 0 || frame >= |positions|) ==> r == NoDeviation
  {
    var line := if mode == "global_racing_line" then lines.global else lines.perCar;
    if line.None? then NoDeviation
    else if frame < 0 || frame >= |positions| then NoDeviation
    else DeviationFrom(line.value, positions[frame].x, positions[frame].y, sqrt)
  }

  /** Mode "individual" is the per-car line, exactly like "racing_line". */
  lemma IndividualIsRacingLine(lines: Lines, positions: seq<Point>, frame: int, sqrt: real -> real)
    requires LinesNonEmpty(lines)
    ensures ComputeDeviation("individual", lines, positions, frame, sqrt)
         == ComputeDeviation("racing_line", lines, positions, frame, sqrt)
  {
  }

  // ---------------------------------------------------------------------
  // Car state (`get_car_state`)
  // ---------------------------------------------------------------------

  /** `int(time_ms / 10)` clamped into the trajectory. */
  function FrameIndex(timeMs: real, n: nat): (idx: int)
    requires n > 0
    ensures 0 <= idx < n
    ensures 0 <= Trunc(timeMs / SampleMs) < n ==> idx == Trunc(timeMs / SampleMs)
    ensures Trunc(timeMs / SampleMs) < 0 ==> idx == 0
    ensures Trunc(timeMs / SampleMs) >= n ==> idx == n - 1
  {
    var i := Trunc(timeMs / SampleMs);
    if i < 0 then 0 else if i >= n then n - 1 else i
  }

  datatype CarState = CarState(x: real, y: real, speed: real, lapdist: real,
                               brake: real, brakeFront: real, brakeRear: real, gear: int, lap: int,
                               steering: real, heading: real, deviation: real, idealX: real, idealY: real,
                               accelNorm: real)

  function ColOr(row: seq<real>, c: nat, default: real): real
  {
    if c < |row| then row[c] else default
  }

  function Positions(traj: seq<seq<real>>, width: nat): (ps: seq<Point>)
    requires Rectangular(traj, width) && width >= 2
    ensures |ps| == |traj|
  {
    seq(|traj|, i requires 0 <= i < |traj| => Point(traj[i][0], traj[i][1]))
  }

  /** `get_car_state`: the row at the clamped frame, moved by the car's
      deviation offset; rows of 11 or more columns carry separate front and
      rear brakes and the lap in column 10, narrower rows one brake and the
      lap in column 9 or, without it, from the lap starts. The deviation is
      computed only when the car has its own racing line. */
  function CarStateAt(traj: seq<seq<real>>, width: nat, offsets: seq<Point>, lapStarts: seq<int>,
                      mode: string, lines: Lines, timeMs: real, sqrt: real -> real): (s: CarState)
    requires |traj| > 0 && Rectangular(traj, width) && width >= 4 && |offsets| == |traj|
    requires LinesNonEmpty(lines)
    ensures var idx := FrameIndex(timeMs, |traj|);
      s.x == traj[idx][0] + offsets[idx].x && s.y == traj[idx][1] + offsets[idx].y
      && s.speed == traj[idx][2] && s.lapdist == traj[idx][3]
    ensures width >= 11 ==> var idx := FrameIndex(timeMs, |traj|);
      s.brake == MaxReal(traj[idx][4], traj[idx][5]) && s.lap == Trunc(traj[idx][10])
    ensures lines.perCar.None? ==> s.deviation == 0.0 && s.idealX == 0.0 && s.idealY == 0.0
  {
    var idx := FrameIndex(timeMs, |traj|);
    var row := traj[idx];
    var dev := if lines.perCar.Some? then ComputeDeviation(mode, lines, Positions(traj, width), idx, sqrt)
               else NoDeviation;
    if width >= 11 then
      CarState(row[0] + offsets[idx].x, row[1] + offsets[idx].y, row[2], row[3],
               MaxReal(row[4], row[5]), row[4], row[5], Trunc(row[6]), Trunc(row[10]),
               row[7], row[8], dev.deviation, dev.idealX, dev.idealY, row[9])
    else
      var brake := ColOr(row, 4, 0.0);
      var lap := if width >= 10 then Trunc(row[9]) else LapNumberOf(lapStarts, idx);
      CarState(row[0] + offsets[idx].x, row[1] + offsets[idx].y, row[2], row[3],
               brake, brake, brake, if width > 5 then Trunc(row[5]) else 0, lap,
               ColOr(row, 6, 0.0), ColOr(row, 7, 0.0), dev.deviation, dev.idealX, dev.idealY,
               ColOr(row, 8, 0.0))
  }

  // ---------------------------------------------------------------------
  // Race order (`get_race_order`)
  // ---------------------------------------------------------------------

  datatype Standing = Standing(id: string, lap: int, lapdist: real)

  /** a comes before b in descending (lap, lapdist, car id) order. */
  predicate Ahead(a: Standing, b: Standing)
  {
    a.lap > b.lap || (a.lap == b.lap && (a.lapdist > b.lapdist || (a.lapdist == b.lapdist && StrLt(b.id, a.id))))
  }

  predicate SortedDesc(s: seq<Standing>)
  {
    forall i, j :: 0 <= i < j < |s| ==> !Ahead(s[j], s[i])
  }

  lemma NotAheadTransitive(a: Standing, b: Standing, c: Standing)
    requires !Ahead(b, a) && !Ahead(c, b)
    ensures !Ahead(c, a)
  {
    if Ahead(c, a) {
      if a.lap == b.lap == c.lap && a.lapdist == b.lapdist == c.lapdist {
        StrLtTotal(a.id, b.id);
        StrLtTotal(b.id, c.id);
        if StrLt(b.id, a.id) && StrLt(c.id, b.id) {
          StrLtTransitive(c.id, b.id, a.id);
          StrLtAsymmetric(a.id, c.id);
        } else if StrLt(b.id, a.id) {
          StrLtAsymmetric(a.id, b.id);
        }
      }
    }
  }

  lemma AheadOrNot(a: Standing, b: Standing)
    requires !Ahead(a, b)
    ensures Ahead(b, a) || (a.lap == b.lap && a.lapdist == b.lapdist && a.id == b.id)
  {
    StrLtTotal(a.id, b.id);
  }

  /** Insert c before the first entry it is ahead of. */
  function InsertDesc(c: Standing, s: seq<Standing>): (q: seq<Standing>)
    requires SortedDesc(s)
    ensures |q| == |s| + 1 && (q[0] == c || (|s| > 0 && q[0] == s[0]))
    ensures SortedDesc(q)
    ensures multiset(q) == multiset(s) + multiset{c}
  {
    if s == [] then [c]
    else if Ahead(c, s[0]) then
      AheadAsymmetric(c, s[0]);
      ConsDesc(c, s);
      [c] + s
    else
      var rest := InsertDesc(c, s[1..]);
      assert s == [s[0]] + s[1..];
      ConsDesc(s[0], rest);
      [s[0]] + rest
  }

  /** A car no later than the head of a sorted list can go in front of it. */
  lemma ConsDesc(x: Standing, s: seq<Standing>)
    requires SortedDesc(s) && (s != [] ==> !Ahead(s[0], x))
    ensures SortedDesc([x] + s)
  {
    var q := [x] + s;
    forall i, j | 0 <= i < j < |q| ensures !Ahead(q[j], q[i]) {
      if i == 0 {
        assert q[j] == s[j - 1];
        if j > 1 { NotAheadTransitive(x, s[0], s[j - 1]); }
      } else {
        assert q[i] == s[i - 1] && q[j] == s[j - 1];
      }
    }
  }

  lemma AheadAsymmetric(a: Standing, b: Standing)
    requires Ahead(a, b)
    ensures !Ahead(b, a)
  {
    if a.lap == b.lap && a.lapdist == b.lapdist {
      StrLtAsymmetric(b.id, a.id);
    }
  }

  /** `sorted(..., key=(lap, lapdist, car_id), reverse=True)`. */
  function SortDesc(s: seq<Standing>): (q: seq<Standing>)
    ensures SortedDesc(q)
    ensures multiset(q) == multiset(s)
  {
    if s == [] then []
    else
      assert s == [s[0]] + s[1..];
      InsertDesc(s[0], SortDesc(s[1..]))
  }

  datatype Placing = Placing(id: string, position: int, lap: int, lapdist: real,
                             isLeader: bool, onLeadLap: bool, lapsDown: int)

  datatype RaceOrder = RaceOrder(leader: Option<string>, cars: seq<Placing>)

  /** `get_race_order`: positions 1..n in sorted order; laps down is the
      leader's lap minus the car's, clamped at 0. */
  function GetRaceOrder(states: seq<Standing>): (r: RaceOrder)
    ensures |r.cars| == |states|
    ensures states == [] <==> r.leader.None?
  {
    if states == [] then RaceOrder(None, [])
    else
      var sorted := SortDesc(states);
      assert |sorted| == |multiset(sorted)| == |states|;
      RaceOrder(Some(sorted[0].id), Placings(sorted))
  }

  /** The placings of cars already in race order, measured against the first. */
  function Placings(sorted: seq<Standing>): (cs: seq<Placing>)
    requires sorted != []
    ensures |cs| == |sorted|
    ensures forall k :: 0 <= k < |cs| ==>
      StandingOf(cs[k]) == sorted[k] && cs[k].position == k + 1 && cs[k].lapsDown >= 0
  {
    var leader := sorted[0];
    seq(|sorted|, k requires 0 <= k < |sorted| =>
      var down := if leader.lap - sorted[k].lap < 0 then 0 else leader.lap - sorted[k].lap;
      Placing(sorted[k].id, k + 1, sorted[k].lap, sorted[k].lapdist, sorted[k].id == leader.id, down == 0, down))
  }

  function StandingOf(p: Placing): Standing { Standing(p.id, p.lap, p.lapdist) }

  function StandingsOf(cs: seq<Placing>): seq<Standing>
  {
    seq(|cs|, k requires 0 <= k < |cs| => StandingOf(cs[k]))
  }

  /** Placings in race order: positions 1..n, no car ahead of an earlier
      one, the first is the leader, nobody is a negative number of laps
      down, and a car is on the lead lap exactly when it is 0 laps down. */
  predicate OrderSound(cs: seq<Placing>)
  {
    cs != [] && cs[0].isLeader
    && (forall k :: 0 <= k < |cs| ==> cs[k].position == k + 1)
    && (forall i, j :: 0 <= i < j < |cs| ==> !Ahead(StandingOf(cs[j]), StandingOf(cs[i])))
    && (forall k :: 0 <= k < |cs| ==> cs[k].lapsDown == cs[0].lap - cs[k].lap >= 0)
    && (forall k :: 0 <= k < |cs| ==> (cs[k].onLeadLap <==> cs[k].lapsDown == 0))
  }

  /** Placing sorted cars keeps them, in order, and the placings are sound. */
  lemma PlacingsSpec(sorted: seq<Standing>)
    requires sorted != [] && SortedDesc(sorted)
    ensures StandingsOf(Placings(sorted)) == sorted
    ensures OrderSound(Placings(sorted))
  {
    var cs := Placings(sorted);
    forall k | 0 <= k < |cs| ensures cs[0].lap >= cs[k].lap {
      if k > 0 { assert !Ahead(sorted[k], sorted[0]); }
    }
  }

  predicate DistinctIds(states: seq<Standing>)
  {
    forall i, j :: 0 <= i < j < |states| ==> states[i].id != states[j].id
  }

  /** The placings are the input cars, each once, in strictly descending
      (lap, lapdist, id) order with positions 1..n; the leader is the car
      at position 1, the clamp of laps down never applies, and a car is on
      the lead lap exactly when it is 0 laps down. */
  lemma RaceOrderSpec(states: seq<Standing>)
    requires states != []
    ensures var r := GetRaceOrder(states);
      multiset(StandingsOf(r.cars)) == multiset(states)
      && r.leader == Some(r.cars[0].id) && OrderSound(r.cars)
  {
    var sorted := SortDesc(states);
    assert |sorted| == |multiset(sorted)| == |states|;
    PlacingsSpec(sorted);
  }

  /** With distinct ids exactly one car is the leader, and the order is
      strict. */
  lemma RaceOrderLeaderUnique(states: seq<Standing>)
    requires states != [] && DistinctIds(states)
    ensures var cs := GetRaceOrder(states).cars;
      (forall k :: 0 <= k < |cs| ==> (cs[k].isLeader <==> k == 0))
      && forall i, j :: 0 <= i < j < |cs| ==> Ahead(StandingOf(cs[i]), StandingOf(cs[j]))
  {
    var sorted := SortDesc(states);
    var cs := GetRaceOrder(states).cars;
    assert |sorted| == |multiset(sorted)| == |states|;
    forall i, j | 0 <= i < j < |sorted| ensures sorted[i].id != sorted[j].id {
      DistinctSurvivesPermutation(states, sorted, i, j);
    }
    forall i, j | 0 <= i < j < |cs| ensures Ahead(StandingOf(cs[i]), StandingOf(cs[j])) {
      assert StandingOf(cs[i]) == sorted[i] && StandingOf(cs[j]) == sorted[j];
      AheadOrNot(sorted[j], sorted[i]);
    }
  }

  lemma DistinctSurvivesPermutation(s: seq<Standing>, q: seq<Standing>, i: int, j: int)
    requires DistinctIds(s) && multiset(q) == multiset(s)
    requires 0 <= i < j < |q|
    ensures q[i].id != q[j].id
  {
    if q[i].id == q[j].id {
      assert q[i] in multiset(s) && q[j] in multiset(s);
      var a :| 0 <= a < |s| && s[a] == q[i];
      var b :| 0 <= b < |s| && s[b] == q[j];
      if a == b {
        assert q[i] == q[j];
        var m := multiset(q);
        assert multiset(q[..i] + [q[i]] + q[i + 1..j] + [q[j]] + q[j + 1..]) == m by {
          assert q == q[..i] + [q[i]] + q[i + 1..j] + [q[j]] + q[j + 1..];
        }
        assert m[q[i]] >= 2;
        MultisetCountDistinct(s, a);
      }
    }
  }

  lemma MultisetCountDistinct(s: seq<Standing>, a: int)
    requires DistinctIds(s) && 0 <= a < |s|
    ensures multiset(s)[s[a]] == 1
  {
    assert s == s[..a] + [s[a]] + s[a + 1..];
    assert forall k :: 0 <= k < |s| && k != a ==> s[k] != s[a];
    assert s[a] !in s[..a];
    var tail := s[a + 1..];
    assert forall k :: 0 <= k < |tail| ==> tail[k] == s[a + 1 + k];
    assert s[a] !in tail;
    assert multiset(s) == multiset(s[..a]) + multiset{s[a]} + multiset(s[a + 1..]);
  }

  // ---------------------------------------------------------------------
  // Trails (`get_full_trace`, `get_fading_trail`, `get_last_lap_trace`)
  // ---------------------------------------------------------------------

  /** The positions of samples lo..hi-1, empty when lo >= hi (Python `range`). */
  function TraceRange(ps: seq<Point>, lo: int, hi: int): (t: seq<Point>)
    requires lo >= 0 && hi <= |ps|
    ensures |t| == if lo < hi then hi - lo else 0
    ensures forall k :: 0 <= k < |t| ==> t[k] == ps[lo + k]
  {
    if lo < hi then ps[lo..hi] else []
  }

  /** `get_fading_trail`: the start is taken from the unclamped frame,
      the end is clamped to the last sample. */
  function FadingTrail(ps: seq<Point>, currentMs: real, durationS: real): (t: seq<Point>)
    ensures |t| <= |ps|
    ensures |ps| == 0 ==> t == []
  {
    var cur := Trunc(currentMs / SampleMs);
    var start := MaxInt(0, cur - Trunc(durationS * 100.0));
    var end := if cur >= |ps| then |ps| - 1 else cur;
    if start <= end then TraceRange(ps, start, end + 1) else []
  }

  function MaxInt(a: int, b: int): int { if a >= b then a else b }

  /** Within the recording the fading trail is the last `duration * 100`
      samples up to the current one, ending at the current sample; a frame
      before the start of the recording gives an empty trail. */
  lemma FadingTrailSpec(ps: seq<Point>, currentMs: real, durationS: real)
    ensures var cur := Trunc(currentMs / SampleMs);
      var t := FadingTrail(ps, currentMs, durationS);
      (0 <= cur < |ps| && durationS >= 0.0 ==>
         (|t| > 0 && t[|t| - 1] == ps[cur] && |t| == cur + 1 - MaxInt(0, cur - Trunc(durationS * 100.0))))
      && (cur < 0 ==> t == [])
  {
  }

  /** `get_last_lap_trace`: the last complete lap between the last two lap
      starts, or the full trace. */
  function LastLapTrace(ps: seq<Point>, starts: seq<int>): (t: seq<Point>)
    requires forall k :: 0 <= k < |starts| ==> 0 <= starts[k] <= |ps|
    ensures |starts| < 2 ==> t == ps
    ensures |starts| >= 2 ==> var a, b := starts[|starts| - 2], starts[|starts| - 1];
      |t| == (if a < b then b - a else 0) && forall k :: 0 <= k < |t| ==> t[k] == ps[a + k]
  {
    if |starts| >= 2 then TraceRange(ps, starts[|starts| - 2], starts[|starts| - 1]) else ps
  }

  // ---------------------------------------------------------------------
  // Trail file names (`_load_trail_data`)
  // ---------------------------------------------------------------------

  const TrailPrefix: string := "trail_"
  const TrailMarker: string := "_fastestlap_"

  /** The text written after the id in a trail file name:
      `{int(seconds)}s_{compare}.csv`. */
  function TrailSuffix(seconds: int, compare: string): string
  {
    IntToDecimal(seconds) + "s_" + compare + ".csv"
  }

  function TrailName(safeId: string, seconds: int, compare: string): string
  {
    TrailPrefix + safeId + TrailMarker + TrailSuffix(seconds, compare)
  }

  predicate StartsWith(s: string, p: string) { |p| <= |s| && s[..|p|] == p }

  /** The vehicle id read from a trail file name, as written: the text
      between "trail_" and the first "_fastestlap_". */
  function TrailIdAsWritten(base: string): (r: Option<string>)
    ensures r.Some? <==> StartsWith(base, TrailPrefix) && Contains(base, TrailMarker)
    ensures r.Some? ==> StartsWith(base, TrailPrefix + r.value)
  {
    if StartsWith(base, TrailPrefix) && Contains(base, TrailMarker) then
      Some(SplitFirst(base[|TrailPrefix|..], TrailMarker))
    else None
  }

  /** The vehicle id read from a trail file name, corrected: the text
      between "trail_" and the last "_fastestlap_". */
  function TrailId(base: string): (r: Option<string>)
    ensures r.Some? <==> StartsWith(base, TrailPrefix) && Contains(base, TrailMarker)
    ensures r.Some? ==> StartsWith(base, TrailPrefix + r.value)
  {
    if StartsWith(base, TrailPrefix) && Contains(base, TrailMarker) then
      Some(SplitLast(base[|TrailPrefix|..], TrailMarker))
    else None
  }

  /** An id that ends in "_fastestlap" is cut short by the first-match
      parse: "a_fastestlap" is read back as "a", whatever the trail length
      and comparison. */
  lemma TrailIdAsWrittenMisreads(seconds: int, compare: string)
    ensures TrailIdAsWritten(TrailName("a_fastestlap", seconds, compare)) == Some("a")
  {
    var w := TrailSuffix(seconds, compare);
    var name := TrailName("a_fastestlap", seconds, compare);
    var rest := "fastestlap_" + w;
    var inner := "a" + TrailMarker + rest;
    MisreadName(w);
    assert name == TrailPrefix + inner;
    assert name[..|TrailPrefix|] == TrailPrefix;
    assert name[|TrailPrefix|..] == inner;
    assert inner[1..13] == TrailMarker;
    assert OccursAt(inner, TrailMarker, 1);
    assert OccursAt(name, TrailMarker, 7) by {
      assert name[7..19] == inner[1..13];
    }
    assert inner[0] != TrailMarker[0];
    assert !OccursAt(inner, TrailMarker, 0);
    SplitFirstConcat("a", TrailMarker, rest);
  }

  lemma MisreadName(w: string)
    ensures TrailPrefix + "a_fastestlap" + TrailMarker + w == TrailPrefix + ("a" + TrailMarker + ("fastestlap_" + w))
  {
    assert "a_fastestlap" + TrailMarker == "a" + TrailMarker + "fastestlap_";
  }

  /** After the marker that ends the id, a suffix without the letter 'p'
      holds no further marker. */
  lemma NoMarkerAfter(v: string, w: string)
    requires 'p' !in w
    ensures forall q :: |v| < q ==> !OccursAt(v + TrailMarker + w, TrailMarker, q)
  {
    var s := v + TrailMarker + w;
    forall q | |v| < q && q + |TrailMarker| <= |s| ensures !OccursAt(s, TrailMarker, q) {
      if q + 10 == |v| + 11 {
        assert s[q + 10] == TrailMarker[11] == '_';
      } else {
        assert s[q + 10] == w[q + 10 - |v| - 12];
        assert w[q + 10 - |v| - 12] in w;
      }
      assert s[q..q + 12][10] == s[q + 10] != TrailMarker[10];
    }
  }

  /** The text after the marker has no 'p' when the comparison has none. */
  lemma SuffixWithoutP(seconds: int, compare: string)
    requires 'p' !in compare
    ensures 'p' !in TrailSuffix(seconds, compare)
  {
    var ds := IntToDecimal(seconds);
    var w := TrailSuffix(seconds, compare);
    assert w == ds + "s_" + compare + ".csv";
    forall o | 0 <= o < |w| ensures w[o] != 'p' {
      if o < |ds| {
        assert w[o] == ds[o];
      } else if o < |ds| + 2 {
        assert w[o] == "s_"[o - |ds|];
      } else if o < |ds| + 2 + |compare| {
        assert w[o] == compare[o - |ds| - 2];
      } else {
        assert w[o] == ".csv"[o - |ds| - 2 - |compare|];
      }
    }
  }

  /** The corrected parse reads back every id whose file was written with
      a comparison name without the letter 'p' ("ref", "ideal"). */
  lemma TrailIdRoundTrip(safeId: string, seconds: int, compare: string)
    requires 'p' !in compare
    ensures TrailId(TrailName(safeId, seconds, compare)) == Some(safeId)
  {
    var w := TrailSuffix(seconds, compare);
    var name := TrailName(safeId, seconds, compare);
    var inner := safeId + TrailMarker + w;
    assert name == TrailPrefix + inner;
    assert name[..|TrailPrefix|] == TrailPrefix;
    assert name[|TrailPrefix|..] == inner;
    var at := |TrailPrefix| + |safeId|;
    assert name[at..at + |TrailMarker|] == TrailMarker;
    assert OccursAt(name, TrailMarker, at);
    SuffixWithoutP(seconds, compare);
    NoMarkerAfter(safeId, w);
    SplitLastConcat(safeId, TrailMarker, w);
  }
}
