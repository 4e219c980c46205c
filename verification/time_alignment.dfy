/** Race-start detection for one car and alignment of its timestamps to that
    start. Timestamps are integer milliseconds; the input table is never
    modified (the source works on a copy). */
module TimeAlignment {
  import opened Common

  /** One telemetry row as the detector sees it. */
  datatype Row = Row(timestampMs: int, lapdist: real, speed: real)

  /** A lap-distance drop of more than this many metres is a reset. */
  const ResetDrop: real := 1000.0
  /** A car is moving when its speed exceeds this value. */
  const MovingSpeed: real := 20.0
  /** Length of the moving window, in milliseconds. */
  const WindowMs: int := 3000

  /** Row i is a reset: its lap distance dropped by more than 1000 against the
      previous row (row 0 has no previous row and never is). */
  predicate IsReset(rows: seq<Row>, i: int)
  {
    1 <= i < |rows| && rows[i].lapdist - rows[i - 1].lapdist < -ResetDrop
  }

  function ResetAt(rows: seq<Row>): int -> bool
  {
    (i: int) => IsReset(rows, i)
  }

  function ResetsBelow(rows: seq<Row>, k: int): seq<int>
    requires k <= |rows|
  {
    IndicesWhere(k, ResetAt(rows))
  }

  /** The reset rows, in row order. */
  function Resets(rows: seq<Row>): seq<int>
  {
    ResetsBelow(rows, |rows|)
  }

  lemma ResetsBelowSpec(rows: seq<Row>, k: int)
    requires k <= |rows|
    ensures forall x :: x in ResetsBelow(rows, k) <==> 1 <= x < k && IsReset(rows, x)
    ensures StrictlyIncreasing(ResetsBelow(rows, k))
  {
    IndicesWhereSpec(k, ResetAt(rows));
  }

  predicate Moving(r: Row) { r.speed > MovingSpeed }

  /** Row j falls in the window that opens at row i's timestamp. */
  predicate InWindow(rows: seq<Row>, i: int, j: int)
    requires 0 <= i < |rows| && 0 <= j < |rows|
  {
    rows[i].timestampMs <= rows[j].timestampMs < rows[i].timestampMs + WindowMs
  }

  /** Row i opens a 3 s window in which every row is moving. */
  predicate IsWindowStart(rows: seq<Row>, i: int)
    requires 0 <= i < |rows|
  {
    forall j :: 0 <= j < |rows| && InWindow(rows, i, j) ==> Moving(rows[j])
  }

  /** Timestamps of the qualifying window starts among the first k rows, in row order. */
  function WindowStartsBelow(rows: seq<Row>, k: int): seq<int>
    requires 0 <= k <= |rows|
  {
    if k == 0 then []
    else WindowStartsBelow(rows, k - 1)
         + (if IsWindowStart(rows, k - 1) then [rows[k - 1].timestampMs] else [])
  }

  function WindowStarts(rows: seq<Row>): seq<int>
  {
    WindowStartsBelow(rows, |rows|)
  }

  /** Every entry of `idx` indexes a row. */
  predicate RowIndices(idx: seq<int>, n: int)
  {
    forall k :: 0 <= k < |idx| ==> 0 <= idx[k] < n
  }

  lemma ResetsAreRowIndices(rows: seq<Row>)
    ensures RowIndices(Resets(rows), |rows|)
  {
    ResetsBelowSpec(rows, |rows|);
    var rs := Resets(rows);
    forall k | 0 <= k < |rs| ensures 0 <= rs[k] < |rows| { assert rs[k] in rs; }
  }

  /** Some qualifying window opens no later than time t. */
  predicate AfterSomeWindow(t: int, starts: seq<int>)
  {
    exists w :: w in starts && t >= w
  }

  /** The first reset, in order, that lies at or after some qualifying window start. */
  function FirstAfterWindow(rows: seq<Row>, resets: seq<int>, starts: seq<int>): Option<int>
    requires RowIndices(resets, |rows|)
  {
    if resets == [] then None
    else if AfterSomeWindow(rows[resets[0]].timestampMs, starts) then Some(rows[resets[0]].timestampMs)
    else FirstAfterWindow(rows, resets[1..], starts)
  }

  /** The first reset, in order, at which the car is moving. */
  function FirstMovingReset(rows: seq<Row>, resets: seq<int>): Option<int>
    requires RowIndices(resets, |rows|)
  {
    if resets == [] then None
    else if Moving(rows[resets[0]]) then Some(rows[resets[0]].timestampMs)
    else FirstMovingReset(rows, resets[1..])
  }

  /** The race start the source returns; None where it raises (an empty table). */
  function RaceStart(rows: seq<Row>): Option<int>
  {
    var rs := Resets(rows);
    ResetsAreRowIndices(rows);
    if rs == [] then (if |rows| == 0 then None else Some(rows[0].timestampMs))
    else match FirstAfterWindow(rows, rs, WindowStarts(rows))
      case Some(t) => Some(t)
      case None =>
        match FirstMovingReset(rows, rs)
        case Some(t) => Some(t)
        case None => Some(rows[rs[0]].timestampMs)
  }

  /** Race-start detection as the source performs it: collect resets, collect
      window starts, then scan resets against window starts with early exit. */
  method DetectRaceStart(rows: seq<Row>) returns (start: Option<int>)
    ensures start == RaceStart(rows)
  {
    var resets := CollectResets(rows);
    ResetsAreRowIndices(rows);
    if |resets| == 0 {
      if |rows| == 0 { return None; }
      return Some(rows[0].timestampMs);
    }
    var starts := CollectWindowStarts(rows);
    start := ScanAfterWindow(rows, resets, starts);
    if start.None? {
      start := ScanMoving(rows, resets);
      if start.None? {
        start := Some(rows[resets[0]].timestampMs);
      }
    }
  }

  /** The reset rows, collected by one pass over consecutive pairs. */
  method CollectResets(rows: seq<Row>) returns (resets: seq<int>)
    ensures resets == Resets(rows)
  {
    resets := [];
    var i := 1;
    while i < |rows|
      invariant 1 <= i && (i <= |rows| || |rows| == 0)
      invariant resets == ResetsBelow(rows, if i <= |rows| then i else |rows|)
    {
      if rows[i].lapdist - rows[i - 1].lapdist < -ResetDrop {
        resets := resets + [i];
      }
      i := i + 1;
    }
  }

  /** The timestamps of the rows that open a qualifying window, in row order. */
  method CollectWindowStarts(rows: seq<Row>) returns (starts: seq<int>)
    ensures starts == WindowStarts(rows)
  {
    starts := [];
    var i := 0;
    while i < |rows|
      invariant 0 <= i <= |rows|
      invariant starts == WindowStartsBelow(rows, i)
    {
      var opens := OpensWindow(rows, i);
      if opens {
        starts := starts + [rows[i].timestampMs];
      }
      i := i + 1;
    }
  }

  /** Whether row i opens a window that is non-empty and all moving. */
  method OpensWindow(rows: seq<Row>, i: int) returns (opens: bool)
    requires 0 <= i < |rows|
    ensures opens == IsWindowStart(rows, i)
  {
    var count := 0;
    var allMoving := true;
    var j := 0;
    while j < |rows|
      invariant 0 <= j <= |rows|
      invariant j > i ==> count > 0
      invariant allMoving <==> forall m :: 0 <= m < j && InWindow(rows, i, m) ==> Moving(rows[m])
    {
      if rows[i].timestampMs <= rows[j].timestampMs < rows[i].timestampMs + WindowMs {
        count := count + 1;
        if !(rows[j].speed > MovingSpeed) { allMoving := false; }
      }
      j := j + 1;
    }
    opens := count > 0 && allMoving;
  }

  /** The first reset at or after some window start, scanning with early exit. */
  method ScanAfterWindow(rows: seq<Row>, resets: seq<int>, starts: seq<int>) returns (found: Option<int>)
    requires RowIndices(resets, |rows|)
    ensures found == FirstAfterWindow(rows, resets, starts)
  {
    var k := 0;
    while k < |resets|
      invariant 0 <= k <= |resets|
      invariant FirstAfterWindow(rows, resets, starts) == FirstAfterWindow(rows, resets[k..], starts)
    {
      var t := rows[resets[k]].timestampMs;
      var after := AtOrAfterSome(t, starts);
      assert resets[k..][0] == resets[k];
      if after {
        return Some(t);
      }
      assert resets[k..][1..] == resets[k + 1..];
      k := k + 1;
    }
    return None;
  }

  /** Whether time t is at or after some window start. */
  method AtOrAfterSome(t: int, starts: seq<int>) returns (after: bool)
    ensures after == AfterSomeWindow(t, starts)
  {
    var l := 0;
    while l < |starts|
      invariant 0 <= l <= |starts|
      invariant forall m :: 0 <= m < l ==> t < starts[m]
    {
      if t >= starts[l] {
        assert starts[l] in starts;
        return true;
      }
      l := l + 1;
    }
    return false;
  }

  /** The first reset at which the car is moving, scanning with early exit. */
  method ScanMoving(rows: seq<Row>, resets: seq<int>) returns (found: Option<int>)
    requires RowIndices(resets, |rows|)
    ensures found == FirstMovingReset(rows, resets)
  {
    var k := 0;
    while k < |resets|
      invariant 0 <= k <= |resets|
      invariant FirstMovingReset(rows, resets) == FirstMovingReset(rows, resets[k..])
    {
      assert resets[k..][0] == resets[k];
      if rows[resets[k]].speed > MovingSpeed {
        return Some(rows[resets[k]].timestampMs);
      }
      assert resets[k..][1..] == resets[k + 1..];
      k := k + 1;
    }
    return None;
  }

  /** Every row opens a non-empty window: the row itself is in it. */
  lemma WindowNeverEmpty(rows: seq<Row>, i: int)
    requires 0 <= i < |rows|
    ensures InWindow(rows, i, i)
  {
  }

  lemma {:induction false} FirstAfterWindowSpec(rows: seq<Row>, resets: seq<int>, starts: seq<int>)
    requires RowIndices(resets, |rows|)
    ensures match FirstAfterWindow(rows, resets, starts)
      case Some(t) => exists k :: 0 <= k < |resets| && t == rows[resets[k]].timestampMs
                        && AfterSomeWindow(t, starts)
                        && forall m :: 0 <= m < k ==> !AfterSomeWindow(rows[resets[m]].timestampMs, starts)
      case None => forall m :: 0 <= m < |resets| ==> !AfterSomeWindow(rows[resets[m]].timestampMs, starts)
  {
    if resets != [] && !AfterSomeWindow(rows[resets[0]].timestampMs, starts) {
      FirstAfterWindowSpec(rows, resets[1..], starts);
      match FirstAfterWindow(rows, resets[1..], starts)
      case Some(t) =>
        var k :| 0 <= k < |resets[1..]| && t == rows[resets[1..][k]].timestampMs
                 && AfterSomeWindow(t, starts)
                 && forall m :: 0 <= m < k ==> !AfterSomeWindow(rows[resets[1..][m]].timestampMs, starts);
        assert forall m :: 1 <= m < k + 1 ==> resets[m] == resets[1..][m - 1];
      case None =>
        assert forall m :: 1 <= m < |resets| ==> resets[m] == resets[1..][m - 1];
    }
  }

  lemma {:induction false} FirstMovingResetSpec(rows: seq<Row>, resets: seq<int>)
    requires RowIndices(resets, |rows|)
    ensures match FirstMovingReset(rows, resets)
      case Some(t) => exists k :: 0 <= k < |resets| && t == rows[resets[k]].timestampMs
                        && Moving(rows[resets[k]])
                        && forall m :: 0 <= m < k ==> !Moving(rows[resets[m]])
      case None => forall m :: 0 <= m < |resets| ==> !Moving(rows[resets[m]])
  {
    if resets != [] && !Moving(rows[resets[0]]) {
      FirstMovingResetSpec(rows, resets[1..]);
      match FirstMovingReset(rows, resets[1..])
      case Some(t) =>
        var k :| 0 <= k < |resets[1..]| && t == rows[resets[1..][k]].timestampMs
                 && Moving(rows[resets[1..][k]])
                 && forall m :: 0 <= m < k ==> !Moving(rows[resets[1..][m]]);
        assert forall m :: 1 <= m < k + 1 ==> resets[m] == resets[1..][m - 1];
      case None =>
        assert forall m :: 1 <= m < |resets| ==> resets[m] == resets[1..][m - 1];
    }
  }

  /** The detected start is None only for an empty table, and otherwise is a
      timestamp that occurs in the table. */
  lemma RaceStartIsInputTimestamp(rows: seq<Row>)
    ensures RaceStart(rows).None? <==> |rows| == 0
    ensures RaceStart(rows).Some? ==>
      exists i :: 0 <= i < |rows| && rows[i].timestampMs == RaceStart(rows).value
  {
    ResetsBelowSpec(rows, |rows|);
    ResetsAreRowIndices(rows);
    var rs := Resets(rows);
    if rs != [] {
      assert rs[0] in rs;
      FirstAfterWindowSpec(rows, rs, WindowStarts(rows));
      FirstMovingResetSpec(rows, rs);
      match FirstAfterWindow(rows, rs, WindowStarts(rows))
      case Some(t) =>
        var k :| 0 <= k < |rs| && t == rows[rs[k]].timestampMs;
        assert rs[k] in rs;
      case None =>
        match FirstMovingReset(rows, rs)
        case Some(t) =>
          var k :| 0 <= k < |rs| && t == rows[rs[k]].timestampMs;
          assert rs[k] in rs;
        case None =>
    }
  }

  /** With at least one reset the start is a reset time: the first reset after
      a qualifying window when there is one, else the first moving reset, else
      the first reset. */
  lemma RaceStartIsReset(rows: seq<Row>)
    requires Resets(rows) != []
    ensures exists k :: (0 <= k < |Resets(rows)| && IsReset(rows, Resets(rows)[k])
      && RaceStart(rows) == Some(rows[Resets(rows)[k]].timestampMs))
  {
    ResetsBelowSpec(rows, |rows|);
    ResetsAreRowIndices(rows);
    var rs := Resets(rows);
    FirstAfterWindowSpec(rows, rs, WindowStarts(rows));
    FirstMovingResetSpec(rows, rs);
    assert rs[0] in rs;
    match FirstAfterWindow(rows, rs, WindowStarts(rows))
    case Some(t) =>
      var k :| 0 <= k < |rs| && t == rows[rs[k]].timestampMs;
      assert rs[k] in rs;
    case None =>
      match FirstMovingReset(rows, rs)
      case Some(t) =>
        var k :| 0 <= k < |rs| && t == rows[rs[k]].timestampMs;
        assert rs[k] in rs;
      case None =>
  }

  // ---------------------------------------------------------------------
  // align_time
  // ---------------------------------------------------------------------

  /** A row with its time relative to the race start, in seconds. */
  datatype AlignedRow = AlignedRow(row: Row, relTime: real)

  function RelTime(r: Row, startMs: int): real
  {
    (r.timestampMs - startMs) as real / 1000.0
  }

  /** Rows at or after the start, in their original order, with rel_time set. */
  function AlignTime(rows: seq<Row>, startMs: int): (out: seq<AlignedRow>)
  {
    if rows == [] then []
    else
      var rest := AlignTime(rows[1..], startMs);
      if RelTime(rows[0], startMs) >= 0.0 then [AlignedRow(rows[0], RelTime(rows[0], startMs))] + rest else rest
  }

  /** Every kept row has a non-negative relative time equal to its offset from
      the start; the kept rows are exactly the input rows at or after the start. */
  lemma {:induction false} AlignTimeSpec(rows: seq<Row>, startMs: int)
    ensures var out := AlignTime(rows, startMs);
      (forall a :: a in out ==> a.relTime >= 0.0 && a.relTime == RelTime(a.row, startMs) && a.row in rows)
      && (forall r :: r in rows && r.timestampMs >= startMs ==> AlignedRow(r, RelTime(r, startMs)) in out)
      && |out| <= |rows|
  {
    if rows != [] {
      AlignTimeSpec(rows[1..], startMs);
      assert forall r :: r in rows ==> r == rows[0] || r in rows[1..];
    }
  }

  /** Row r is at or after the start. */
  function AtOrAfter(startMs: int): Row -> bool
  {
    (r: Row) => RelTime(r, startMs) >= 0.0
  }

  /** Each row with its relative time. */
  function WithRelTime(rows: seq<Row>, startMs: int): seq<AlignedRow>
  {
    seq(|rows|, k requires 0 <= k < |rows| => AlignedRow(rows[k], RelTime(rows[k], startMs)))
  }

  /** Alignment is the filter to the rows at or after the start, each with
      its relative time: so every such row is kept as often as it occurs,
      and in its place. */
  lemma {:induction false} AlignTimeIsFilter(rows: seq<Row>, startMs: int)
    ensures AlignTime(rows, startMs) == WithRelTime(Filter(rows, AtOrAfter(startMs)), startMs)
  {
    if rows != [] {
      AlignTimeIsFilter(rows[1..], startMs);
      var rest := Filter(rows[1..], AtOrAfter(startMs));
      if RelTime(rows[0], startMs) >= 0.0 {
        var a := AlignedRow(rows[0], RelTime(rows[0], startMs));
        assert WithRelTime([rows[0]] + rest, startMs) == [a] + WithRelTime(rest, startMs);
      }
    }
  }

  /** Aligned rows in strictly increasing timestamp order. */
  predicate AlignedIncreasing(out: seq<AlignedRow>)
  {
    forall i, j :: 0 <= i < j < |out| ==> out[i].row.timestampMs < out[j].row.timestampMs
  }

  /** Rows with increasing timestamps stay in increasing order after alignment. */
  lemma {:induction false} AlignTimeKeepsOrder(rows: seq<Row>, startMs: int)
    requires forall i, j :: 0 <= i < j < |rows| ==> rows[i].timestampMs < rows[j].timestampMs
    ensures AlignedIncreasing(AlignTime(rows, startMs))
  {
    if rows != [] {
      var tail := rows[1..];
      assert forall i :: 0 <= i < |tail| ==> tail[i] == rows[i + 1];
      AlignTimeKeepsOrder(tail, startMs);
      var rest := AlignTime(tail, startMs);
      LaterRowsStayLater(tail, startMs, rows[0].timestampMs);
      if RelTime(rows[0], startMs) >= 0.0 {
        ConsIncreasing(AlignedRow(rows[0], RelTime(rows[0], startMs)), rest);
      }
    }
  }

  /** Alignment keeps only input rows, so a bound on every input timestamp
      bounds every aligned one. */
  lemma {:induction false} LaterRowsStayLater(rows: seq<Row>, startMs: int, t: int)
    requires forall i :: 0 <= i < |rows| ==> t < rows[i].timestampMs
    ensures forall k :: 0 <= k < |AlignTime(rows, startMs)| ==> t < AlignTime(rows, startMs)[k].row.timestampMs
  {
    if rows != [] {
      var tail := rows[1..];
      assert forall i :: 0 <= i < |tail| ==> tail[i] == rows[i + 1];
      LaterRowsStayLater(tail, startMs, t);
      var rest := AlignTime(tail, startMs);
      if RelTime(rows[0], startMs) >= 0.0 {
        var out := AlignTime(rows, startMs);
        forall k | 0 <= k < |out| ensures t < out[k].row.timestampMs {
          if k > 0 { assert out[k] == rest[k - 1]; }
        }
      }
    }
  }

  /** Putting an earlier row in front of an increasing aligned sequence keeps it increasing. */
  lemma ConsIncreasing(a: AlignedRow, rest: seq<AlignedRow>)
    requires AlignedIncreasing(rest)
    requires forall k :: 0 <= k < |rest| ==> a.row.timestampMs < rest[k].row.timestampMs
    ensures AlignedIncreasing([a] + rest)
  {
    var out := [a] + rest;
    forall i, j | 0 <= i < j < |out| ensures out[i].row.timestampMs < out[j].row.timestampMs {
      assert out[j] == rest[j - 1];
      if i > 0 { assert out[i] == rest[i - 1]; }
    }
  }
}
