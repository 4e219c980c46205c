/** The registry of loaded sessions: each processed directory gets an id
    "dataset_N" from a counter that only grows; exactly one entry is active
    whenever any is loaded. */
module DatasetManager {
  import opened Common

  /** The fields of a session's metadata file that the registry reads;
      a missing key is None. */
  datatype Metadata = Metadata(
    carIds: Option<seq<string>>,
    totalDurationMs: Option<real>,
    sessionName: Option<string>,
    trackName: Option<string>)

  datatype DatasetInfo = DatasetInfo(
    name: string,
    dataDir: string,
    carIds: seq<string>,
    totalDurationMs: real,
    sessionName: string,
    trackName: string,
    displayName: string)

  const SessionWord: string := "Session"
  const SessionPrefix: string := "Session - "
  const UnknownTrack: string := "Unknown Track"

  /** The name shown for a directory name: kept when it already says
      "Session", otherwise prefixed with "Session - ". */
  function DisplayName(name: string): (r: string)
    ensures Contains(name, SessionWord) ==> r == name
    ensures !Contains(name, SessionWord) ==> r == SessionPrefix + name
  {
    if Contains(name, SessionWord) then name else SessionPrefix + name
  }

  /** Every display name mentions "Session", and naming is idempotent. */
  lemma DisplayNameSpec(name: string)
    ensures Contains(DisplayName(name), SessionWord)
    ensures DisplayName(DisplayName(name)) == DisplayName(name)
  {
    if !Contains(name, SessionWord) {
      var r := SessionPrefix + name;
      assert r[0..|SessionWord|] == SessionWord;
      assert OccursAt(r, SessionWord, 0);
    }
  }

  /** `DatasetInfo.__init__`: metadata fields with their defaults. */
  function MakeInfo(name: string, dataDir: string, metadata: Metadata): (r: DatasetInfo)
    ensures r.name == name && r.dataDir == dataDir
    ensures r.carIds == (if metadata.carIds.Some? then metadata.carIds.value else [])
    ensures r.totalDurationMs == (if metadata.totalDurationMs.Some? then metadata.totalDurationMs.value else 0.0)
    ensures r.sessionName == (if metadata.sessionName.Some? then metadata.sessionName.value else name)
    ensures r.trackName == (if metadata.trackName.Some? then metadata.trackName.value else UnknownTrack)
    ensures r.displayName == DisplayName(name)
  {
    DatasetInfo(name, dataDir, GetOr(metadata.carIds, []), GetOr(metadata.totalDurationMs, 0.0),
                GetOr(metadata.sessionName, name), GetOr(metadata.trackName, UnknownTrack),
                DisplayName(name))
  }

  /** `os.path.basename` (POSIX separator): the text after the last '/'. */
  function Basename(path: string): (r: string)
    ensures '/' !in r
    ensures |r| <= |path| && path[|path| - |r|..] == r
  {
    var i := LastIndex(path, "/", |path|);
    NoSlashAfter(path, i);
    if i < 0 then path else path[i + 1..]
  }

  lemma NoSlashAfter(path: string, i: int)
    requires -1 <= i
    requires forall q :: i < q <= |path| ==> !OccursAt(path, "/", q)
    ensures i + 1 <= |path| ==> '/' !in path[i + 1..]
  {
    if i + 1 <= |path| {
      forall k | i < k < |path|
        ensures path[k] != '/'
      {
        assert path[k..k + 1] == [path[k]];
        assert "/" == ['/'];
        assert !OccursAt(path, "/", k);
      }
      var r := path[i + 1..];
      assert forall j :: 0 <= j < |r| ==> r[j] == path[i + 1 + j];
    }
  }

  // -----------------------------------------------------------------------
  // Duration "m:ss"
  // -----------------------------------------------------------------------

  /** Whole minutes and whole seconds of a duration in milliseconds, as
      `int(total_seconds // 60)` and `int(total_seconds % 60)` compute them
      with Python's floored division and modulo. */
  function DurationParts(ms: real): (int, int)
  {
    var totalSeconds := ms / 1000.0;
    var minutes := (totalSeconds / 60.0).Floor;
    var rest := totalSeconds - 60.0 * minutes as real;
    (minutes, rest.Floor)
  }

  /** The seconds are 0..59 and together with the minutes make up the
      whole seconds of the duration; a duration >= 0 has minutes >= 0. */
  lemma DurationPartsSpec(ms: real)
    ensures var (m, s) := DurationParts(ms);
      0 <= s < 60 && 60 * m + s == (ms / 1000.0).Floor && (ms >= 0.0 ==> m >= 0)
  {
    var totalSeconds := ms / 1000.0;
    var (m, s) := DurationParts(ms);
    var rest := totalSeconds - 60.0 * m as real;
    assert 0.0 <= rest < 60.0;
    assert (60 * m + s) as real <= totalSeconds < (60 * m + s) as real + 1.0;
  }

  /** `{:02d}` for 0..99: two decimal digits. */
  function Pad2(n: int): (r: string)
    requires 0 <= n < 100
    ensures |r| == 2 && forall k :: 0 <= k < 2 ==> IsDigit(r[k])
    ensures DecimalToNat(r) == n
  {
    DecimalRoundTrip(n);
    if n < 10 then
      var r := "0" + NatToDecimal(n);
      assert r[..1] == "0" && r[1..] == NatToDecimal(n);
      r
    else
      NatToDecimal(n)
  }

  /** `get_duration_string`: the minutes, a colon and the seconds as two
      digits. */
  function DurationString(ms: real): (r: string)
    ensures |r| >= 4 && r[|r| - 3] == ':'
  {
    DurationPartsSpec(ms);
    var (m, s) := DurationParts(ms);
    IntToDecimal(m) + ":" + Pad2(s)
  }

  /** Reads "m:ss" back into minutes and seconds. */
  function ParseDuration(r: string): Option<(int, int)>
  {
    if |r| >= 4 && r[|r| - 3] == ':'
       && SignedDigits(r[..|r| - 3])
       && IsDigit(r[|r| - 2]) && IsDigit(r[|r| - 1])
    then
      var tail := r[|r| - 2..];
      assert forall k :: 0 <= k < |tail| ==> IsDigit(tail[k]);
      Some((DecimalToInt(r[..|r| - 3]), DecimalToNat(tail)))
    else None
  }

  /** The text reads back as the minutes and seconds of the duration: the
      minutes before the colon, the seconds in the two digits after it. */
  lemma DurationStringSpec(ms: real)
    ensures var r := DurationString(ms);
      r[..|r| - 3] == IntToDecimal(DurationParts(ms).0)
      && ParseDuration(r) == Some(DurationParts(ms))
  {
    DurationPartsSpec(ms);
    var (m, s) := DurationParts(ms);
    var r := DurationString(ms);
    assert r[..|r| - 3] == IntToDecimal(m);
    assert r[|r| - 2..] == Pad2(s);
    IntDecimalRoundTrip(m);
  }

  /** `get_summary`: the display name, the car count and the duration
      string, separated by " | ". */
  function Summary(info: DatasetInfo): (r: string)
    ensures var d := DurationString(info.totalDurationMs);
      |r| >= |info.displayName| + |d|
      && r[..|info.displayName|] == info.displayName
      && r[|info.displayName|..|r| - |d|] == " | " + NatToDecimal(|info.carIds|) + " cars | "
      && r[|r| - |d|..] == d
  {
    var d := DurationString(info.totalDurationMs);
    var name := info.displayName;
    var middle := " | " + NatToDecimal(|info.carIds|) + " cars | ";
    var r := name + middle + d;
    assert r[..|name|] == name && r[|name|..|r| - |d|] == middle && r[|r| - |d|..] == d;
    r
  }

  // -----------------------------------------------------------------------
  // Dataset ids
  // -----------------------------------------------------------------------

  const IdPrefix: string := "dataset_"

  function DatasetId(n: nat): string
  {
    IdPrefix + NatToDecimal(n)
  }

  /** The counter value an id was issued from. */
  function ParseId(id: string): Option<nat>
  {
    if |id| > |IdPrefix| && id[..|IdPrefix|] == IdPrefix
       && forall k :: |IdPrefix| <= k < |id| ==> IsDigit(id[k])
    then Some(DecimalToNat(id[|IdPrefix|..]))
    else None
  }

  /** An id reads back as its counter value, so distinct counter values
      give distinct ids. */
  lemma IdRoundTrip(n: nat)
    ensures ParseId(DatasetId(n)) == Some(n)
  {
    var id := DatasetId(n);
    assert id[..|IdPrefix|] == IdPrefix && id[|IdPrefix|..] == NatToDecimal(n);
    DecimalRoundTrip(n);
  }

  lemma IdsDistinct(a: nat, b: nat)
    requires a != b
    ensures DatasetId(a) != DatasetId(b)
  {
    IdRoundTrip(a);
    IdRoundTrip(b);
  }

  /** The ids in order with x taken out. */
  function Without(s: seq<string>, x: string): (r: seq<string>)
    ensures forall y :: y in r <==> y in s && y != x
    ensures |r| <= |s|
  {
    if s == [] then []
    else if s[0] == x then Without(s[1..], x)
    else [s[0]] + Without(s[1..], x)
  }

  lemma {:induction false} WithoutDistinct(s: seq<string>, x: string)
    requires Distinct(s)
    ensures Distinct(Without(s, x))
  {
    if s != [] {
      assert Distinct(s[1..]);
      WithoutDistinct(s[1..], x);
      if s[0] != x {
        assert s[0] !in s[1..];
        var r := Without(s[1..], x);
        assert s[0] !in r;
        assert Without(s, x) == [s[0]] + r;
      }
    }
  }

  lemma DistinctCount(s: seq<string>, keys: set<string>)
    requires Distinct(s) && forall y :: y in s <==> y in keys
    ensures |s| == |keys|
  {
    if s != [] {
      var rest := s[1..];
      assert forall y :: y in rest <==> y in keys - {s[0]};
      DistinctCount(rest, keys - {s[0]});
    } else {
      assert keys == {};
    }
  }

  /** (id, info) for each id in turn. */
  function Pairs(ids: seq<string>, m: map<string, DatasetInfo>): (r: seq<(string, DatasetInfo)>)
    requires forall k :: 0 <= k < |ids| ==> ids[k] in m
    ensures |r| == |ids| && forall k :: 0 <= k < |r| ==> r[k] == (ids[k], m[ids[k]])
  {
    if ids == [] then [] else [(ids[0], m[ids[0]])] + Pairs(ids[1..], m)
  }

  /** One row of `get_comparison_data`. */
  datatype Entry = Entry(
    id: string,
    name: string,
    carCount: nat,
    duration: string,
    durationMs: real,
    track: string,
    isActive: bool)

  datatype Comparison = NoDatasets | Comparison(datasetCount: nat, datasets: seq<Entry>)

  function EntryOf(id: string, info: DatasetInfo, active: Option<string>): Entry
  {
    Entry(id, info.displayName, |info.carIds|, DurationString(info.totalDurationMs),
          info.totalDurationMs, info.trackName, active == Some(id))
  }

  class Registry {
    var datasets: map<string, DatasetInfo>
    /** The ids in insertion order (the order the dictionary iterates in). */
    var order: seq<string>
    var active: Option<string>
    var nextId: nat

    /** The ids are exactly the keys, each once, each issued from a counter
        value below nextId; the active id is a key, and there is one
        exactly when some dataset is loaded. */
    ghost predicate Valid()
      reads this
    {
      nextId >= 1
      && Distinct(order)
      && (forall id :: id in datasets <==> id in order)
      && (forall id :: id in datasets ==> ParseId(id).Some? && ParseId(id).value < nextId)
      && (active.None? <==> datasets == map[])
      && (active.Some? ==> active.value in datasets)
    }

    constructor ()
      ensures Valid()
      ensures datasets == map[] && order == [] && active == None && nextId == 1
    {
      datasets, order, active, nextId := map[], [], None, 1;
    }

    /** `add_dataset` on a directory whose metadata has been read: a fresh
        id, the entry appended, and the first entry made active. */
    method AddDataset(dataDir: string, metadata: Metadata) returns (id: string, info: DatasetInfo)
      requires Valid()
      modifies this
      ensures Valid()
      ensures id == DatasetId(old(nextId)) && id !in old(datasets)
      ensures info == MakeInfo(Basename(dataDir), dataDir, metadata)
      ensures datasets == old(datasets)[id := info] && order == old(order) + [id]
      ensures nextId == old(nextId) + 1
      ensures active == if old(active).None? then Some(id) else old(active)
    {
      id := DatasetId(nextId);
      IdRoundTrip(nextId);
      nextId := nextId + 1;
      info := MakeInfo(Basename(dataDir), dataDir, metadata);
      datasets := datasets[id := info];
      order := order + [id];
      if active.None? {
        active := Some(id);
      }
    }

    /** `set_active_dataset`: False and no change for an unknown id. */
    method SetActive(id: string) returns (ok: bool)
      requires Valid()
      modifies this
      ensures Valid()
      ensures ok <==> id in old(datasets)
      ensures active == if ok then Some(id) else old(active)
      ensures datasets == old(datasets) && order == old(order) && nextId == old(nextId)
    {
      if id !in datasets {
        return false;
      }
      active := Some(id);
      return true;
    }

    /** `remove_dataset`: False for an unknown id and for the only dataset
        when it is the active one; removing the active entry activates the
        first remaining one in insertion order. */
    method Remove(id: string) returns (ok: bool)
      requires Valid()
      modifies this
      ensures Valid()
      ensures ok <==> id in old(datasets) && !(old(active) == Some(id) && |old(datasets)| == 1)
      ensures ok ==> datasets == old(datasets) - {id} && order == Without(old(order), id)
      ensures ok && old(active) == Some(id) ==>
        |Without(old(order), id)| > 0 && active == Some(Without(old(order), id)[0])
      ensures ok && old(active) != Some(id) ==> active == old(active)
      ensures !ok ==> datasets == old(datasets) && order == old(order) && active == old(active)
      ensures old(datasets) != map[] ==> datasets != map[]
      ensures nextId == old(nextId)
    {
      if id !in datasets {
        return false;
      }
      if Some(id) == active && |datasets| == 1 {
        return false;
      }
      var remaining := Without(order, id);
      WithoutDistinct(order, id);
      if Some(id) == active {
        DistinctCount(order, datasets.Keys);
        assert order[0] != order[1];
        assert order[0] in remaining || order[1] in remaining;
        if remaining != [] {
          active := Some(remaining[0]);
        }
      }
      datasets := datasets - {id};
      order := remaining;
      return true;
    }

    /** `get_active_dataset`. */
    function ActiveDataset(): (r: Option<DatasetInfo>)
      requires Valid()
      reads this
      ensures r.Some? <==> datasets != map[]
      ensures r.Some? ==> r.value == datasets[active.value]
    {
      if active.None? then None else Some(datasets[active.value])
    }

    /** `get_active_data_dir`. */
    function ActiveDataDir(): (r: Option<string>)
      requires Valid()
      reads this
      ensures r.Some? <==> datasets != map[]
      ensures r.Some? ==> r.value == datasets[active.value].dataDir
    {
      match ActiveDataset()
      case Some(info) => Some(info.dataDir)
      case None => None
    }

    /** `get_dataset_list`: (id, info) pairs in insertion order. */
    function DatasetList(): (r: seq<(string, DatasetInfo)>)
      requires Valid()
      reads this
      ensures |r| == |datasets|
      ensures forall k :: 0 <= k < |r| ==> r[k].0 in datasets && r[k].1 == datasets[r[k].0]
      ensures forall j, k :: 0 <= j < k < |r| ==> r[j].0 != r[k].0
    {
      DistinctCount(order, datasets.Keys);
      Pairs(order, datasets)
    }

    /** `has_multiple_datasets`. */
    function HasMultiple(): (r: bool)
      requires Valid()
      reads this
      ensures r <==> |order| > 1
    {
      DistinctCount(order, datasets.Keys);
      |datasets| > 1
    }

    /** `get_comparison_data`: nothing when empty, otherwise one row per
        dataset in insertion order, with exactly the active one marked. */
    method ComparisonData() returns (r: Comparison)
      requires Valid()
      ensures datasets == map[] <==> r == NoDatasets
      ensures r.Comparison? ==> r.datasetCount == |datasets| && |r.datasets| == |order|
      ensures r.Comparison? ==>
        forall k :: 0 <= k < |order| ==> r.datasets[k] == EntryOf(order[k], datasets[order[k]], active)
      ensures r.Comparison? ==>
        forall k :: 0 <= k < |order| ==> (r.datasets[k].isActive <==> active == Some(order[k]))
    {
      if |datasets| == 0 {
        assert datasets == map[];
        return NoDatasets;
      }
      var rows: seq<Entry> := [];
      var i := 0;
      while i < |order|
        invariant 0 <= i <= |order|
        invariant |rows| == i
        invariant forall k :: 0 <= k < i ==> rows[k] == EntryOf(order[k], datasets[order[k]], active)
      {
        rows := rows + [EntryOf(order[i], datasets[order[i]], active)];
        i := i + 1;
      }
      r := Comparison(|datasets|, rows);
    }
  }

  /** Exactly one comparison row is marked active. */
  lemma OneActiveRow(r: Comparison, order: seq<string>, active: string)
    requires r.Comparison? && |r.datasets| == |order| && Distinct(order) && active in order
    requires forall k :: 0 <= k < |order| ==> (r.datasets[k].isActive <==> Some(active) == Some(order[k]))
    ensures exists k :: 0 <= k < |order| && r.datasets[k].isActive
    ensures forall j, k :: 0 <= j < k < |order| ==> !(r.datasets[j].isActive && r.datasets[k].isActive)
  {
    var k :| 0 <= k < |order| && order[k] == active;
    assert r.datasets[k].isActive;
  }
}
