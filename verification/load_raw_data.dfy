/** Extraction of one vehicle's signals from the long-format telemetry table:
    channel alias choice, 100 ms bucketing with per-bucket median or
    first-value deduplication, the inner join of the required channels, the
    left join of the optional ones and brake normalisation. Timestamp
    rounding (`dt.round('100ms')`) and the median are given functions. */
module LoadRawData {
  import opened Common

  /** One row of the long-format table. */
  datatype Event = Event(vehicleId: string, name: string, timestampMs: int, value: real, lap: int)

  /** One value of one channel at a (bucketed) timestamp. */
  datatype Sample = Sample(t: int, v: real)

  /** One row of the extracted per-vehicle table. */
  datatype SignalRow = SignalRow(timestampMs: int, lat: real, lon: real, lapdist: real, speed: real,
                                 lap: int, brakeFront: real, brakeRear: real, gear: int,
                                 steering: real, accx: real, accy: real)

  const LatName := "VBOX_Lat_Min"
  const LonName := "VBOX_Long_Minutes"
  const LapdistName := "Laptrigger_lapdist_dls"
  const SpeedName := "speed"
  const FrontBrakeAliases: seq<string> := ["pbrake_f", "brake_front", "BrakeF"]
  const RearBrakeAliases: seq<string> := ["pbrake_r", "brake_rear", "BrakeR"]
  const GenericBrakeAliases: seq<string> := ["brake", "Brake"]
  const GearAliases: seq<string> := ["gear", "Gear", "gear_position", "GearPosition"]
  const SteeringAliases: seq<string> := ["Steering_Angle", "steering", "Steering", "steering_angle"]
  const AccxAliases: seq<string> := ["accx_can", "acc_x", "accel_x"]
  const AccyAliases: seq<string> := ["accy_can", "acc_y", "accel_y"]

  // ---------------------------------------------------------------------
  // Vehicles
  // ---------------------------------------------------------------------

  /** The distinct vehicle ids, ascending. */
  function VehicleIds(events: seq<Event>): (ids: seq<string>)
    ensures StrictlyIncreasingStr(ids)
    ensures forall v :: v in ids <==> exists i :: 0 <= i < |events| && events[i].vehicleId == v
  {
    var all := seq(|events|, i requires 0 <= i < |events| => events[i].vehicleId);
    assert forall v :: v in all <==> exists i :: 0 <= i < |events| && events[i].vehicleId == v by {
      forall v | v in all ensures exists i :: 0 <= i < |events| && events[i].vehicleId == v {
        var i :| 0 <= i < |all| && all[i] == v;
      }
      forall v | exists i :: 0 <= i < |events| && events[i].vehicleId == v ensures v in all {
        var i :| 0 <= i < |events| && events[i].vehicleId == v;
        assert all[i] == v;
      }
    }
    SortedDistinctStr(all)
  }

  /** The events of one vehicle, in table order. */
  function OfVehicle(events: seq<Event>, vehicleId: string): (r: seq<Event>)
    ensures forall e :: e in r <==> e in events && e.vehicleId == vehicleId
  {
    Filter(events, (e: Event) => e.vehicleId == vehicleId)
  }

  /** The events of one channel, in table order. */
  function Named(events: seq<Event>, name: string): (r: seq<Event>)
    ensures forall e :: e in r <==> e in events && e.name == name
  {
    Filter(events, (e: Event) => e.name == name)
  }

  predicate HasEvents(events: seq<Event>, name: string)
  {
    |Named(events, name)| > 0
  }

  // ---------------------------------------------------------------------
  // Alias resolution
  // ---------------------------------------------------------------------

  /** The first alias, in list order, that has at least one event. */
  function FirstWithEvents(events: seq<Event>, aliases: seq<string>): Option<string>
  {
    if aliases == [] then None
    else if HasEvents(events, aliases[0]) then Some(aliases[0])
    else FirstWithEvents(events, aliases[1..])
  }

  lemma {:induction false} FirstWithEventsSpec(events: seq<Event>, aliases: seq<string>)
    ensures match FirstWithEvents(events, aliases)
      case Some(a) => exists k :: 0 <= k < |aliases| && aliases[k] == a && HasEvents(events, a)
                        && forall m :: 0 <= m < k ==> !HasEvents(events, aliases[m])
      case None => forall m :: 0 <= m < |aliases| ==> !HasEvents(events, aliases[m])
  {
    if aliases != [] && !HasEvents(events, aliases[0]) {
      FirstWithEventsSpec(events, aliases[1..]);
      match FirstWithEvents(events, aliases[1..])
      case Some(a) =>
        var k :| 0 <= k < |aliases[1..]| && aliases[1..][k] == a && HasEvents(events, a)
                 && forall m :: 0 <= m < k ==> !HasEvents(events, aliases[1..][m]);
        assert aliases[k + 1] == a;
      case None =>
    }
  }

  /** The alias loop with its early `break`. */
  method FindChannel(events: seq<Event>, aliases: seq<string>) returns (found: Option<string>)
    ensures found == FirstWithEvents(events, aliases)
  {
    var k := 0;
    while k < |aliases|
      invariant 0 <= k <= |aliases|
      invariant FirstWithEvents(events, aliases) == FirstWithEvents(events, aliases[k..])
    {
      if |Named(events, aliases[k])| > 0 {
        assert aliases[k..][0] == aliases[k];
        return Some(aliases[k]);
      }
      assert aliases[k..][1..] == aliases[k + 1..];
      k := k + 1;
    }
    return None;
  }

  /** Front and rear brake channels: each its own first alias; the generic
      channel is consulted only when neither was found, and then serves both. */
  method ResolveBrakes(events: seq<Event>) returns (front: Option<string>, rear: Option<string>)
    ensures FirstWithEvents(events, FrontBrakeAliases).Some? || FirstWithEvents(events, RearBrakeAliases).Some?
      ==> front == FirstWithEvents(events, FrontBrakeAliases) && rear == FirstWithEvents(events, RearBrakeAliases)
    ensures FirstWithEvents(events, FrontBrakeAliases).None? && FirstWithEvents(events, RearBrakeAliases).None?
      ==> front == rear == FirstWithEvents(events, GenericBrakeAliases)
  {
    front := FindChannel(events, FrontBrakeAliases);
    rear := FindChannel(events, RearBrakeAliases);
    if front.None? && rear.None? {
      var generic := FindChannel(events, GenericBrakeAliases);
      front, rear := generic, generic;
    }
  }

  // ---------------------------------------------------------------------
  // Bucketing and deduplication
  // ---------------------------------------------------------------------

  /** Channel values with bucketed timestamps; `lapColumn` takes the row's
      lap number instead of its value (the lap column rides on 'speed' rows). */
  function Bucketed(events: seq<Event>, bucket: int -> int, lapColumn: bool): (r: seq<Sample>)
    ensures |r| == |events|
  {
    seq(|events|, i requires 0 <= i < |events| =>
      Sample(bucket(events[i].timestampMs), if lapColumn then events[i].lap as real else events[i].value))
  }

  function ChannelSamples(events: seq<Event>, name: string, bucket: int -> int): seq<Sample>
  {
    Bucketed(Named(events, name), bucket, false)
  }

  predicate HasTime(samples: seq<Sample>, t: int)
  {
    exists i :: 0 <= i < |samples| && samples[i].t == t
  }

  /** Value of the first sample at time t. */
  function Lookup(samples: seq<Sample>, t: int): Option<real>
    ensures Lookup(samples, t).Some? <==> HasTime(samples, t)
  {
    if samples == [] then None
    else if samples[0].t == t then Some(samples[0].v)
    else
      var r := Lookup(samples[1..], t);
      assert HasTime(samples, t) <==> HasTime(samples[1..], t) by {
        if HasTime(samples, t) {
          var i :| 0 <= i < |samples| && samples[i].t == t;
          assert samples[1..][i - 1].t == t;
        }
        if HasTime(samples[1..], t) {
          var i :| 0 <= i < |samples[1..]| && samples[1..][i].t == t;
          assert samples[i + 1].t == t;
        }
      }
      r
  }

  predicate DistinctTimes(samples: seq<Sample>)
  {
    forall i, j :: 0 <= i < j < |samples| ==> samples[i].t != samples[j].t
  }

  /** `drop_duplicates(subset='timestamp', keep='first')`. */
  method DropDuplicateTimes(samples: seq<Sample>) returns (kept: seq<Sample>)
    ensures DistinctTimes(kept)
    ensures forall t :: HasTime(kept, t) <==> HasTime(samples, t)
    ensures forall t :: Lookup(kept, t) == Lookup(samples, t)
    ensures |kept| <= |samples|
  {
    kept := [];
    var seen: set<int> := {};
    var i := 0;
    while i < |samples|
      invariant 0 <= i <= |samples|
      invariant DistinctTimes(kept) && |kept| <= i
      invariant forall t :: t in seen <==> HasTime(kept, t)
      invariant forall t :: HasTime(kept, t) <==> HasTime(samples[..i], t)
      invariant forall t :: Lookup(kept, t) == Lookup(samples[..i], t)
    {
      var s := samples[i];
      if s.t !in seen {
        LookupAppend(kept, s);
        LookupAppend(samples[..i], s);
        kept := kept + [s];
        seen := seen + {s.t};
      } else {
        LookupAppend(samples[..i], s);
      }
      assert samples[..i + 1] == samples[..i] + [s];
      i := i + 1;
    }
    assert samples[..i] == samples;
  }

  lemma LookupAppend(samples: seq<Sample>, s: Sample)
    ensures forall t :: Lookup(samples + [s], t) == (if HasTime(samples, t) then Lookup(samples, t)
                                                    else if s.t == t then Some(s.v) else None)
    ensures forall t :: HasTime(samples + [s], t) <==> HasTime(samples, t) || s.t == t
  {
    forall t ensures Lookup(samples + [s], t) == (if HasTime(samples, t) then Lookup(samples, t)
                                                  else if s.t == t then Some(s.v) else None) {
      LookupAppendAt(samples, s, t);
    }
    forall t ensures HasTime(samples + [s], t) <==> HasTime(samples, t) || s.t == t {
      assert (samples + [s])[|samples|] == s;
      if HasTime(samples, t) {
        var i :| 0 <= i < |samples| && samples[i].t == t;
        assert (samples + [s])[i] == samples[i];
      }
      if HasTime(samples + [s], t) && s.t != t {
        var i :| 0 <= i < |samples + [s]| && (samples + [s])[i].t == t;
        assert samples[i].t == t;
      }
    }
  }

  lemma {:induction false} LookupAppendAt(samples: seq<Sample>, s: Sample, t: int)
    ensures Lookup(samples + [s], t) == (if HasTime(samples, t) then Lookup(samples, t)
                                         else if s.t == t then Some(s.v) else None)
  {
    if samples != [] {
      assert (samples + [s])[1..] == samples[1..] + [s];
      LookupAppendAt(samples[1..], s, t);
    }
  }

  /** The values of all samples at time t, in order. */
  function ValuesAt(samples: seq<Sample>, t: int): seq<real>
  {
    if samples == [] then []
    else (if samples[0].t == t then [samples[0].v] else []) + ValuesAt(samples[1..], t)
  }

  function Times(samples: seq<Sample>): (ts: seq<int>)
    ensures |ts| == |samples| && forall i :: 0 <= i < |ts| ==> ts[i] == samples[i].t
  {
    seq(|samples|, i requires 0 <= i < |samples| => samples[i].t)
  }

  /** `groupby('timestamp').median()`: one sample per bucket, ascending. */
  function GroupMedian(samples: seq<Sample>, median: seq<real> -> real): (r: seq<Sample>)
  {
    var ts := SortedDistinctInt(Times(samples));
    seq(|ts|, k requires 0 <= k < |ts| => Sample(ts[k], median(ValuesAt(samples, ts[k]))))
  }

  /** The grouped series has strictly increasing timestamps, exactly the
      buckets of its input, each carrying the median of that bucket. */
  lemma GroupMedianSpec(samples: seq<Sample>, median: seq<real> -> real)
    ensures var r := GroupMedian(samples, median);
      (forall i, j :: 0 <= i < j < |r| ==> r[i].t < r[j].t)
      && (forall t :: HasTime(r, t) <==> HasTime(samples, t))
      && (forall i :: 0 <= i < |r| ==> r[i].v == median(ValuesAt(samples, r[i].t)))
  {
    var ts := SortedDistinctInt(Times(samples));
    var r := GroupMedian(samples, median);
    forall t ensures HasTime(r, t) <==> HasTime(samples, t) {
      if HasTime(r, t) {
        var k :| 0 <= k < |r| && r[k].t == t;
        assert ts[k] in ts;
        var i :| 0 <= i < |Times(samples)| && Times(samples)[i] == t;
      }
      if HasTime(samples, t) {
        var i :| 0 <= i < |samples| && samples[i].t == t;
        assert Times(samples)[i] == t && t in Times(samples);
        assert t in ts;
        var k :| 0 <= k < |ts| && ts[k] == t;
        assert r[k].t == t;
      }
    }
  }

  // ---------------------------------------------------------------------
  // Joins
  // ---------------------------------------------------------------------

  /** The value of an optional channel at time t: the first value there, 0
      when the bucket has no value or the channel is absent. */
  function OptionalAt(samples: Option<seq<Sample>>, t: int): real
  {
    if samples.None? then 0.0
    else match Lookup(samples.value, t)
      case Some(v) => v
      case None => 0.0
  }

  /** The bucketed channel chosen by an alias, if any. */
  function Optional(events: seq<Event>, alias: Option<string>, bucket: int -> int): Option<seq<Sample>>
  {
    if alias.None? then None else Some(ChannelSamples(events, alias.value, bucket))
  }

  /** The per-vehicle channels, bucketed, before deduplication. */
  datatype Channels = Channels(lat: seq<Sample>, lon: seq<Sample>, lapdist: seq<Sample>,
                               speed: seq<Sample>, lap: seq<Sample>,
                               front: Option<seq<Sample>>, rear: Option<seq<Sample>>,
                               gear: Option<seq<Sample>>, steering: Option<seq<Sample>>,
                               accx: Option<seq<Sample>>, accy: Option<seq<Sample>>)

  /** The channels of one vehicle: required ones by fixed name, optional ones
      by alias, brakes as `ResolveBrakes` chooses them. */
  function ChannelsOf(veh: seq<Event>, bucket: int -> int): Channels
  {
    var front := FirstWithEvents(veh, FrontBrakeAliases);
    var rear := FirstWithEvents(veh, RearBrakeAliases);
    var generic := FirstWithEvents(veh, GenericBrakeAliases);
    var bothMissing := front.None? && rear.None?;
    Channels(ChannelSamples(veh, LatName, bucket), ChannelSamples(veh, LonName, bucket),
             ChannelSamples(veh, LapdistName, bucket), ChannelSamples(veh, SpeedName, bucket),
             Bucketed(Named(veh, SpeedName), bucket, true),
             Optional(veh, if bothMissing then generic else front, bucket),
             Optional(veh, if bothMissing then generic else rear, bucket),
             Optional(veh, FirstWithEvents(veh, GearAliases), bucket),
             Optional(veh, FirstWithEvents(veh, SteeringAliases), bucket),
             Optional(veh, FirstWithEvents(veh, AccxAliases), bucket),
             Optional(veh, FirstWithEvents(veh, AccyAliases), bucket))
  }

  /** A timestamp survives the inner join iff every required channel has it. */
  predicate Joined(c: Channels, t: int)
  {
    HasTime(c.lat, t) && HasTime(c.lon, t) && HasTime(c.lapdist, t) && HasTime(c.speed, t) && HasTime(c.lap, t)
  }

  /** The row the joins produce for a joined timestamp, before brake normalisation. */
  function RowAt(c: Channels, t: int, median: seq<real> -> real): SignalRow
    requires Joined(c, t)
  {
    SignalRow(t, median(ValuesAt(c.lat, t)), median(ValuesAt(c.lon, t)),
              Lookup(c.lapdist, t).value, Lookup(c.speed, t).value, Trunc(Lookup(c.lap, t).value),
              OptionalAt(c.front, t), OptionalAt(c.rear, t), Trunc(OptionalAt(c.gear, t)),
              OptionalAt(c.steering, t), OptionalAt(c.accx, t), OptionalAt(c.accy, t))
  }

  function RowTimes(rows: seq<SignalRow>): (ts: seq<int>)
    ensures |ts| == |rows| && forall i :: 0 <= i < |ts| ==> ts[i] == rows[i].timestampMs
  {
    seq(|rows|, i requires 0 <= i < |rows| => rows[i].timestampMs)
  }

  /** Every row is the joined row of its own timestamp. */
  predicate RowsSound(rows: seq<SignalRow>, c: Channels, median: seq<real> -> real)
  {
    forall i :: 0 <= i < |rows| ==>
      Joined(c, rows[i].timestampMs) && rows[i] == RowAt(c, rows[i].timestampMs, median)
  }

  /** Appending the row of a later joined timestamp keeps the rows sound and
      their timestamps ascending. */
  lemma AppendRow(rows: seq<SignalRow>, c: Channels, median: seq<real> -> real, t: int)
    requires StrictlyIncreasing(RowTimes(rows)) && RowsSound(rows, c, median)
    requires Joined(c, t) && forall i :: 0 <= i < |rows| ==> rows[i].timestampMs < t
    ensures var r := rows + [RowAt(c, t, median)];
      StrictlyIncreasing(RowTimes(r)) && RowsSound(r, c, median) && RowTimes(r) == RowTimes(rows) + [t]
  {
    var r := rows + [RowAt(c, t, median)];
    assert RowTimes(r) == RowTimes(rows) + [t];
  }

  /** Inner join of the required channels, left join of the optional ones,
      walking the grouped latitude buckets in ascending order. */
  method Join(c: Channels, median: seq<real> -> real) returns (rows: seq<SignalRow>)
    ensures StrictlyIncreasing(RowTimes(rows))
    ensures forall t :: t in RowTimes(rows) <==> Joined(c, t)
    ensures forall i :: 0 <= i < |rows| ==>
      Joined(c, rows[i].timestampMs) && rows[i] == RowAt(c, rows[i].timestampMs, median)
  {
    var lat := GroupMedian(c.lat, median);
    GroupMedianSpec(c.lat, median);
    var lapdist := DropDuplicateTimes(c.lapdist);
    var speed := DropDuplicateTimes(c.speed);
    var lap := DropDuplicateTimes(c.lap);
    rows := [];
    var k := 0;
    while k < |lat|
      invariant 0 <= k <= |lat|
      invariant JoinedUpTo(c, median, lat, rows, k)
    {
      rows := JoinBucket(c, median, lat, k, rows, lapdist, speed, lap);
      k := k + 1;
    }
    forall t | Joined(c, t) ensures t in RowTimes(rows) {
      assert HasTime(lat, t);
      var m :| 0 <= m < |lat| && lat[m].t == t;
    }
  }

  /** The rows built from the first k latitude buckets: sound, ascending,
      before every later bucket, and one for each of those buckets that
      every required channel has. */
  predicate JoinedUpTo(c: Channels, median: seq<real> -> real, lat: seq<Sample>, rows: seq<SignalRow>, k: int)
  {
    0 <= k <= |lat|
    && StrictlyIncreasing(RowTimes(rows)) && RowsSound(rows, c, median)
    && (forall i, m :: 0 <= i < |rows| && k <= m < |lat| ==> rows[i].timestampMs < lat[m].t)
    && (forall t :: t in RowTimes(rows) ==> Joined(c, t))
    && (forall m :: 0 <= m < k && Joined(c, lat[m].t) ==> lat[m].t in RowTimes(rows))
  }

  /** One latitude bucket of the join: its row is added when the
      de-duplicated lap distance, speed and lap series and the longitude
      all have its timestamp. */
  method JoinBucket(c: Channels, median: seq<real> -> real, lat: seq<Sample>, k: int,
                    rows: seq<SignalRow>, lapdist: seq<Sample>, speed: seq<Sample>, lap: seq<Sample>)
    returns (rows': seq<SignalRow>)
    requires 0 <= k < |lat| && JoinedUpTo(c, median, lat, rows, k)
    requires forall i, j :: 0 <= i < j < |lat| ==> lat[i].t < lat[j].t
    requires forall t :: HasTime(lat, t) <==> HasTime(c.lat, t)
    requires forall t :: Lookup(lapdist, t) == Lookup(c.lapdist, t)
    requires forall t :: Lookup(speed, t) == Lookup(c.speed, t)
    requires forall t :: Lookup(lap, t) == Lookup(c.lap, t)
    ensures JoinedUpTo(c, median, lat, rows', k + 1)
  {
    var t := lat[k].t;
    assert HasTime(lat, t);
    var joined := HasTime(c.lon, t) && Lookup(lapdist, t).Some? && Lookup(speed, t).Some? && Lookup(lap, t).Some?;
    assert joined <==> Joined(c, t);
    rows' := rows;
    if joined {
      AppendRow(rows, c, median, t);
      rows' := rows + [RowAt(c, t, median)];
    }
  }

  // ---------------------------------------------------------------------
  // Brake normalisation
  // ---------------------------------------------------------------------

  /** Divide by the maximum when the maximum is positive; otherwise unchanged. */
  function NormaliseColumn(col: seq<real>): (r: seq<real>)
    ensures |r| == |col|
  {
    if |col| > 0 && MaxOf(col) > 0.0 then
      var m := MaxOf(col);
      seq(|col|, i requires 0 <= i < |col| => col[i] / m)
    else col
  }

  /** A column whose maximum is positive ends with maximum exactly 1. */
  lemma NormaliseColumnPeak(col: seq<real>)
    requires |col| > 0 && MaxOf(col) > 0.0
    ensures MaxOf(NormaliseColumn(col)) == 1.0
  {
    var r := NormaliseColumn(col);
    var m := MaxOf(col);
    NormalisedAt(col);
    var k :| 0 <= k < |col| && col[k] == m;
    forall i | 0 <= i < |r| ensures r[i] <= 1.0 {
      assert col[i] in col;
      NormaliseBelowPeak(col[i], m);
    }
    DivSelf(m);
    assert r[k] == 1.0;
    MaxOfIs(r, k);
  }

  lemma DivSelf(m: real)
    requires m > 0.0
    ensures m / m == 1.0
  {
  }

  lemma NormalisedAt(col: seq<real>)
    requires |col| > 0 && MaxOf(col) > 0.0
    ensures forall i :: 0 <= i < |col| ==> NormaliseColumn(col)[i] == col[i] / MaxOf(col)
  {
  }

  lemma MaxOfIs(s: seq<real>, k: int)
    requires 0 <= k < |s| && forall i :: 0 <= i < |s| ==> s[i] <= s[k]
    ensures MaxOf(s) == s[k]
  {
    assert s[k] in s;
    var q :| 0 <= q < |s| && s[q] == MaxOf(s);
  }

  lemma NormaliseBelowPeak(x: real, m: real)
    requires 0.0 < m && x <= m
    ensures x / m <= 1.0
  {
  }

  /** Normalising keeps the order of the values. */
  lemma NormaliseColumnMonotone(col: seq<real>, i: int, j: int)
    requires 0 <= i < |col| && 0 <= j < |col| && col[i] <= col[j]
    ensures NormaliseColumn(col)[i] <= NormaliseColumn(col)[j]
  {
    if |col| > 0 && MaxOf(col) > 0.0 {
      var m := MaxOf(col);
      assert (col[j] - col[i]) / m >= 0.0;
      assert col[j] / m - col[i] / m == (col[j] - col[i]) / m;
    }
  }

  /** A column with no positive value (or no value) is left as it is. */
  lemma NormaliseColumnIdle(col: seq<real>)
    requires |col| == 0 || MaxOf(col) <= 0.0
    ensures NormaliseColumn(col) == col
  {
  }

  function FrontColumn(rows: seq<SignalRow>): seq<real>
  {
    seq(|rows|, i requires 0 <= i < |rows| => rows[i].brakeFront)
  }

  function RearColumn(rows: seq<SignalRow>): seq<real>
  {
    seq(|rows|, i requires 0 <= i < |rows| => rows[i].brakeRear)
  }

  /** The raw (left-joined) values of an optional channel at given times. */
  function ColumnAt(ch: Option<seq<Sample>>, ts: seq<int>): seq<real>
  {
    seq(|ts|, i requires 0 <= i < |ts| => OptionalAt(ch, ts[i]))
  }

  // ---------------------------------------------------------------------
  // The whole extraction
  // ---------------------------------------------------------------------

  /** The channel lookups of `extract_signals`, alias loops included. */
  method SelectChannels(veh: seq<Event>, bucket: int -> int) returns (c: Channels)
    ensures c == ChannelsOf(veh, bucket)
  {
    var front, rear := ResolveBrakes(veh);
    var gear := FindChannel(veh, GearAliases);
    var steering := FindChannel(veh, SteeringAliases);
    var accx := FindChannel(veh, AccxAliases);
    var accy := FindChannel(veh, AccyAliases);
    c := Channels(ChannelSamples(veh, LatName, bucket), ChannelSamples(veh, LonName, bucket),
                  ChannelSamples(veh, LapdistName, bucket), ChannelSamples(veh, SpeedName, bucket),
                  Bucketed(Named(veh, SpeedName), bucket, true),
                  Optional(veh, front, bucket), Optional(veh, rear, bucket), Optional(veh, gear, bucket),
                  Optional(veh, steering, bucket), Optional(veh, accx, bucket), Optional(veh, accy, bucket));
  }

  /** Replace the brake columns of joined rows by their normalised versions. */
  function WithNormalisedBrakes(joined: seq<SignalRow>): (rows: seq<SignalRow>)
    ensures |rows| == |joined| && RowTimes(rows) == RowTimes(joined)
    ensures forall i :: 0 <= i < |rows| ==>
      rows[i] == joined[i].(brakeFront := rows[i].brakeFront, brakeRear := rows[i].brakeRear)
    ensures FrontColumn(rows) == NormaliseColumn(FrontColumn(joined))
    ensures RearColumn(rows) == NormaliseColumn(RearColumn(joined))
  {
    var nf := NormaliseColumn(FrontColumn(joined));
    var nr := NormaliseColumn(RearColumn(joined));
    var rows := seq(|joined|, i requires 0 <= i < |joined| => joined[i].(brakeFront := nf[i], brakeRear := nr[i]));
    assert RowTimes(rows) == RowTimes(joined);
    assert FrontColumn(rows) == nf;
    assert RearColumn(rows) == nr;
    rows
  }

  /** `extract_signals`: an empty table for a vehicle without events;
      otherwise one row per bucket present in every required channel,
      ascending, carrying the joined values, with the two brake columns each
      normalised by its own maximum. */
  method ExtractSignals(events: seq<Event>, vehicleId: string, bucket: int -> int, median: seq<real> -> real)
    returns (rows: seq<SignalRow>)
    ensures OfVehicle(events, vehicleId) == [] ==> rows == []
    ensures StrictlyIncreasing(RowTimes(rows))
    ensures var c := ChannelsOf(OfVehicle(events, vehicleId), bucket);
      && (forall t :: t in RowTimes(rows) <==> OfVehicle(events, vehicleId) != [] && Joined(c, t))
      && (forall i :: 0 <= i < |rows| ==>
            Joined(c, rows[i].timestampMs)
            && rows[i] == RowAt(c, rows[i].timestampMs, median).(brakeFront := rows[i].brakeFront,
                                                                  brakeRear := rows[i].brakeRear))
      && FrontColumn(rows) == NormaliseColumn(ColumnAt(c.front, RowTimes(rows)))
      && RearColumn(rows) == NormaliseColumn(ColumnAt(c.rear, RowTimes(rows)))
  {
    var veh := OfVehicle(events, vehicleId);
    if |veh| == 0 {
      return [];
    }
    var c := SelectChannels(veh, bucket);
    var joined := Join(c, median);
    var times := RowTimes(joined);
    assert FrontColumn(joined) == ColumnAt(c.front, times);
    assert RearColumn(joined) == ColumnAt(c.rear, times);
    rows := WithNormalisedBrakes(joined);
  }
}
