/** The station's side of the check-in with the central server: pruning of
    the beep statistics, the bounded buffer of sensor readings, the
    internet-status test and the check-in sequence. The HTTP requests are
    inputs: each is given by the outcome it had. */
module ServerApi {
  import opened Wrappers
  import opened JsValue
  import opened BeepStats

  /** The counts that survive pruning: those of at least five sightings. */
  function Pruned(counts: map<string, nat>): (r: map<string, nat>)
    ensures forall t :: t in r <==> t in counts && counts[t] >= 5
    ensures forall t :: t in r ==> r[t] == counts[t]
  {
    map t | t in counts && counts[t] >= 5 :: counts[t]
  }

  /** A channel with both of its beep tables pruned; health and telemetry
      are kept as they are. */
  function PrunedChannel(c: ChannelStats): (r: ChannelStats)
    ensures r.health == c.health && r.telemetry == c.telemetry
  {
    c.(beeps := Pruned(c.beeps), nodeBeeps := Pruned(c.nodeBeeps))
  }

  /** Pruning twice is pruning once. */
  lemma PrunedIdempotent(c: ChannelStats)
    ensures PrunedChannel(PrunedChannel(c)) == PrunedChannel(c)
  {
    assert Pruned(Pruned(c.beeps)) == Pruned(c.beeps);
    assert Pruned(Pruned(c.nodeBeeps)) == Pruned(c.nodeBeeps);
  }

  /** `buffer.push(reading)`, then one `shift()` when it holds more than
      `max`. */
  function Pushed(buffer: seq<Value>, reading: Value, max: nat): seq<Value>
  {
    var all := buffer + [reading];
    if |all| > max then all[1..] else all
  }

  /** What an HTTP POST came to: a response with `ok`, a response without
      it, or a request that failed. */
  datatype PostOutcome = PostOk | PostNotOk | PostFailed

  class ServerApi {
    /** `sensor_data`, oldest reading first. */
    var sensorData: seq<Value>
    const maxSensorRecords: nat

    predicate Valid()
      reads this
    {
      1 <= maxSensorRecords && |sensorData| <= maxSensorRecords
    }

    constructor ()
      ensures Valid() && sensorData == [] && maxSensorRecords == 100
    {
      sensorData := [];
      maxSensorRecords := 100;
    }

    /** The `forEach` over one table's tags, deleting each count below five. */
    method PruneCounts(counts: map<string, nat>) returns (r: map<string, nat>)
      ensures r == Pruned(counts)
    {
      r := counts;
      var tags := counts.Keys;
      while tags != {}
        invariant tags <= counts.Keys
        invariant forall t :: t in counts ==> (t in r <==> t in tags || counts[t] >= 5)
        invariant forall t :: t in r ==> t in counts && r[t] == counts[t]
        decreases tags
      {
        var t :| t in tags;
        if r[t] < 5 {
          r := r - {t};
        }
        tags := tags - {t};
      }
    }

    /** `filterStats(stats)`: every channel of the live statistics pruned in
        place, and the same object handed back. */
    method FilterStats(stats: Stats) returns (r: Stats)
      modifies stats
      ensures r == stats
      ensures stats.channels.Keys == old(stats.channels).Keys
      ensures forall k :: k in stats.channels ==> stats.channels[k] == PrunedChannel(old(stats.channels)[k])
    {
      var keys := stats.channels.Keys;
      while keys != {}
        invariant keys <= stats.channels.Keys == old(stats.channels).Keys
        invariant forall k :: k in stats.channels ==>
          stats.channels[k] == if k in keys then old(stats.channels)[k] else PrunedChannel(old(stats.channels)[k])
        decreases keys
      {
        var k :| k in keys;
        var channel := stats.channels[k];
        var beeps := PruneCounts(channel.beeps);
        var nodeBeeps := PruneCounts(channel.nodeBeeps);
        stats.channels := stats.channels[k := channel.(beeps := beeps, nodeBeeps := nodeBeeps)];
        keys := keys - {k};
      }
      r := stats;
    }

    /** `pollSensors()` once its request settled: a reading is pushed, and
        when the buffer then holds more than the maximum the oldest one goes.
        A failed request changes nothing. */
    method PollSensors(fetched: Option<Value>)
      requires Valid()
      modifies this
      ensures Valid()
      ensures sensorData == if fetched.Some? then Pushed(old(sensorData), fetched.value, maxSensorRecords)
                            else old(sensorData)
    {
      if fetched.Some? {
        sensorData := sensorData + [fetched.value];
        if |sensorData| > maxSensorRecords {
          sensorData := sensorData[1..];
        }
      }
    }

    /** `checkInternet()`: `true` when the status is loosely equal to 3,
        `false` when the request fails or its JSON is `null`, and `undefined`
        (`None`) for every other status. */
    function CheckInternet(response: Result<Value, string>): (r: Option<bool>)
      ensures r == Some(true) <==> response.Success? && Prop(response.value, "success").Some? &&
                                   LooseEqualsInt(Prop(response.value, "success").value, 3)
      ensures r == Some(false) <==> response.Failure? || Prop(response.value, "success").None?
    {
      match response
      case Failure(_) => Some(false)
      case Success(json) =>
        match Prop(json, "success")
        case None => Some(false)
        case Some(status) => if LooseEqualsInt(status, 3) then Some(true) else None
    }

    /** `healthCheckin(stats)` with the five detail requests given by their
        JSON bodies (`None` when one of them failed) and the check-in POST by
        its outcome. Once the details arrived the statistics are pruned in
        place, whatever happens next. `gps` is the GPS section of the posted
        body: the fix's mean with the fix's time, or nulls without a mean.
        A mean that is an array keeps its elements; the `time` property set on
        it is not modelled. */
    method HealthCheckin(stats: Stats, responses: Option<seq<Value>>, post: PostOutcome)
      returns (s: Settlement, gps: Option<Value>)
      requires Valid()
      requires responses.Some? ==> |responses.value| == 5
      modifies this, stats
      ensures Valid()
      ensures responses.None? ==> s.Rejected? && gps.None? && stats.channels == old(stats.channels)
      ensures responses.Some? ==>
        stats.channels.Keys == old(stats.channels).Keys &&
        forall k :: k in stats.channels ==> stats.channels[k] == PrunedChannel(old(stats.channels)[k])
      ensures responses.Some? ==>
        var time := Path(responses.value[2], ["gps", "time"]);
        var mean := if time.Some? then Prop(responses.value[2], "mean").value else Undefined;
        (time.None? || (Truthy(mean) && !mean.Obj? && !mean.Arr?) ==> s.Rejected? && gps.None?) &&
        (time.Some? && !Truthy(mean) ==> gps == Some(Obj(map["lat" := Null, "lng" := Null, "time" := Null]))) &&
        (time.Some? && mean.Obj? ==> gps == Some(Obj(SetProp(mean.fields, "time", time.value)))) &&
        (time.Some? && mean.Arr? ==> gps == Some(mean)) &&
        (gps.Some? ==> s == (if post == PostFailed then Rejected("post failed") else Resolved))
      ensures sensorData == if gps.Some? && post == PostOk then [] else old(sensorData)
    {
      if responses.None? {
        return Rejected("details failed"), None;
      }
      var rs := responses.value;
      var _ := FilterStats(stats);
      var time := Path(rs[2], ["gps", "time"]);
      if time.None? {
        return Rejected("TypeError"), None;
      }
      var mean := Prop(rs[2], "mean").value;
      if Truthy(mean) {
        match mean
        case Obj(fields) =>
          gps := Some(Obj(SetProp(fields, "time", time.value)));
        case Arr(_) =>
          gps := Some(mean);
        case _ =>
          return Rejected("TypeError"), None;
      } else {
        gps := Some(Obj(map["lat" := Null, "lng" := Null, "time" := Null]));
      }
      match post
      case PostOk =>
        sensorData := [];
        s := Resolved;
      case PostNotOk =>
        s := Resolved;
      case PostFailed =>
        s := Rejected("post failed");
    }
  }

  /** A reading pushed onto a buffer of at most `max` readings: the newest
      is last, the size stays within `max`, and on overflow exactly the
      oldest reading is dropped. */
  lemma PushedBounded(buffer: seq<Value>, reading: Value, max: nat)
    requires 1 <= max && |buffer| <= max
    ensures var after := Pushed(buffer, reading, max);
      |after| == (if |buffer| < max then |buffer| + 1 else max) &&
      after[|after| - 1] == reading &&
      after == (buffer + [reading])[|buffer| + 1 - |after|..]
  {
  }
}
