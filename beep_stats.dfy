/** Per-channel beep statistics: direct and via-node counts per tag, the
    latest health snapshot per node, and telemetry counts. Property keys of
    JavaScript objects are strings, so every key below is `String(v)` of the
    value used to index. */
module BeepStats {
  import opened Wrappers
  import opened Text
  import opened JsValue

  /** `{beeps, nodes: {beeps, health}, telemetry}` of one channel. */
  datatype ChannelStats = ChannelStats(
    beeps: map<string, nat>,
    nodeBeeps: map<string, nat>,
    health: map<string, Value>,
    telemetry: map<string, nat>)

  const EmptyChannel := ChannelStats(map[], map[], map[], map[])

  /** The keys of the channels the manager creates, `String(i)` for `i` in
      1..5. */
  const DefaultChannelKeys: set<string> := set i | 1 <= i <= 5 :: IntToString(i)

  /** A default channel key is found by, and only by, the integers 1..5. */
  lemma DefaultChannelOfInt(i: int)
    ensures IntToString(i) in DefaultChannelKeys <==> 1 <= i <= 5
  {
    if IntToString(i) in DefaultChannelKeys {
      var j :| 1 <= j <= 5 && IntToString(j) == IntToString(i);
      IntToStringInjective(i, j);
    }
  }

  /** One sighting of `tag` counted: `counts[tag] += 1` when
      `Object.keys(counts).includes(tag)`, and `counts[tag] = 1` otherwise.
      The keys are strings, so only a string tag is ever found. */
  function Counted(counts: map<string, nat>, tag: Value): (r: map<string, nat>)
    ensures r.Keys == counts.Keys + {ToJsString(tag)}
    ensures forall k :: k in counts && k != ToJsString(tag) ==> r[k] == counts[k]
  {
    if tag.Str? && tag.s in counts then counts[tag.s := counts[tag.s] + 1]
    else counts[ToJsString(tag) := 1]
  }

  /** No count goes down from `a` to `b`. */
  predicate CountsGrow(a: map<string, nat>, b: map<string, nat>)
  {
    forall k :: k in a ==> k in b && a[k] <= b[k]
  }

  /** A string tag's count goes up by exactly one, starting from one; every
      other count is left alone. */
  lemma CountedString(counts: map<string, nat>, t: string)
    ensures var r := Counted(counts, Str(t));
      r[t] == (if t in counts then counts[t] + 1 else 1) &&
      (forall k :: k in counts && k != t ==> r[k] == counts[k]) &&
      CountsGrow(counts, r)
  {
  }

  /** A number tag is never found among the string keys, so a count
      already kept under its digits starts again from one. */
  lemma CountedNumberRestarts(counts: map<string, nat>, i: int)
    ensures Counted(counts, Int(i))[IntToString(i)] == 1
  {
  }

  /** `record.NodeId.length > 0`: `None` when `NodeId` is `null` or
      `undefined` (a TypeError), the length test for strings and arrays, and
      `false` for values without a length. An object's own `length` is
      converted to a number and compared with 0, so `"5"` and `true` count
      as a node. */
  function FromNode(nodeId: Value): (r: Option<bool>)
    ensures r.None? <==> nodeId.Undefined? || nodeId.Null?
    ensures nodeId.Str? ==> r == Some(nodeId.s != "")
    ensures nodeId.Obj? ==> r == Some(GreaterThanZero(Field(nodeId, "length")))
  {
    match nodeId
    case Undefined => None
    case Null => None
    case Str(s) => Some(|s| > 0)
    case Arr(items) => Some(|items| > 0)
    case Obj(_) => Some(GreaterThanZero(Field(nodeId, "length")))
    case _ => Some(false)
  }

  /** An object `NodeId` whose `length` is the text of a positive integer,
      or `true`, marks a beep heard through a node. */
  lemma FromNodeOfConvertedLength(n: nat)
    requires n > 0
    ensures FromNode(Obj(map["length" := Str(IntToString(n))])) == Some(true)
    ensures FromNode(Obj(map["length" := Bool(true)])) == Some(true)
  {
    GreaterThanZeroOfText(n);
  }

  /** The key `getChannel(record)` looks up, `String(record.RadioId)`;
      `None` when `record` is `null` or `undefined`. */
  function ChannelKey(record: Value): (r: Option<string>)
    ensures r.Some? <==> !record.Undefined? && !record.Null?
  {
    match Prop(record, "RadioId")
    case None => None
    case Some(radio) => Some(ToJsString(radio))
  }

  /** The channels after `addBeep(record)`, or `None` when it throws: for a
      `null` record, a missing `NodeId`, or a channel that does not exist. */
  function BeepAdded(channels: map<string, ChannelStats>, record: Value): Option<map<string, ChannelStats>>
  {
    match ChannelKey(record)
    case None => None
    case Some(key) =>
      match FromNode(Prop(record, "NodeId").value)
      case None => None
      case Some(fromNode) =>
        if key !in channels then None
        else
          var c := channels[key];
          var tag := Prop(record, "TagId").value;
          Some(channels[key := if fromNode then c.(nodeBeeps := Counted(c.nodeBeeps, tag))
                               else c.(beeps := Counted(c.beeps, tag))])
  }

  /** `addBeep` fails exactly when the record is missing, has no `NodeId`,
      or names no channel. When it succeeds, exactly one counter changes: the
      tag's via-node count for a non-empty `NodeId`, its direct count
      otherwise; every other channel and every other part of this channel is
      what it was. */
  lemma BeepAddedChangesOneCounter(channels: map<string, ChannelStats>, record: Value)
    ensures BeepAdded(channels, record).None? <==>
      ChannelKey(record).None? || FromNode(Prop(record, "NodeId").value).None? ||
      ChannelKey(record).value !in channels
    ensures BeepAdded(channels, record).Some? ==>
      var key := ChannelKey(record).value;
      var r := BeepAdded(channels, record).value;
      var c, d := channels[key], r[key];
      var tag := Prop(record, "TagId").value;
      r.Keys == channels.Keys &&
      (forall k :: k in channels && k != key ==> r[k] == channels[k]) &&
      d.health == c.health && d.telemetry == c.telemetry &&
      (if FromNode(Prop(record, "NodeId").value).value
       then d.beeps == c.beeps && d.nodeBeeps == Counted(c.nodeBeeps, tag)
       else d.nodeBeeps == c.nodeBeeps && d.beeps == Counted(c.beeps, tag))
  {
  }

  /** With a string tag, `addBeep` never lowers a count. */
  lemma BeepAddedNeverDecreases(channels: map<string, ChannelStats>, record: Value)
    requires BeepAdded(channels, record).Some?
    requires Prop(record, "TagId").value.Str?
    ensures var r := BeepAdded(channels, record).value;
      forall k :: k in channels ==>
        (k in r &&
         CountsGrow(channels[k].beeps, r[k].beeps) &&
         CountsGrow(channels[k].nodeBeeps, r[k].nodeBeeps) &&
         CountsGrow(channels[k].telemetry, r[k].telemetry))
  {
    var key := ChannelKey(record).value;
    var c := channels[key];
    var t := Prop(record, "TagId").value.s;
    CountedString(c.beeps, t);
    CountedString(c.nodeBeeps, t);
  }

  /** The record after `delete record.NodeId`. */
  function WithoutNodeId(record: Value): (r: Value)
    ensures r.Obj? <==> record.Obj?
    ensures r.Obj? ==> r.fields == record.fields - {"NodeId"}
    ensures !r.Obj? ==> r == record
  {
    if record.Obj? then Obj(record.fields - {"NodeId"}) else record
  }

  /** The channels after `addNodeHealth(record)`, or `None` when it throws.
      The `NodeId` is deleted from the record before the channel is looked
      at, so a record naming no channel still loses it. */
  function HealthAdded(channels: map<string, ChannelStats>, record: Value): Option<map<string, ChannelStats>>
  {
    match ChannelKey(record)
    case None => None
    case Some(key) =>
      if key !in channels then None
      else
        var c := channels[key];
        var node := ToJsString(Prop(record, "NodeId").value);
        Some(channels[key := c.(health := c.health[node := WithoutNodeId(record)])])
  }

  /** The snapshot stored under the node id replaces any earlier one and no
      longer carries a `NodeId`; nothing else in the statistics changes. */
  lemma HealthAddedReplaces(channels: map<string, ChannelStats>, record: Value)
    requires HealthAdded(channels, record).Some?
    ensures var key := ChannelKey(record).value;
      var node := ToJsString(Prop(record, "NodeId").value);
      var r := HealthAdded(channels, record).value;
      r.Keys == channels.Keys &&
      (forall k :: k in channels && k != key ==> r[k] == channels[k]) &&
      node in r[key].health && r[key].health[node] == WithoutNodeId(record) &&
      (record.Obj? ==> "NodeId" !in r[key].health[node].fields) &&
      r[key].health.Keys == channels[key].health.Keys + {node} &&
      (forall n :: n in channels[key].health && n != node ==> r[key].health[n] == channels[key].health[n]) &&
      r[key].beeps == channels[key].beeps && r[key].nodeBeeps == channels[key].nodeBeeps &&
      r[key].telemetry == channels[key].telemetry
  {
  }

  /** The channels after the evidently intended `addTelemetryBeep(record)`:
      the record's `Id` counted in the channel's telemetry. */
  function TelemetryAdded(channels: map<string, ChannelStats>, record: Value): Option<map<string, ChannelStats>>
  {
    match ChannelKey(record)
    case None => None
    case Some(key) =>
      if key !in channels then None
      else
        var c := channels[key];
        Some(channels[key := c.(telemetry := Counted(c.telemetry, Prop(record, "Id").value))])
  }

  /** A telemetry sighting with a string id raises that id's count by one
      and touches nothing else. */
  lemma TelemetryAddedCounts(channels: map<string, ChannelStats>, record: Value)
    requires TelemetryAdded(channels, record).Some?
    requires Prop(record, "Id").value.Str?
    ensures var key := ChannelKey(record).value;
      var t := Prop(record, "Id").value.s;
      var r := TelemetryAdded(channels, record).value;
      var c := channels[key];
      r.Keys == channels.Keys &&
      (forall k :: k in channels && k != key ==> r[k] == channels[k]) &&
      r[key].telemetry[t] == (if t in c.telemetry then c.telemetry[t] + 1 else 1) &&
      CountsGrow(c.telemetry, r[key].telemetry) &&
      r[key].beeps == c.beeps && r[key].nodeBeeps == c.nodeBeeps && r[key].health == c.health
  {
    CountedString(channels[ChannelKey(record).value].telemetry, Prop(record, "Id").value.s);
  }

  /** `this.stats`, the object the check-in code also prunes in place. */
  class Stats {
    var channels: map<string, ChannelStats>

    constructor ()
      ensures channels == map[]
    {
      channels := map[];
    }
  }

  class BeepStatManager {
    const stats: Stats

    /** Channels 1..5, each with empty counts and no health snapshots. */
    constructor ()
      ensures fresh(stats)
      ensures stats.channels.Keys == DefaultChannelKeys
      ensures forall k :: k in stats.channels ==> stats.channels[k] == EmptyChannel
    {
      stats := new Stats();
      new;
      var i := 1;
      while i <= 5
        invariant 1 <= i <= 6
        invariant stats.channels.Keys == set j | 1 <= j < i :: IntToString(j)
        invariant forall k :: k in stats.channels ==> stats.channels[k] == EmptyChannel
      {
        AddStatChannel(Int(i));
        i := i + 1;
      }
    }

    /** `addStatChannel(channel)`: a fresh, empty channel under
        `String(channel)`, replacing any channel already there. */
    method AddStatChannel(channel: Value)
      modifies stats
      ensures stats.channels == old(stats.channels)[ToJsString(channel) := EmptyChannel]
    {
      stats.channels := stats.channels[ToJsString(channel) := EmptyChannel];
    }

    /** `getChannel(record)`: the channel `record.RadioId` names; `None`
        when there is none (the code returns `undefined`) or the record itself
        is missing (the code throws). */
    function GetChannel(record: Value): (r: Option<ChannelStats>)
      reads stats
      ensures r.Some? <==> ChannelKey(record).Some? && ChannelKey(record).value in stats.channels
      ensures r.Some? ==> r.value == stats.channels[ChannelKey(record).value]
    {
      match ChannelKey(record)
      case None => None
      case Some(key) => if key in stats.channels then Some(stats.channels[key]) else None
    }

    /** `addBeep(record)`; `ok` is false when it throws, and then nothing
        changed. */
    method AddBeep(record: Value) returns (ok: bool)
      modifies stats
      ensures ok == BeepAdded(old(stats.channels), record).Some?
      ensures stats.channels == if ok then BeepAdded(old(stats.channels), record).value else old(stats.channels)
    {
      var key := ChannelKey(record);
      if key.None? {
        return false;
      }
      var fromNode := FromNode(Prop(record, "NodeId").value);
      if fromNode.None? || key.value !in stats.channels {
        return false;
      }
      var channel := stats.channels[key.value];
      var tag := Prop(record, "TagId").value;
      if fromNode.value {
        channel := channel.(nodeBeeps := Counted(channel.nodeBeeps, tag));
      } else {
        channel := channel.(beeps := Counted(channel.beeps, tag));
      }
      stats.channels := stats.channels[key.value := channel];
      ok := true;
    }

    /** `addTelemetryBeep(record)` as written: after looking up the channel
        it names `Objects`, which is not defined, so every call throws and
        nothing is counted. */
    method AddTelemetryBeep(record: Value) returns (r: Result<(), string>)
      ensures r == if ChannelKey(record).None? then Failure("TypeError")
                   else Failure("ReferenceError: Objects is not defined")
    {
      var key := ChannelKey(record);
      if key.None? {
        return Failure("TypeError");
      }
      r := Failure("ReferenceError: Objects is not defined");
    }

    /** `addTelemetryBeep(record)` as evidently intended: the record's `Id`
        counted in its channel's telemetry. */
    method AddTelemetryBeepCorrected(record: Value) returns (ok: bool)
      modifies stats
      ensures ok == TelemetryAdded(old(stats.channels), record).Some?
      ensures stats.channels == if ok then TelemetryAdded(old(stats.channels), record).value else old(stats.channels)
    {
      var key := ChannelKey(record);
      if key.None? || key.value !in stats.channels {
        return false;
      }
      var channel := stats.channels[key.value];
      channel := channel.(telemetry := Counted(channel.telemetry, Prop(record, "Id").value));
      stats.channels := stats.channels[key.value := channel];
      ok := true;
    }

    /** `addNodeHealth(record)`; `after` is the caller's record once its
        `NodeId` was deleted, which happens whenever the record exists, even
        when the call then throws for a missing channel. */
    method AddNodeHealth(record: Value) returns (ok: bool, after: Value)
      modifies stats
      ensures after == if ChannelKey(record).None? then record else WithoutNodeId(record)
      ensures ok == HealthAdded(old(stats.channels), record).Some?
      ensures stats.channels == if ok then HealthAdded(old(stats.channels), record).value else old(stats.channels)
    {
      var key := ChannelKey(record);
      if key.None? {
        return false, record;
      }
      var node := ToJsString(Prop(record, "NodeId").value);
      after := WithoutNodeId(record);
      if key.value !in stats.channels {
        return false, after;
      }
      var channel := stats.channels[key.value];
      stats.channels := stats.channels[key.value := channel.(health := channel.health[node := after])];
      ok := true;
    }
  }
}
