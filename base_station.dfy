/** The base station: the beep and node caches filled by the radio message
    handlers, the counters and id sets beside them, the three CSV files the
    caches and the GPS state are written to, and the dispatch of the
    `toggle_radio` command to a radio. Broadcasting and the station's own log
    are not modelled; the disk, the clock and the GPS client's state are
    inputs. */
module BaseStation {
  import opened Wrappers
  import opened Text
  import opened JsValue
  import opened Env
  import opened CsvFlush
  import FileManager
  import FileSystem

  const BeepHeader: seq<string> := ["Time", "RadioId", "TagId", "TagRSSI", "NodeId"]
  const NodeHeader: seq<string> := ["Time", "RadioId", "NodeId", "NodeRSSI", "Battery", "Celsius"]
  const GpsHeader: seq<string> := ["recorded at", "gps at", "latitude", "longitude", "altitude", "quality"]

  /** A cached `received_at`: a moment the station computed itself, at a
      time in milliseconds, or whatever value a message carried. */
  datatype Stamp = At(ms: int) | Given(v: Value)

  /** One `beep_cache` entry. */
  datatype BeepEntry = BeepEntry(receivedAt: Stamp, channel: Value, tagId: Value, tagRssi: Value,
                                 nodeId: Value, errorBits: Value)

  /** One `node_cache` entry. */
  datatype NodeEntry = NodeEntry(receivedAt: Value, channel: Value, nodeId: Value, firmware: Value,
                                 battery: Value, celsius: Value, rssi: Value, avgCca: Value)

  /** What `active_radios` holds under a key: the receiver started for a
      channel, or the description a receiver raised when its port opened. */
  datatype RadioEntry = Radio(channel: int) | PortInfo(info: Value)

  /** How a `toggle_radio` command ends: a preset written to the radio of a
      channel, an unknown mode, a channel the guard refuses, or a TypeError. */
  datatype Toggle = Written(channel: int, command: string) | InvalidType | UnknownCmd | Threw

  /** The counters and id sets of the station. */
  datatype Tally = Tally(sinceCheckin: nat, total: nat, nodes: set<Value>, totalNodes: set<Value>,
                         uniqueTags: set<Value>)

  /** `received_at.toISOString()`: `iso` prints a time the station computed,
      `dateIso` a value a message carried (`None` when it has no such method
      and the call throws). */
  function StampIso(s: Stamp, iso: int -> string, dateIso: Value -> Option<string>): (r: Option<string>)
    ensures s.At? ==> r == Some(iso(s.ms))
    ensures s.Given? ==> r == dateIso(s.v)
  {
    match s
    case At(ms) => Some(iso(ms))
    case Given(v) => dateIso(v)
  }

  /** The columns of a beep row, one per header name: `error_bits` is not
      among them. */
  function BeepFields(e: BeepEntry, time: string): (r: seq<Value>)
    ensures |r| == |BeepHeader| && r[0] == Str(time)
    ensures r[1..] == [e.channel, e.tagId, e.tagRssi, e.nodeId]
  {
    [Str(time), e.channel, e.tagId, e.tagRssi, e.nodeId]
  }

  /** The line one cached beep prints as; `None` when its time throws. */
  function BeepLine(iso: int -> string, dateIso: Value -> Option<string>): BeepEntry -> Option<string>
  {
    (e: BeepEntry) => match StampIso(e.receivedAt, iso, dateIso)
                      case None => None
                      case Some(t) => Some(CsvLine(BeepFields(e, t)))
  }

  /** The columns of a node row, one per header name: the firmware and the
      average CCA are not among them. */
  function NodeFields(e: NodeEntry, time: string): (r: seq<Value>)
    ensures |r| == |NodeHeader| && r[0] == Str(time)
    ensures r[1..] == [e.channel, e.nodeId, e.rssi, e.battery, e.celsius]
  {
    [Str(time), e.channel, e.nodeId, e.rssi, e.battery, e.celsius]
  }

  /** The line one cached node message prints as; `None` when its time
      throws. */
  function NodeLine(dateIso: Value -> Option<string>): NodeEntry -> Option<string>
  {
    (e: NodeEntry) => match dateIso(e.receivedAt)
                      case None => None
                      case Some(t) => Some(CsvLine(NodeFields(e, t)))
  }

  /** A cache of beeps whose times all print is written entirely, in arrival
      order, each line the five columns of its beep. */
  lemma BeepsFlushedInOrder(cache: seq<BeepEntry>, iso: int -> string, dateIso: Value -> Option<string>)
    requires forall k :: 0 <= k < |cache| ==> StampIso(cache[k].receivedAt, iso, dateIso).Some?
    ensures var d := Drain(cache, BeepLine(iso, dateIso));
      !d.failed && d.rest == [] && |d.lines| == |cache| &&
      forall k :: 0 <= k < |cache| ==>
        d.lines[k] == CsvLine(BeepFields(cache[k], StampIso(cache[k].receivedAt, iso, dateIso).value))
  {
    DrainAllPrintable(cache, BeepLine(iso, dateIso));
  }

  /** A cache of node messages whose times all print is written entirely, in
      arrival order, each line the six columns of its message. */
  lemma NodesFlushedInOrder(cache: seq<NodeEntry>, dateIso: Value -> Option<string>)
    requires forall k :: 0 <= k < |cache| ==> dateIso(cache[k].receivedAt).Some?
    ensures var d := Drain(cache, NodeLine(dateIso));
      !d.failed && d.rest == [] && |d.lines| == |cache| &&
      forall k :: 0 <= k < |cache| ==>
        d.lines[k] == CsvLine(NodeFields(cache[k], dateIso(cache[k].receivedAt).value))
  {
    DrainAllPrintable(cache, NodeLine(dateIso));
  }

  /** Two beeps that differ only in their error bits print the same line. */
  lemma BeepLineIgnoresErrorBits(e: BeepEntry, bits: Value, iso: int -> string, dateIso: Value -> Option<string>)
    ensures BeepLine(iso, dateIso)(e.(errorBits := bits)) == BeepLine(iso, dateIso)(e)
  {
  }

  /** `info.battery_mv / 1000`: exact for an integer number of millivolts,
      and `divideBy1000` for every other value. */
  function Battery(mv: Value, divideBy1000: Value -> Value): (r: Value)
    ensures mv.Int? && mv.i % 1000 == 0 ==> r == Int(mv.i / 1000)
    ensures mv.Int? && mv.i % 1000 != 0 ==> r.Float?
    ensures !mv.Int? ==> r == divideBy1000(mv)
  {
    if mv.Int? then Thousandths(mv.i) else divideBy1000(mv)
  }

  /** `moment.subtract(v, 'ms')` reads its amount as `+v` and treats a
      missing amount as zero; `None` for the amounts the model does not
      cover (fractions, and values that are not numbers, numeric strings,
      booleans, `null` or `undefined`). */
  function OffsetMs(v: Value): (r: Option<int>)
    ensures v.Int? ==> r == Some(v.i)
    ensures v.Undefined? || v.Null? ==> r == Some(0)
  {
    match v
    case Undefined => Some(0)
    case Null => Some(0)
    case Bool(b) => Some(if b then 1 else 0)
    case Int(i) => Some(i)
    case Str(s) => StringToInteger(s)
    case _ => None
  }

  /** The text of a GPS row: the six GPS columns with a fix; without one the
      time, three empty fields and `0`. `None` when the GPS state is needed
      and is `null` or `undefined`, so that reading it throws. */
  function GpsLine(latestFix: Value, gpsState: Value, now: string): (r: Option<string>)
    ensures !Truthy(latestFix) ==> r == Some(CsvLine([Str(now), Str(""), Str(""), Str(""), Str("0")]))
    ensures Truthy(latestFix) ==> (r.None? <==> gpsState.Undefined? || gpsState.Null?)
    ensures Truthy(latestFix) && r.Some? ==>
      r.value == CsvLine([Str(now), Field(gpsState, "time"), Field(gpsState, "lat"), Field(gpsState, "lon"),
                          Field(gpsState, "alt"), Field(gpsState, "mode")])
  {
    if !Truthy(latestFix) then Some(CsvLine([Str(now), Str(""), Str(""), Str(""), Str("0")]))
    else if gpsState.Undefined? || gpsState.Null? then None
    else Some(CsvLine([Str(now), Field(gpsState, "time"), Field(gpsState, "lat"), Field(gpsState, "lon"),
                       Field(gpsState, "alt"), Field(gpsState, "mode")]))
  }

  /** Without a fix the row is the time and `,,,,0`: five fields under a
      six-column header. */
  lemma GpsLineWithoutFix(latestFix: Value, gpsState: Value, now: string)
    requires !Truthy(latestFix)
    ensures GpsLine(latestFix, gpsState, now) == Some(now + ",,,,0")
    ensures ',' !in now ==> |Split(GpsLine(latestFix, gpsState, now).value, ',')| == 5 < |GpsHeader|
  {
    var names := [now, "", "", "", "0"];
    CsvLineOfStrings(names);
    assert seq(|names|, k requires 0 <= k < |names| => Str(names[k])) == [Str(now), Str(""), Str(""), Str(""), Str("0")];
    JoinFive(now, "", "", "", "0", ",");
    assert now + "," + "" + "," + "" + "," + "" + "," + "0" == now + ",,,,0";
    assert CsvLine([Str(now), Str(""), Str(""), Str(""), Str("0")]) == now + ",,,,0";
    if ',' !in now {
      FiveSegments(now, "", "", "", "0");
      assert Join(names, ",") == now + ",,,,0";
      assert |GpsHeader| == 6;
    }
  }

  lemma JoinFive(a: string, b: string, c: string, d: string, e: string, sep: string)
    ensures Join([a, b, c, d, e], sep) == a + sep + b + sep + c + sep + d + sep + e
  {
    JoinCons(d, [e], sep);
    assert [d] + [e] == [d, e];
    JoinCons(c, [d, e], sep);
    assert [c] + [d, e] == [c, d, e];
    JoinCons(b, [c, d, e], sep);
    assert [b] + [c, d, e] == [b, c, d, e];
    JoinCons(a, [b, c, d, e], sep);
    assert [a] + [b, c, d, e] == [a, b, c, d, e];
  }

  lemma JoinCons(x: string, rest: seq<string>, sep: string)
    requires rest != []
    ensures Join([x] + rest, sep) == x + sep + Join(rest, sep)
  {
    assert ([x] + rest)[1..] == rest;
  }

  lemma FiveSegments(a: string, b: string, c: string, d: string, e: string)
    requires ',' !in a && ',' !in b && ',' !in c && ',' !in d && ',' !in e
    ensures |Split(Join([a, b, c, d, e], ","), ',')| == 5
  {
    SplitJoin([a, b, c, d, e], ',');
  }

  /** Strings joined as CSV fields print as the strings joined with commas. */
  lemma CsvLineOfStrings(names: seq<string>)
    ensures CsvLine(seq(|names|, k requires 0 <= k < |names| => Str(names[k]))) == Join(names, ",")
  {
    var v := Arr(seq(|names|, k requires 0 <= k < |names| => Str(names[k])));
    assert forall k :: 0 <= k < |names| ==> Str(names[k]) < v by {
      forall k | 0 <= k < |names| ensures Str(names[k]) < v {
        assert v.items[k] == Str(names[k]);
      }
    }
    RenderAllStrings(names, v);
  }

  /** The header the GPS writer unshifts is an array, and `join` prints an
      array as its elements joined with commas: the same text as joining the
      names. */
  lemma {:induction false} RenderAllStrings(names: seq<string>, parent: Value)
    requires forall k :: 0 <= k < |names| ==> Str(names[k]) < parent
    ensures RenderAll(seq(|names|, k requires 0 <= k < |names| => Str(names[k])), parent) == names
    decreases |names|
  {
    var vs := seq(|names|, k requires 0 <= k < |names| => Str(names[k]));
    if names != [] {
      assert vs[1..] == seq(|names[1..]|, k requires 0 <= k < |names[1..]| => Str(names[1..][k]));
      RenderAllStrings(names[1..], parent);
    }
  }

  /** The GPS header array as `join` prints it. */
  function HeaderArrayText(names: seq<string>): (r: string)
    ensures r == Join(names, ",")
  {
    CsvLineOfStrings(names);
    Render(Arr(seq(|names|, k requires 0 <= k < |names| => Str(names[k]))))
  }

  /** The `in` test on an array of `n` keys: true for the indices `"0"` to
      `n - 1` written in decimal, and for `length`. The names an array
      inherits from its prototypes are not modelled. */
  predicate InKeysArray(key: string, n: nat)
  {
    key == "length" || exists i :: 0 <= i < n && key == IntToString(i)
  }

  /** The preset written for a radio mode: `node`, `tag` and `ook` each have
      one, and no other value does. */
  function Preset(mode: Value): (r: Option<string>)
    ensures r.Some? <==> mode == Str("node") || mode == Str("tag") || mode == Str("ook")
    ensures mode == Str("node") ==> r == Some("preset:node2")
    ensures mode == Str("tag") ==> r == Some("preset:fsktag")
    ensures mode == Str("ook") ==> r == Some("preset:node3")
  {
    match mode
    case Str(s) =>
      if s == "node" then Some("preset:node2")
      else if s == "tag" then Some("preset:fsktag")
      else if s == "ook" then Some("preset:node3")
      else None
    case _ => None
  }

  /** The three presets are distinct, so the written command tells the mode. */
  lemma PresetInjective(a: Value, b: Value)
    requires Preset(a).Some? && Preset(a) == Preset(b)
    ensures a == b
  {
  }

  /** The command after the guard: the preset goes to the radio stored under
      `key`; a mode without a preset writes nothing; writing to a missing
      entry or to a port description (which has no `write`) throws. */
  function Dispatch(radios: map<string, RadioEntry>, key: string, mode: Value): (r: Toggle)
    ensures Preset(mode).None? <==> r == InvalidType
    ensures r.Written? <==> Preset(mode).Some? && key in radios && radios[key].Radio?
    ensures r.Written? ==> r == Written(radios[key].channel, Preset(mode).value)
  {
    match Preset(mode)
    case None => InvalidType
    case Some(command) =>
      if key in radios && radios[key].Radio? then Written(radios[key].channel, command) else Threw
  }

  /** `toggle_radio` as written, for the command's `data`: the guard
      `channel in Object.keys(active_radios)` asks whether the channel is an
      index of the array of keys, not whether it is a key. */
  function ToggleRadioAsWritten(radios: map<string, RadioEntry>, data: Value): (r: Toggle)
    ensures (data.Undefined? || data.Null?) ==> r == Threw
    ensures !(data.Undefined? || data.Null?) ==>
      var key := ToJsString(Field(data, "channel"));
      (r == UnknownCmd <==> !InKeysArray(key, |radios|)) &&
      (InKeysArray(key, |radios|) ==> r == Dispatch(radios, key, Field(data, "type")))
  {
    match Prop(data, "channel")
    case None => Threw
    case Some(channel) =>
      var key := ToJsString(channel);
      if InKeysArray(key, |radios|) then Dispatch(radios, key, Field(data, "type")) else UnknownCmd
  }

  /** `toggle_radio` as evidently intended: the guard asks whether the
      channel is a key of `active_radios`. */
  function ToggleRadio(radios: map<string, RadioEntry>, data: Value): (r: Toggle)
    ensures (data.Undefined? || data.Null?) ==> r == Threw
    ensures !(data.Undefined? || data.Null?) ==>
      var key := ToJsString(Field(data, "channel"));
      (r == UnknownCmd <==> key !in radios) &&
      (key in radios ==> r == Dispatch(radios, key, Field(data, "type")))
  {
    match Prop(data, "channel")
    case None => Threw
    case Some(channel) =>
      var key := ToJsString(channel);
      if key in radios then Dispatch(radios, key, Field(data, "type")) else UnknownCmd
  }

  /** `active_radios` once `start()` has registered the five channels and no
      port has opened. */
  const StartedRadios: map<string, RadioEntry> :=
    map["1" := Radio(1), "2" := Radio(2), "3" := Radio(3), "4" := Radio(4), "5" := Radio(5)]

  /** The receivers of channels 1 to `n`, under their decimal text. */
  function StartedUpTo(n: nat): map<string, RadioEntry>
  {
    if n == 0 then map[] else StartedUpTo(n - 1)[IntToString(n) := Radio(n)]
  }

  /** Updating a merged map updates its right-hand side. */
  lemma MergeUpdate(a: map<string, RadioEntry>, m: map<string, RadioEntry>, k: string, v: RadioEntry)
    ensures (a + m)[k := v] == a + m[k := v]
  {
  }

  lemma StartedUpToFive()
    ensures StartedUpTo(5) == StartedRadios
  {
    SmallIntStrings();
  }

  lemma SmallIntStrings()
    ensures IntToString(0) == "0" && IntToString(1) == "1" && IntToString(2) == "2"
    ensures IntToString(3) == "3" && IntToString(4) == "4" && IntToString(5) == "5"
  {
  }

  /** With the five channels registered, the written guard refuses channel 5
      (there is no index 5 among five keys) and lets channel 0 through to a
      missing radio, which throws; the intended guard writes the preset to
      radio 5 and refuses channel 0. */
  lemma ToggleRadioChannelFive()
    ensures ToggleRadioAsWritten(StartedRadios, Obj(map["channel" := Int(5), "type" := Str("node")])) == UnknownCmd
    ensures ToggleRadio(StartedRadios, Obj(map["channel" := Int(5), "type" := Str("node")])) == Written(5, "preset:node2")
    ensures ToggleRadioAsWritten(StartedRadios, Obj(map["channel" := Int(0), "type" := Str("node")])) == Threw
    ensures ToggleRadio(StartedRadios, Obj(map["channel" := Int(0), "type" := Str("node")])) == UnknownCmd
  {
    SmallIntStrings();
    ChannelFiveRefused();
    ChannelZeroThrows();
    assert "0" !in StartedRadios by {
      assert "0"[0] != "1"[0] && "0"[0] != "2"[0] && "0"[0] != "3"[0] && "0"[0] != "4"[0] && "0"[0] != "5"[0];
    }
  }

  lemma ChannelFiveRefused()
    ensures ToggleRadioAsWritten(StartedRadios, Obj(map["channel" := Int(5), "type" := Str("node")])) == UnknownCmd
  {
    assert |StartedRadios| == 5;
    assert !InKeysArray("5", 5) by {
      forall i | 0 <= i < 5 ensures "5" != IntToString(i) {
        if "5" == IntToString(i) {
          IntToStringInjective(i, 5);
        }
      }
    }
  }

  lemma ChannelZeroThrows()
    ensures ToggleRadioAsWritten(StartedRadios, Obj(map["channel" := Int(0), "type" := Str("node")])) == Threw
  {
    assert |StartedRadios| == 5;
    assert InKeysArray("0", 5) by {
      SmallIntStrings();
    }
    assert "0" !in StartedRadios by {
      assert "0"[0] != "1"[0] && "0"[0] != "2"[0] && "0"[0] != "3"[0] && "0"[0] != "4"[0] && "0"[0] != "5"[0];
    }
  }

  /** The intended guard passes exactly the channels that have an entry, so a
      started radio always receives a valid preset. */
  lemma ToggleRadioReachesStarted(radios: map<string, RadioEntry>, ch: int, mode: Value)
    requires IntToString(ch) in radios && radios[IntToString(ch)] == Radio(ch) && Preset(mode).Some?
    ensures ToggleRadio(radios, Obj(map["channel" := Int(ch), "type" := mode])) == Written(ch, Preset(mode).value)
  {
  }

  class Station {
    const stationId: string
    const baseLogDir: string
    const dataFileUri: string
    const nodeFileUri: string
    const gpsFileUri: string
    var activeRadios: map<string, RadioEntry>
    /** Beeps not yet written, oldest first. */
    var beepCache: seq<BeepEntry>
    /** Node health messages not yet written, oldest first. */
    var nodeCache: seq<NodeEntry>
    var beepCountSinceCheckin: nat
    var beepCountTotal: nat
    var nodes: set<Value>
    var totalNodes: set<Value>
    var uniqueTags: set<Value>

    /** Every beep is counted in both counters, no tag is recorded without a
        counted beep, and the two node sets grow together. */
    predicate Valid()
      reads this
    {
      beepCountSinceCheckin == beepCountTotal && |uniqueTags| <= beepCountTotal && nodes == totalNodes
    }

    function Tallies(): Tally
      reads this
    {
      Tally(beepCountSinceCheckin, beepCountTotal, nodes, totalNodes, uniqueTags)
    }

    /** The constructor followed by the file names `init()` computes from the
        station id: the raw beep, node and GPS files in the base log
        directory. */
    constructor (stationId: string, baseLogDir: string)
      ensures this.stationId == stationId && this.baseLogDir == baseLogDir
      ensures dataFileUri == PathJoin(baseLogDir, FileManager.FileName(stationId, "raw-data"))
      ensures nodeFileUri == PathJoin(baseLogDir, FileManager.FileName(stationId, "node-data"))
      ensures gpsFileUri == PathJoin(baseLogDir, FileManager.FileName(stationId, "gps"))
      ensures activeRadios == map[] && beepCache == [] && nodeCache == []
      ensures Tallies() == Tally(0, 0, {}, {}, {})
      ensures Valid()
    {
      this.stationId := stationId;
      this.baseLogDir := baseLogDir;
      dataFileUri := PathJoin(baseLogDir, FileManager.FileName(stationId, "raw-data"));
      nodeFileUri := PathJoin(baseLogDir, FileManager.FileName(stationId, "node-data"));
      gpsFileUri := PathJoin(baseLogDir, FileManager.FileName(stationId, "gps"));
      activeRadios := map[];
      beepCache := [];
      nodeCache := [];
      beepCountSinceCheckin := 0;
      beepCountTotal := 0;
      nodes := {};
      totalNodes := {};
      uniqueTags := {};
    }

    /** `start()`: a receiver for each of the channels 1 to 5, stored under
        the channel's decimal text. */
    method Start()
      modifies this
      ensures activeRadios == old(activeRadios) + StartedRadios
      ensures beepCache == old(beepCache) && nodeCache == old(nodeCache) && Tallies() == old(Tallies())
    {
      var ch := 1;
      while ch <= 5
        invariant 1 <= ch <= 6
        invariant activeRadios == old(activeRadios) + StartedUpTo(ch - 1)
        invariant beepCache == old(beepCache) && nodeCache == old(nodeCache)
        invariant beepCountSinceCheckin == old(beepCountSinceCheckin) && beepCountTotal == old(beepCountTotal)
        invariant nodes == old(nodes) && totalNodes == old(totalNodes) && uniqueTags == old(uniqueTags)
        decreases 6 - ch
      {
        MergeUpdate(old(activeRadios), StartedUpTo(ch - 1), IntToString(ch), Radio(ch));
        activeRadios := activeRadios[IntToString(ch) := Radio(ch)];
        ch := ch + 1;
      }
      StartedUpToFive();
    }

    /** A receiver's `open` event: its description is stored under its port. */
    method OnRadioOpen(info: Value) returns (ok: bool)
      modifies this
      ensures ok <==> !(info.Undefined? || info.Null?)
      ensures activeRadios == if ok then old(activeRadios)[ToJsString(Field(info, "port_uri")) := PortInfo(info)]
                              else old(activeRadios)
      ensures beepCache == old(beepCache) && nodeCache == old(nodeCache) && Tallies() == old(Tallies())
    {
      match Prop(info, "port_uri")
      case None =>
        ok := false;
      case Some(port) =>
        activeRadios := activeRadios[ToJsString(port) := PortInfo(info)];
        ok := true;
    }

    /** `handle_beep(beep)`. Reading a property of `null` or `undefined`
        throws before anything changes. Otherwise one entry is queued and both
        counters go up by one; setting `msg_type` on a primitive then throws
        (`ok` false), and otherwise the tag id joins `unique_tags`. */
    method HandleBeep(beep: Value) returns (ok: bool)
      requires Valid()
      modifies this
      ensures Valid()
      ensures ok <==> beep.Obj? || beep.Arr?
      ensures beep.Undefined? || beep.Null? ==>
        beepCache == old(beepCache) && Tallies() == old(Tallies())
      ensures !(beep.Undefined? || beep.Null?) ==>
        beepCache == old(beepCache) + [BeepEntry(Given(Field(beep, "received_at")), Field(beep, "channel"),
          Field(beep, "tag_id"), Field(beep, "rssi"), Field(beep, "node_id"), Field(beep, "error_bits"))] &&
        beepCountSinceCheckin == old(beepCountSinceCheckin) + 1 && beepCountTotal == old(beepCountTotal) + 1 &&
        uniqueTags == (if ok then old(uniqueTags) + {Field(beep, "tag_id")} else old(uniqueTags))
      ensures nodes == old(nodes) && totalNodes == old(totalNodes)
      ensures nodeCache == old(nodeCache) && activeRadios == old(activeRadios)
    {
      if beep.Undefined? || beep.Null? {
        return false;
      }
      beepCache := beepCache + [BeepEntry(Given(Field(beep, "received_at")), Field(beep, "channel"),
        Field(beep, "tag_id"), Field(beep, "rssi"), Field(beep, "node_id"), Field(beep, "error_bits"))];
      beepCountSinceCheckin := beepCountSinceCheckin + 1;
      beepCountTotal := beepCountTotal + 1;
      if !(beep.Obj? || beep.Arr?) {
        return false;
      }
      AddOneMore(uniqueTags, Field(beep, "tag_id"));
      uniqueTags := uniqueTags + {Field(beep, "tag_id")};
      ok := true;
    }

    /** `handle_node_beep(node_beep)` at time `nowMs`. The beep is queued as
        heard `offset_ms` before now, with error bits 0, and the relaying node
        joins both node sets; the beep counters are not touched. Reading a
        property of `null` or `undefined` (the message, its `data`, the
        node or the tag part) throws before anything changes. */
    method HandleNodeBeep(nodeBeep: Value, nowMs: int) returns (ok: bool)
      requires var info := Path(nodeBeep, ["data", "node_beep"]);
        info.Some? && !(info.value.Undefined? || info.value.Null?) ==>
          OffsetMs(Field(info.value, "offset_ms")).Some?
      requires Valid()
      modifies this
      ensures Valid()
      ensures var info, tag := Path(nodeBeep, ["data", "node_beep"]), Path(nodeBeep, ["data", "node_tag"]);
        ok <==> info.Some? && !(info.value.Undefined? || info.value.Null?) &&
                !(tag.value.Undefined? || tag.value.Null?)
      ensures ok ==>
        var info, tag := Path(nodeBeep, ["data", "node_beep"]).value, Path(nodeBeep, ["data", "node_tag"]).value;
        var id := Field(info, "id");
        beepCache == old(beepCache) + [BeepEntry(At(nowMs - OffsetMs(Field(info, "offset_ms")).value),
          Field(nodeBeep, "channel"), Field(tag, "tag_id"), Field(info, "tag_rssi"), id, Int(0))] &&
        nodes == old(nodes) + {id} && totalNodes == old(totalNodes) + {id}
      ensures !ok ==> beepCache == old(beepCache) && nodes == old(nodes) && totalNodes == old(totalNodes)
      ensures beepCountSinceCheckin == old(beepCountSinceCheckin) && beepCountTotal == old(beepCountTotal)
      ensures uniqueTags == old(uniqueTags) && nodeCache == old(nodeCache) && activeRadios == old(activeRadios)
    {
      var info := Path(nodeBeep, ["data", "node_beep"]);
      var tag := Path(nodeBeep, ["data", "node_tag"]);
      if info.None? {
        return false;
      }
      var offset := Prop(info.value, "offset_ms");
      if offset.None? {
        return false;
      }
      var tagId := Prop(tag.value, "tag_id");
      if tagId.None? {
        return false;
      }
      var id := Field(info.value, "id");
      beepCache := beepCache + [BeepEntry(At(nowMs - OffsetMs(offset.value).value), Field(nodeBeep, "channel"),
        tagId.value, Field(info.value, "tag_rssi"), id, Int(0))];
      nodes := nodes + {id};
      totalNodes := totalNodes + {id};
      ok := true;
    }

    /** `handle_node_alive(node_alive)`: the node joins both node sets and one
        entry is queued, with the battery in volts. Reading a property of
        `null` or `undefined` (the message, its `data` or the node part)
        throws before anything changes. */
    method HandleNodeAlive(nodeAlive: Value, divideBy1000: Value -> Value) returns (ok: bool)
      requires Valid()
      modifies this
      ensures Valid()
      ensures var info := Path(nodeAlive, ["data", "node_alive"]);
        ok <==> info.Some? && !(info.value.Undefined? || info.value.Null?)
      ensures ok ==>
        var info := Path(nodeAlive, ["data", "node_alive"]).value;
        var id := Field(info, "id");
        nodeCache == old(nodeCache) + [NodeEntry(Field(nodeAlive, "received_at"), Field(nodeAlive, "channel"), id,
          Field(info, "firmware"), Battery(Field(info, "battery_mv"), divideBy1000), Field(info, "celsius"),
          Field(nodeAlive, "rssi"), Field(info, "avg_cca"))] &&
        nodes == old(nodes) + {id} && totalNodes == old(totalNodes) + {id}
      ensures !ok ==> nodeCache == old(nodeCache) && nodes == old(nodes) && totalNodes == old(totalNodes)
      ensures beepCountSinceCheckin == old(beepCountSinceCheckin) && beepCountTotal == old(beepCountTotal)
      ensures uniqueTags == old(uniqueTags) && beepCache == old(beepCache) && activeRadios == old(activeRadios)
    {
      var info := Path(nodeAlive, ["data", "node_alive"]);
      if info.None? {
        return false;
      }
      var id := Prop(info.value, "id");
      if id.None? {
        return false;
      }
      nodes := nodes + {id.value};
      totalNodes := totalNodes + {id.value};
      nodeCache := nodeCache + [NodeEntry(Field(nodeAlive, "received_at"), Field(nodeAlive, "channel"), id.value,
        Field(info.value, "firmware"), Battery(Field(info.value, "battery_mv"), divideBy1000),
        Field(info.value, "celsius"), Field(nodeAlive, "rssi"), Field(info.value, "avg_cca"))];
      ok := true;
    }

    /** `writeBeeps()`. The beep cache is drained oldest first; a time that
        throws rejects the promise, loses the lines before it, leaves the
        beeps after it queued and writes nothing. Otherwise the cache is left
        empty: an empty cache writes nothing and the promise never settles; a
        non-empty one appends the lines to the raw data file, the header first
        when the file is absent, and settles as the append does. */
    method WriteBeeps(disk: FileSystem.Disk, clock: Clock, dateIso: Value -> Option<string>, appendSucceeds: bool)
      returns (s: Settlement)
      modifies this, disk
      ensures disk.files == Flushed(old(disk.files), dataFileUri, Join(BeepHeader, ","), old(beepCache),
                                    BeepLine(clock.iso, dateIso), "\r\n", appendSucceeds)
      ensures var d := Drain(old(beepCache), BeepLine(clock.iso, dateIso));
        beepCache == d.rest &&
        s == (if d.failed then Rejected("TypeError")
              else if old(beepCache) == [] then Pending
              else if appendSucceeds then Resolved else Rejected("append failed"))
      ensures nodeCache == old(nodeCache) && activeRadios == old(activeRadios) && Tallies() == old(Tallies())
    {
      var rest, failed, appended, ok := Flush(disk, dataFileUri, Join(BeepHeader, ","), beepCache,
                                              BeepLine(clock.iso, dateIso), "\r\n", appendSucceeds);
      beepCache := rest;
      s := if failed then Rejected("TypeError")
           else if !appended then Pending
           else if ok then Resolved else Rejected("append failed");
    }

    /** `writeNodes()`: the same drain over the node cache into the node data
        file. The promise is never resolved: it stays pending, and rejects
        only when a time throws or the append fails. */
    method WriteNodes(disk: FileSystem.Disk, dateIso: Value -> Option<string>, appendSucceeds: bool)
      returns (s: Settlement)
      modifies this, disk
      ensures disk.files == Flushed(old(disk.files), nodeFileUri, Join(NodeHeader, ","), old(nodeCache),
                                    NodeLine(dateIso), "\r\n", appendSucceeds)
      ensures var d := Drain(old(nodeCache), NodeLine(dateIso));
        nodeCache == d.rest &&
        s == (if d.failed then Rejected("TypeError")
              else if old(nodeCache) != [] && !appendSucceeds then Rejected("append failed")
              else Pending)
      ensures beepCache == old(beepCache) && activeRadios == old(activeRadios) && Tallies() == old(Tallies())
    {
      var rest, failed, appended, ok := Flush(disk, nodeFileUri, Join(NodeHeader, ","), nodeCache,
                                              NodeLine(dateIso), "\r\n", appendSucceeds);
      nodeCache := rest;
      s := if failed then Rejected("TypeError")
           else if appended && !ok then Rejected("append failed")
           else Pending;
    }

    /** `logGPS()` with the GPS client's `latest_gps_fix` and `gps_state`:
        exactly one row is appended to the GPS file, the header first when the
        file is absent, and the promise settles as the append does. Reading
        a `null` or `undefined` GPS state with a fix throws and writes
        nothing. */
    method LogGps(disk: FileSystem.Disk, clock: Clock, latestFix: Value, gpsState: Value, appendSucceeds: bool)
      returns (s: Settlement)
      modifies disk
      ensures var line := GpsLine(latestFix, gpsState, clock.iso(clock.nowMs));
        (line.None? ==> s == Rejected("TypeError") && disk.files == old(disk.files)) &&
        (line.Some? ==>
          disk.files == (if appendSucceeds
            then FileSystem.Appended(old(disk.files), gpsFileUri,
                   Payload(Join(GpsHeader, ","), [line.value], "\r\n", gpsFileUri in old(disk.files)))
            else old(disk.files)) &&
          s == (if appendSucceeds then Resolved else Rejected("append failed")))
    {
      var line := GpsLine(latestFix, gpsState, clock.iso(clock.nowMs));
      if line.None? {
        return Rejected("TypeError");
      }
      var present := disk.Exists(gpsFileUri);
      var all := (if present then [] else [HeaderArrayText(GpsHeader)]) + [line.value];
      PayloadIsJoin(Join(GpsHeader, ","), [line.value], "\r\n", present);
      var ok := disk.AppendFile(gpsFileUri, Join(all, "\r\n") + "\r\n", appendSucceeds);
      s := if ok then Resolved else Rejected("append failed");
    }
  }

  /** Adding one element to a set adds at most one to its size. */
  lemma AddOneMore(s: set<Value>, x: Value)
    ensures |s + {x}| <= |s| + 1
  {
    if x in s {
      assert s + {x} == s;
    }
  }
}
