/** The CSV row format of raw beep files: one row per beep record that has
    a protocol, with the receipt time, radio channel, tag id, tag signal
    strength and relaying node id. */
module BeepFormatter {
  import opened Wrappers
  import opened JsValue

  const Header: seq<string> := ["Time", "RadioId", "TagId", "TagRSSI", "NodeId"]

  /** `formatRecord(record)` with `now` the current time already formatted.
      Reading a property of `null` or `undefined` throws. */
  function FormatRecord(record: Value, now: string): (r: Formatted)
    ensures r.Fields? ==> |r.row| == |Header|
  {
    match Prop(record, "protocol")
    case None => Thrown
    case Some(protocol) =>
      if !Truthy(protocol) then NoRow
      else
        var source := Prop(record, "source").value;
        var nodeId := if Truthy(source) then Prop(source, "id").value else Str("");
        var tagId := Path(record, ["data", "id"]);
        var rssi := Path(record, ["meta", "rssi"]);
        if tagId.None? || rssi.None? then Thrown
        else Fields([Str(now), Prop(record, "channel").value, tagId.value, rssi.value, nodeId])
  }

  /** Which records give a row, which give none and which throw. */
  lemma FormatRecordOutcome(record: Value, now: string)
    ensures FormatRecord(record, now).Thrown? <==>
      record.Undefined? || record.Null? ||
      (Truthy(Prop(record, "protocol").value) &&
       (Path(record, ["data", "id"]).None? || Path(record, ["meta", "rssi"]).None?))
    ensures FormatRecord(record, now).NoRow? <==>
      Prop(record, "protocol").Some? && !Truthy(Prop(record, "protocol").value)
  {
  }

  /** The row's columns, one per header name: the time, the record's channel,
      `data.id`, `meta.rssi`, and `source.id` or the empty string when the
      record has no source. */
  lemma FormatRecordColumns(record: Value, now: string)
    requires FormatRecord(record, now).Fields?
    ensures var row := FormatRecord(record, now).row;
      && Header[0] == "Time" && row[0] == Str(now)
      && Header[1] == "RadioId" && Some(row[1]) == Prop(record, "channel")
      && Header[2] == "TagId" && Some(row[2]) == Path(record, ["data", "id"])
      && Header[3] == "TagRSSI" && Some(row[3]) == Path(record, ["meta", "rssi"])
      && Header[4] == "NodeId"
      && (Truthy(Prop(record, "source").value) ==> Some(row[4]) == Path(record, ["source", "id"]))
      && (!Truthy(Prop(record, "source").value) ==> row[4] == Str(""))
  {
  }
}
