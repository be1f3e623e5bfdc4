/** The receiver of the earlier firmware: an `active` flag that follows the
    port's events, and the mapping of the radio's JSON lines to beeps. */
module LegacyRadioReceiver {
  import opened Wrappers
  import opened JsValue

  /** What the receiver raises. */
  datatype Event = Open(info: Value) | Close(info: Value) | Beep(beep: Value) | Unknown(raw: Value)

  class Receiver {
    const portUri: Value
    const baudRate: Value
    const channel: Value
    /** Whether the serial port is open. */
    var active: bool

    /** `new RadioReceiver(opts)`: inactive until the port opens. */
    constructor (opts: Value)
      requires !opts.Undefined? && !opts.Null?
      ensures portUri == Field(opts, "port_uri") && baudRate == Field(opts, "baud_rate")
      ensures channel == Field(opts, "channel")
      ensures !active
    {
      portUri := Field(opts, "port_uri");
      baudRate := Field(opts, "baud_rate");
      channel := Field(opts, "channel");
      active := false;
    }

    /** `data()`: the port, the baud rate, the channel and the current
        `active` flag. */
    function Data(): (r: Value)
      reads this
      ensures r.Obj? && r.fields.Keys == {"port_uri", "baud_rate", "channel", "active"}
      ensures r.fields["active"] == Bool(active)
      ensures r.fields["port_uri"] == portUri && r.fields["baud_rate"] == baudRate
      ensures r.fields["channel"] == channel
    {
      Obj(map["port_uri" := portUri, "baud_rate" := baudRate, "channel" := channel, "active" := Bool(active)])
    }

    /** The port's `open` event: active, and `open` raised with the new
        description. */
    method OnOpen() returns (e: Event)
      modifies this
      ensures active && e == Open(Data())
    {
      active := true;
      e := Open(Data());
    }

    /** The port's `close` event: inactive, and `close` raised. */
    method OnClose() returns (e: Event)
      modifies this
      ensures !active && e == Close(Data())
    {
      active := false;
      e := Close(Data());
    }

    /** The port's `error` event: inactive, and `close` raised as for a
        close. */
    method OnError() returns (e: Event)
      modifies this
      ensures !active && e == Close(Data())
    {
      active := false;
      e := Close(Data());
    }

    /** A line from the radio, where `parsed` is what `JSON.parse(line)` gave
        (`None` when it throws, and the handler with it) and `now` the receipt
        time. A document whose `type` is `'beep'` becomes a beep record with
        the receiver's channel, the radio's own `channel` as `radio_id`, and
        the tag id and RSSI of its `data`; any other document is raised
        unchanged as `unknown`. Reading a property of `null`, or of a beep
        without `data`, throws a TypeError. */
    function OnLine(parsed: Option<Value>, now: Value): (r: Result<Event, string>)
      ensures parsed.None? ==> r.Failure?
      ensures parsed.Some? && Prop(parsed.value, "type").Some? && Field(parsed.value, "type") != Str("beep") ==>
        r == Success(Unknown(parsed.value))
      ensures r.Success? ==> (r.value.Beep? <==> Field(parsed.value, "type") == Str("beep"))
      ensures r.Success? && !r.value.Beep? ==> r.value == Unknown(parsed.value)
      ensures r.Success? && r.value.Beep? ==>
        var raw := parsed.value;
        var data := Field(raw, "data");
        Field(raw, "type") == Str("beep") &&
        r.value.beep == Obj(map["received_at" := now, "channel" := channel, "radio_id" := Field(raw, "channel"),
                                "tag_id" := Field(data, "tag_id"), "rssi" := Field(data, "rssi")])
      ensures r.Failure? <==> (parsed.None? || parsed.value.Undefined? || parsed.value.Null? ||
        (Field(parsed.value, "type") == Str("beep") && Prop(Field(parsed.value, "data"), "tag_id").None?))
    {
      match parsed
      case None => Failure("SyntaxError")
      case Some(raw) =>
        match Prop(raw, "type")
        case None => Failure("TypeError")
        case Some(t) =>
          if t != Str("beep") then Success(Unknown(raw))
          else
            var data := Field(raw, "data");
            match (Prop(data, "tag_id"), Prop(data, "rssi"))
            case (Some(tag), Some(rssi)) =>
              Success(Beep(Obj(map["received_at" := now, "channel" := channel, "radio_id" := Field(raw, "channel"),
                                   "tag_id" := tag, "rssi" := rssi])))
            case _ => Failure("TypeError")
    }
  }
}
