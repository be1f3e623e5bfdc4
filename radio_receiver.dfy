/** The serial radio receiver of the current firmware: its options, the
    framing of commands written to the radio, its description, the events
    raised by the port and the dispatch of each received line. The serial
    port, the line parser and the timers are not modelled; their callbacks
    are the methods and functions below, and a scheduled restart is an
    event. */
module RadioReceiver {
  import opened Wrappers
  import opened Text
  import opened JsValue

  /** The two's complement bit pattern of an integer modulo 2^32. */
  function Bits32(n: int): bv32
  {
    (n % 0x1_0000_0000) as bv32
  }

  /** A bit pattern read as a signed 32-bit integer. */
  function Signed(x: bv32): int
  {
    if x < 0x8000_0000 then x as int else x as int - 0x1_0000_0000
  }

  /** `ToInt32(v)`, the conversion a bitwise operator applies, as the bit
      pattern it produces: `NaN` gives 0, and `floatToInt32` gives the value
      for a non-integer number from the text it prints. */
  function ToInt32(v: Value, floatToInt32: string -> int): (r: bv32)
    ensures v.Undefined? || v.Null? || v.Obj? ==> r == 0
    ensures v.Bool? ==> r == if v.b then 1 else 0
    ensures v.Int? ==> r == Bits32(v.i)
  {
    match v
    case Undefined => 0
    case Null => 0
    case Bool(b) => if b then 1 else 0
    case Int(i) => Bits32(i)
    case Float(t) => Bits32(floatToInt32(t))
    case Str(s) => (match StringToInteger(s) case None => 0 case Some(n) => Bits32(n))
    case Arr(_) => (match StringToInteger(Render(v)) case None => 0 case Some(n) => Bits32(n))
    case Obj(_) => 0
  }

  /** `opts.restart_ms | 15000`. */
  function RestartMs(option: Value, floatToInt32: string -> int): int
  {
    Signed(ToInt32(option, floatToInt32) | 15000)
  }

  /** `(opts.restart_on_close | true) == true`: the OR gives a number with
      its lowest bit set, and it equals `true` only when it is 1. */
  predicate RestartsOnClose(option: Value, floatToInt32: string -> int)
  {
    RestartFlag(ToInt32(option, floatToInt32))
  }

  /** `(x | true) == true` once the option has been converted to `x`. */
  predicate RestartFlag(x: bv32)
  {
    Signed(x | 1) == 1
  }

  /** A missing, `null`, `false` or zero `restart_ms` gives the 15 second
      default. */
  lemma RestartMsDefault(option: Value, floatToInt32: string -> int)
    requires ToInt32(option, floatToInt32) == 0
    ensures RestartMs(option, floatToInt32) == 15000
  {
    assert (0 as bv32 | 15000) == 15000;
  }

  /** Any other delay is merged bit by bit with 15000 rather than replacing
      it: an option that converts to one second becomes 15352 ms. */
  lemma RestartMsOfOneSecond(option: Value, floatToInt32: string -> int)
    requires ToInt32(option, floatToInt32) == 1000
    ensures RestartMs(option, floatToInt32) == 15352
  {
    OrThousand(ToInt32(option, floatToInt32));
    SignedOf15352(ToInt32(option, floatToInt32) | 15000);
  }

  lemma OrThousand(x: bv32)
    requires x == 1000
    ensures x | 15000 == 15352
  {
  }

  lemma SignedOf15352(y: bv32)
    requires y == 15352
    ensures Signed(y) == 15352
  {
  }

  /** The restart flag holds exactly when the option converts to 0 or 1; so
      `false`, `true`, a missing option or `null` all restart, and only a
      number other than 0 and 1 (such as 2) disables it. */
  lemma RestartsOnCloseIff(option: Value, floatToInt32: string -> int)
    ensures RestartsOnClose(option, floatToInt32) <==>
      ToInt32(option, floatToInt32) == 0 || ToInt32(option, floatToInt32) == 1
  {
    RestartFlagIff(ToInt32(option, floatToInt32));
  }

  /** For a boolean, missing or `null` option, every close schedules a
      restart. */
  lemma RestartsOnCloseByDefault(option: Value, floatToInt32: string -> int)
    requires option.Bool? || option.Undefined? || option.Null?
    ensures RestartsOnClose(option, floatToInt32)
  {
    RestartsOnCloseIff(option, floatToInt32);
  }

  lemma RestartFlagIff(x: bv32)
    ensures RestartFlag(x) <==> x == 0 || x == 1
  {
    SignedIsOne(x | 1);
    assert x | 1 == 1 <==> x == 0 || x == 1;
  }

  lemma SignedIsOne(y: bv32)
    ensures Signed(y) == 1 <==> y == 1
  {
    if y >= 0x8000_0000 {
      assert y as int < 0x1_0000_0000;
    } else if y as int == 1 {
      assert y == 1 as bv32;
    }
  }

  /** What a receiver raises, and the restart it schedules. */
  datatype Event =
    | Open(info: Value)
    | Close(info: Value)
    | Error(message: string)
    | Beep(beep: Value)
    | Raw(line: string)
    | StartAfter(delayMs: int)

  class Receiver {
    const portUri: Value
    const baudRate: Value
    const channel: Value
    const restartMs: int
    const restartOnClose: bool
    /** Whether `buildSerialInterface` has run, so that `serialport` is set. */
    var hasPort: bool

    /** `new RadioReceiver(opts)`; `floatToInt32` converts the non-integer
        numbers among the options. */
    constructor (opts: Value, floatToInt32: string -> int)
      requires !opts.Undefined? && !opts.Null?
      ensures portUri == Field(opts, "port_uri") && baudRate == Field(opts, "baud_rate")
      ensures channel == Field(opts, "channel")
      ensures restartMs == RestartMs(Field(opts, "restart_ms"), floatToInt32)
      ensures restartOnClose == RestartsOnClose(Field(opts, "restart_on_close"), floatToInt32)
      ensures !hasPort
    {
      portUri := Field(opts, "port_uri");
      baudRate := Field(opts, "baud_rate");
      channel := Field(opts, "channel");
      restartMs := RestartMs(Field(opts, "restart_ms"), floatToInt32);
      restartOnClose := RestartsOnClose(Field(opts, "restart_on_close"), floatToInt32);
      hasPort := false;
    }

    /** `data()`: the port, the baud rate and the channel, and nothing else. */
    function Data(): (r: Value)
      ensures r.Obj? && r.fields.Keys == {"port_uri", "baud_rate", "channel"}
      ensures r.fields["port_uri"] == portUri && r.fields["baud_rate"] == baudRate
      ensures r.fields["channel"] == channel
    {
      Obj(map["port_uri" := portUri, "baud_rate" := baudRate, "channel" := channel])
    }

    /** `buildSerialInterface()`: the port is opened and kept. */
    method BuildSerialInterface()
      modifies this
      ensures hasPort
    {
      hasPort := true;
    }

    /** `write(data)`: the text sent to the radio. Data that is not a string
        has no `trim` and throws a TypeError, as does a write before the port
        exists. */
    function Write(data: Value): (r: Result<string, string>)
      reads this
      ensures r.Success? <==> data.Str? && hasPort
      ensures r.Success? ==> |r.value| >= 2 && r.value[|r.value| - 2..] == "\r\n"
      ensures r.Success? ==> r.value[..|r.value| - 2] == Trim(data.s)
    {
      if !data.Str? || !hasPort then Failure("TypeError")
      else Success(Trim(data.s) + "\r\n")
    }

    /** The port's `open` event. */
    function OnOpen(): (events: seq<Event>)
      ensures events == [Open(Data())]
    {
      [Open(Data())]
    }

    /** The port's `close` event: `close` is raised, then a restart after
        `restart_ms` is scheduled when the restart flag holds. */
    function OnClose(): (events: seq<Event>)
      ensures |events| >= 1 && events[0] == Close(Data())
      ensures |events| == 2 <==> restartOnClose
      ensures |events| == 2 ==> events[1] == StartAfter(restartMs)
      ensures |events| <= 2
    {
      [Close(Data())] + if restartOnClose then [StartAfter(restartMs)] else []
    }

    /** The port's `error` event: only `error` is raised, with the error's
        text followed by the description printed as an object; no restart is
        scheduled. */
    function OnError(err: string): (events: seq<Event>)
      ensures |events| == 1 && events[0].Error?
      ensures events[0].message == err + "[object Object]"
    {
      [Error(err + Render(Data()))]
    }

    /** A line from the radio, where `parsed` is what `JSON.parse(line)` gave
        (`None` when it throws) and `now` the receipt time. A parsed object
        gets `channel` and `received_at` and is raised as `beep`. Setting a
        property on `null` or on a primitive throws, and such a line is
        raised unchanged as `raw`, like one that does not parse. An array is
        raised as `beep`; the two properties set on it are not modelled. */
    function OnLine(line: string, parsed: Option<Value>, now: Value): (e: Event)
      ensures e.Beep? <==> parsed.Some? && (parsed.value.Obj? || parsed.value.Arr?)
      ensures !e.Beep? ==> e == Raw(line)
      ensures e.Beep? && parsed.value.Obj? ==>
        var fields := parsed.value.fields;
        e.beep.Obj? && e.beep.fields.Keys == fields.Keys + {"channel", "received_at"} &&
        e.beep.fields["channel"] == channel && e.beep.fields["received_at"] == now &&
        forall k :: k in fields && k != "channel" && k != "received_at" ==> e.beep.fields[k] == fields[k]
      ensures e.Beep? && parsed.value.Arr? ==> e.beep == parsed.value
    {
      match parsed
      case None => Raw(line)
      case Some(Obj(fields)) => Beep(Obj(SetProp(SetProp(fields, "channel", channel), "received_at", now)))
      case Some(Arr(items)) => Beep(Arr(items))
      case Some(_) => Raw(line)
    }
  }

  /** The frame written to the radio carries the command without surrounding
      white space, so writing the frame again sends the same frame. */
  lemma WriteIdempotent(r: Receiver, data: Value)
    requires r.Write(data).Success?
    ensures r.Write(Str(r.Write(data).value)) == r.Write(data)
  {
    TrimOfFramed(Trim(data.s));
  }

  /** Trimming a trimmed text followed by CR LF gives the text back. */
  lemma TrimOfFramed(t: string)
    requires t == [] || (!IsWhitespace(t[0]) && !IsWhitespace(t[|t| - 1]))
    ensures Trim(t + "\r\n") == t
  {
    var s := t + "\r\n";
    if t == [] {
      assert s[1..] == "\n" && s[1..][1..] == "";
      assert TrimStart(s) == "";
    } else {
      assert TrimStart(s) == s;
      assert s[..|s| - 1] == t + "\r";
      assert (t + "\r")[..|t|] == t;
      assert TrimEnd(s) == TrimEnd(t + "\r") == TrimEnd(t) == t;
    }
  }
}
