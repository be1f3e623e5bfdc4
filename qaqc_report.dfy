/** The pieces of the QA/QC report computed on the station: the test tag's
    per-channel verdicts, and the small summaries of the GPS, modem and
    peripheral answers of the hardware server. */
module QaqcReport {
  import opened Wrappers
  import opened Text
  import opened JsValue
  import opened BeepStats

  /** The report's settings: the QA/QC tag and the beep threshold. */
  datatype Report = Report(stationId: Value, qaqcTag: Value, threshold: int)

  /** The constructor's defaults: a falsy tag option becomes `'78787878'`, a
      missing or zero threshold becomes 3. A threshold that is not an
      integer is not modelled. */
  function NewReport(stationId: Value, tagOption: Value, thresholdOption: Option<int>): (r: Report)
    ensures r.qaqcTag == (if Truthy(tagOption) then tagOption else Str("78787878"))
    ensures thresholdOption.None? || thresholdOption == Some(0) ==> r.threshold == 3
    ensures thresholdOption.Some? && thresholdOption.value != 0 ==> r.threshold == thresholdOption.value
  {
    Report(stationId,
           if Truthy(tagOption) then tagOption else Str("78787878"),
           if thresholdOption.None? || thresholdOption.value == 0 then 3 else thresholdOption.value)
  }

  /** A tag of `counts` that is the QA/QC tag and was seen more often than
      the threshold. */
  predicate Hit(counts: map<string, nat>, t: string, report: Report)
  {
    t in counts && LooseEqualsString(report.qaqcTag, t) && counts[t] > report.threshold
  }

  /** A channel passes when its direct or its via-node counts hold a hit. */
  predicate Passes(c: ChannelStats, report: Report)
  {
    (exists t :: t in c.beeps && Hit(c.beeps, t, report)) ||
    (exists t :: t in c.nodeBeeps && Hit(c.nodeBeeps, t, report))
  }

  /** The `forEach` over one table's tags: whether any of them is a hit. */
  method AnyHit(counts: map<string, nat>, report: Report) returns (found: bool)
    ensures found <==> exists t :: Hit(counts, t, report)
  {
    found := false;
    var tags := counts.Keys;
    while tags != {}
      invariant tags <= counts.Keys
      invariant found <==> exists t :: t !in tags && Hit(counts, t, report)
      decreases tags
    {
      var t :| t in tags;
      if LooseEqualsString(report.qaqcTag, t) && counts[t] > report.threshold {
        found := true;
      }
      tags := tags - {t};
    }
  }

  /** `getQaqcTagResults()` over `stats.channels`: the default channels start
      `false`; a channel becomes `true` exactly when its count of the QA/QC
      tag is strictly above the threshold, directly or via a node. A
      passing channel outside 1..5 is added. */
  method GetQaqcTagResults(report: Report, channels: map<string, ChannelStats>) returns (results: map<string, bool>)
    ensures forall k :: k in results <==> k in DefaultChannelKeys || (k in channels && Passes(channels[k], report))
    ensures forall k :: k in results ==> (results[k] <==> k in channels && Passes(channels[k], report))
  {
    results := map k | k in DefaultChannelKeys :: false;
    var pending := channels.Keys;
    while pending != {}
      invariant pending <= channels.Keys
      invariant forall k :: k in results <==>
        k in DefaultChannelKeys || (k in channels && k !in pending && Passes(channels[k], report))
      invariant forall k :: k in results ==>
        (results[k] <==> k in channels && k !in pending && Passes(channels[k], report))
      decreases pending
    {
      var channel :| channel in pending;
      var direct := AnyHit(channels[channel].beeps, report);
      var viaNode := AnyHit(channels[channel].nodeBeeps, report);
      if direct || viaNode {
        results := results[channel := true];
      }
      pending := pending - {channel};
    }
  }

  /** A count equal to the threshold does not pass: only counts strictly
      above it do. */
  lemma ThresholdIsStrict(report: Report, c: ChannelStats)
    requires forall t :: t in c.beeps ==> c.beeps[t] <= report.threshold
    requires forall t :: t in c.nodeBeeps ==> c.nodeBeeps[t] <= report.threshold
    ensures !Passes(c, report)
  {
  }

  /** `getGpsData(gps_results)`. */
  datatype GpsData = GpsData(lat: Value, lng: Value, nsats: nat, mode: Value, gpsTime: Value)

  /** The satellites' `reduce`: how many have a truthy `used`; `None` when
      one of them is `null` or `undefined` (a TypeError). */
  function CountUsed(satellites: seq<Value>): (r: Option<nat>)
    ensures r.Some? ==> r.value <= |satellites|
    ensures r.None? <==> exists k :: 0 <= k < |satellites| && Prop(satellites[k], "used").None?
    decreases |satellites|
  {
    if satellites == [] then Some(0)
    else match Prop(satellites[0], "used")
      case None => None
      case Some(used) =>
        match CountUsed(satellites[1..])
        case None =>
          assert forall k :: 0 <= k < |satellites[1..]| ==> satellites[1..][k] == satellites[k + 1];
          None
        case Some(n) =>
          assert forall k :: 1 <= k < |satellites| ==> satellites[k] == satellites[1..][k - 1];
          Some(if Truthy(used) then n + 1 else n)
  }

  /** Counting two lists of satellites one after the other is adding their
      counts. */
  lemma {:induction false} CountUsedAppend(a: seq<Value>, b: seq<Value>)
    requires CountUsed(a).Some? && CountUsed(b).Some?
    ensures CountUsed(a + b) == Some(CountUsed(a).value + CountUsed(b).value)
    decreases |a|
  {
    if a != [] {
      assert (a + b)[1..] == a[1..] + b;
      CountUsedAppend(a[1..], b);
    } else {
      assert a + b == b;
    }
  }

  /** `getGpsData(gps_results)`: the fix's position, time and mode when there
      is a fix (0 each otherwise), and the number of satellites in use when
      there is a sky view (0 otherwise). `None` when it throws: for missing
      results, a sky view without a `satellites` array, or a missing
      satellite. */
  function GetGpsData(results: Value): (r: Option<GpsData>)
    ensures r.None? <==>
      (results.Undefined? || results.Null? ||
       (Truthy(Field(results, "sky")) &&
        (!Field(Field(results, "sky"), "satellites").Arr? ||
         CountUsed(Field(Field(results, "sky"), "satellites").items).None?)))
    ensures r.Some? && !Truthy(Field(results, "gps")) ==>
      r.value.lat == Int(0) && r.value.lng == Int(0) && r.value.mode == Int(0) && r.value.gpsTime == Int(0)
    ensures r.Some? && Truthy(Field(results, "gps")) ==>
      var gps := Field(results, "gps");
      r.value.lat == Field(gps, "lat") && r.value.lng == Field(gps, "lon") &&
      r.value.gpsTime == Field(gps, "time") && r.value.mode == Field(gps, "mode")
    ensures r.Some? && !Truthy(Field(results, "sky")) ==> r.value.nsats == 0
    ensures r.Some? && Truthy(Field(results, "sky")) ==>
      var satellites := Field(Field(results, "sky"), "satellites");
      satellites.Arr? && Some(r.value.nsats) == CountUsed(satellites.items)
  {
    match Prop(results, "gps")
    case None => None
    case Some(gps) =>
      var truthy := Truthy(gps);
      var lat := if truthy then Field(gps, "lat") else Int(0);
      var lng := if truthy then Field(gps, "lon") else Int(0);
      var time := if truthy then Field(gps, "time") else Int(0);
      var mode := if truthy then Field(gps, "mode") else Int(0);
      var sky := Field(results, "sky");
      if !Truthy(sky) then Some(GpsData(lat, lng, 0, mode, time))
      else match Field(sky, "satellites")
        case Arr(satellites) =>
          (match CountUsed(satellites)
           case None => None
           case Some(n) => Some(GpsData(lat, lng, n, mode, time)))
        case _ => None
  }

  /** `getInfo(modem)`: the SIM and IMEI, 0 for either one that is falsy;
      `None` for a missing modem answer. */
  function GetInfo(modem: Value): (r: Option<(Value, Value)>)
    ensures r.None? <==> modem.Undefined? || modem.Null?
    ensures r.Some? ==> Truthy(r.value.0) || r.value.0 == Int(0)
    ensures r.Some? && Truthy(Field(modem, "sim")) ==> r.value.0 == Field(modem, "sim")
    ensures r.Some? && !Truthy(Field(modem, "sim")) ==> r.value.0 == Int(0)
    ensures r.Some? ==> Truthy(r.value.1) || r.value.1 == Int(0)
    ensures r.Some? && Truthy(Field(modem, "imei")) ==> r.value.1 == Field(modem, "imei")
    ensures r.Some? && !Truthy(Field(modem, "imei")) ==> r.value.1 == Int(0)
  {
    match Prop(modem, "sim")
    case None => None
    case Some(sim) =>
      var imei := Field(modem, "imei");
      Some((if Truthy(sim) then sim else Int(0), if Truthy(imei) then imei else Int(0)))
  }

  /** `getModemInfo(modem)`: the signal (`None` for NaN), the carrier and the
      network. */
  datatype ModemInfo = ModemInfo(signal: Option<int>, carrier: string, network: string)

  /** `getModemInfo(modem)`. With a carrier, its two comma-separated parts
      are trimmed into carrier and network; any other number of parts keeps
      the whole carrier and no network, and the signal is `parseInt` of its
      first comma-separated part. Without one, the signal is 0 and both
      names are empty. `None` when it throws: a missing modem answer, a
      carrier that is not a string, or a signal that is not a string. */
  function GetModemInfo(modem: Value): (r: Option<ModemInfo>)
    ensures r.None? <==>
      (modem.Undefined? || modem.Null? ||
       (Truthy(Field(modem, "carrier")) && !(Field(modem, "carrier").Str? && Field(modem, "signal").Str?)))
    ensures r.Some? && Truthy(Field(modem, "carrier")) ==>
      var values := Split(Field(modem, "carrier").s, ',');
      (|values| == 2 ==> r.value.carrier == Trim(values[0]) && r.value.network == Trim(values[1])) &&
      (|values| != 2 ==> r.value.carrier == Field(modem, "carrier").s && r.value.network == "")
    ensures r.Some? && !Truthy(Field(modem, "carrier")) ==> r.value == ModemInfo(Some(0), "", "")
    ensures r.Some? && Truthy(Field(modem, "carrier")) ==>
      Field(modem, "carrier").Str? && Field(modem, "signal").Str? &&
      r.value.signal == ParseInt(Split(Field(modem, "signal").s, ',')[0])
    ensures (Truthy(Field(modem, "carrier")) && Field(modem, "carrier").Str? &&
             Field(modem, "signal").Str?) ==> r.Some?
  {
    match Prop(modem, "carrier")
    case None => None
    case Some(carrier) =>
      if !Truthy(carrier) then Some(ModemInfo(Some(0), "", ""))
      else match (carrier, Field(modem, "signal"))
        case (Str(c), Str(s)) =>
          var values := Split(c, ',');
          var names := if |values| == 2 then (Trim(values[0]), Trim(values[1])) else (c, "");
          Some(ModemInfo(ParseInt(Split(s, ',')[0]), names.0, names.1))
        case _ => None
  }

  /** A carrier `"name, network"` is split into its trimmed halves. */
  lemma ModemCarrierPair(name: string, network: string, signal: string)
    requires name != [] && ',' !in name && ',' !in network
    ensures var modem := Obj(map["carrier" := Str(name + "," + network), "signal" := Str(signal)]);
      GetModemInfo(modem).Some? &&
      GetModemInfo(modem).value.carrier == Trim(name) && GetModemInfo(modem).value.network == Trim(network)
  {
    SplitJoin([name, network], ',');
    assert Join([name, network], ",") == name + "," + network;
  }

  /** A carrier without a comma is kept whole, with no network. */
  lemma ModemCarrierAlone(name: string, signal: string)
    requires name != [] && ',' !in name
    ensures var modem := Obj(map["carrier" := Str(name), "signal" := Str(signal)]);
      GetModemInfo(modem).Some? &&
      GetModemInfo(modem).value.carrier == name && GetModemInfo(modem).value.network == ""
  {
    var modem := Obj(map["carrier" := Str(name), "signal" := Str(signal)]);
    assert Prop(modem, "carrier") == Some(Str(name)) && Field(modem, "signal") == Str(signal);
    assert Truthy(Str(name));
    SplitWithoutSeparator(name, ',');
    assert GetModemInfo(modem) == Some(ModemInfo(ParseInt(Split(signal, ',')[0]), name, ""));
  }

  /** `getHardwareInfo(hardware)`. */
  datatype HardwareInfo = HardwareInfo(usbHubCount: nat, radioCount: nat, systemTime: int)

  /** A radio: vendor `239a` and product `800c`. */
  predicate IsRadio(component: Value)
  {
    LooseEqualsString(Field(component, "vendor"), "239a") &&
    LooseEqualsString(Field(component, "product"), "800c")
  }

  /** The hub test as written: the vendor must be both `0424` and `2514`. */
  predicate IsUsbHubAsWritten(component: Value)
  {
    LooseEqualsString(Field(component, "vendor"), "0424") &&
    LooseEqualsString(Field(component, "vendor"), "2514")
  }

  /** The hub test as evidently intended: vendor `0424` and product `2514`. */
  predicate IsUsbHub(component: Value)
  {
    LooseEqualsString(Field(component, "vendor"), "0424") &&
    LooseEqualsString(Field(component, "product"), "2514")
  }

  /** No value is loosely equal to both `'0424'` and `'2514'`, so the hub
      test as written never passes. */
  lemma UsbHubNeverMatches(component: Value)
    ensures !IsUsbHubAsWritten(component)
  {
    var vendor := Field(component, "vendor");
    assert "0424" != "2514" by {
      assert "0424"[0] != "2514"[0];
    }
    match vendor
    case Bool(_) =>
      NumberOfHubVendor();
      NumberOfHubProduct();
    case Int(_) =>
      NumberOfHubVendor();
      NumberOfHubProduct();
    case _ =>
  }

  /** The vendor ids as numbers: `Number('0424')` is 424 and
      `Number('2514')` is 2514. */
  lemma NumberOfHubVendor()
    ensures StringToInteger("0424") == Some(424)
  {
    ValueOfFourDigits("0424", 0, 4, 2, 4);
    StringToIntegerOfDigits("0424");
  }

  lemma NumberOfHubProduct()
    ensures StringToInteger("2514") == Some(2514)
  {
    ValueOfFourDigits("2514", 2, 5, 1, 4);
    StringToIntegerOfDigits("2514");
  }

  lemma ValueOfFourDigits(s: string, a: nat, b: nat, c: nat, d: nat)
    requires |s| == 4 && a < 10 && b < 10 && c < 10 && d < 10
    requires DigitValue(s[0]) == a && DigitValue(s[1]) == b && DigitValue(s[2]) == c && DigitValue(s[3]) == d
    ensures DigitsValue(s, 10) == ((a * 10 + b) * 10 + c) * 10 + d
  {
    assert DigitsValue(s[..1], 10) == a by { assert s[..1][..0] == []; }
    assert DigitsValue(s[..2], 10) == a * 10 + b by { assert s[..2][..1] == s[..1]; }
    assert DigitsValue(s[..3], 10) == (a * 10 + b) * 10 + c by { assert s[..3][..2] == s[..2]; }
    assert s[..4] == s;
  }

  /** How many components pass `test`; `None` when one of them is missing. */
  function CountWhere(components: seq<Value>, test: Value -> bool): (r: Option<nat>)
    ensures r.Some? ==> r.value <= |components|
    decreases |components|
  {
    if components == [] then Some(0)
    else if components[0].Undefined? || components[0].Null? then None
    else match CountWhere(components[1..], test)
      case None => None
      case Some(n) => Some(if test(components[0]) then n + 1 else n)
  }

  /** With no component passing the hub test as written, the hub count is
      always 0. */
  lemma {:induction false} UsbHubCountAsWrittenIsZero(components: seq<Value>)
    requires CountWhere(components, IsUsbHubAsWritten).Some?
    ensures CountWhere(components, IsUsbHubAsWritten) == Some(0)
    decreases |components|
  {
    if components != [] {
      UsbHubNeverMatches(components[0]);
      UsbHubCountAsWrittenIsZero(components[1..]);
    }
  }

  /** The `forEach` over the components, counting those that pass each of
      two tests; `None` when a component is missing (a TypeError). */
  method CountComponents(components: seq<Value>, radio: Value -> bool, hub: Value -> bool)
    returns (r: Option<(nat, nat)>)
    ensures r.Some? <==> CountWhere(components, radio).Some?
    ensures r.Some? ==> Some(r.value.0) == CountWhere(components, radio) && Some(r.value.1) == CountWhere(components, hub)
  {
    var usbHubCount, radioCount := 0, 0;
    var i := 0;
    while i < |components|
      invariant 0 <= i <= |components|
      invariant CountWhere(components[..i], radio) == Some(radioCount)
      invariant CountWhere(components[..i], hub) == Some(usbHubCount)
    {
      var component := components[i];
      if component.Undefined? || component.Null? {
        CountWhereNone(components, i, radio);
        return None;
      }
      CountWhereStep(components, i, radio);
      CountWhereStep(components, i, hub);
      if radio(component) {
        radioCount := radioCount + 1;
      }
      if hub(component) {
        usbHubCount := usbHubCount + 1;
      }
      i := i + 1;
    }
    assert components[..i] == components;
    CountWhereSame(components, radio, hub);
    r := Some((radioCount, usbHubCount));
  }

  /** `getHardwareInfo(hardware)` as written, at the current time `nowMs`:
      the radios counted, and the hub count from the test as written, which
      is always 0. */
  method GetHardwareInfo(hardware: Value, nowMs: int) returns (r: Result<HardwareInfo, string>)
    ensures r.Success? <==> (Field(hardware, "info").Arr? &&
                             CountWhere(Field(hardware, "info").items, IsRadio).Some?)
    ensures r.Success? ==>
      var info := Field(hardware, "info").items;
      Some(r.value.radioCount) == CountWhere(info, IsRadio) &&
      r.value.usbHubCount == 0 && r.value.systemTime == nowMs
  {
    var info := Prop(hardware, "info");
    if info.None? || !info.value.Arr? {
      return Failure("TypeError");
    }
    var counts := CountComponents(info.value.items, IsRadio, IsUsbHubAsWritten);
    if counts.None? {
      return Failure("TypeError");
    }
    UsbHubCountAsWrittenIsZero(info.value.items);
    r := Success(HardwareInfo(counts.value.1, counts.value.0, nowMs));
  }

  /** `getHardwareInfo(hardware)` as evidently intended: hubs are counted by
      vendor and product. */
  method GetHardwareInfoCorrected(hardware: Value, nowMs: int) returns (r: Result<HardwareInfo, string>)
    ensures r.Success? <==> (Field(hardware, "info").Arr? &&
                             CountWhere(Field(hardware, "info").items, IsRadio).Some?)
    ensures r.Success? ==>
      var info := Field(hardware, "info").items;
      Some(r.value.radioCount) == CountWhere(info, IsRadio) &&
      Some(r.value.usbHubCount) == CountWhere(info, IsUsbHub) && r.value.systemTime == nowMs
  {
    var info := Prop(hardware, "info");
    if info.None? || !info.value.Arr? {
      return Failure("TypeError");
    }
    var counts := CountComponents(info.value.items, IsRadio, IsUsbHub);
    if counts.None? {
      return Failure("TypeError");
    }
    r := Success(HardwareInfo(counts.value.1, counts.value.0, nowMs));
  }

  /** Counting one more component that is present adds its verdict. */
  lemma {:induction false} CountWhereStep(components: seq<Value>, i: nat, test: Value -> bool)
    requires i < |components| && CountWhere(components[..i], test).Some?
    requires !components[i].Undefined? && !components[i].Null?
    ensures CountWhere(components[..i + 1], test) ==
      Some(CountWhere(components[..i], test).value + if test(components[i]) then 1 else 0)
    decreases i
  {
    var a, x := components[..i], components[i];
    assert components[..i + 1] == a + [x];
    CountWhereSnoc(a, x, test);
  }

  lemma {:induction false} CountWhereSnoc(a: seq<Value>, x: Value, test: Value -> bool)
    requires CountWhere(a, test).Some? && !x.Undefined? && !x.Null?
    ensures CountWhere(a + [x], test) == Some(CountWhere(a, test).value + if test(x) then 1 else 0)
    decreases |a|
  {
    if a == [] {
      assert [] + [x] == [x];
      assert [x][1..] == [];
    } else {
      assert (a + [x])[1..] == a[1..] + [x];
      CountWhereSnoc(a[1..], x, test);
    }
  }

  /** The count throws exactly when a component is missing. */
  lemma {:induction false} CountWhereNone(components: seq<Value>, i: nat, test: Value -> bool)
    requires i < |components| && (components[i].Undefined? || components[i].Null?)
    ensures CountWhere(components, test).None?
    decreases i
  {
    if i > 0 && !components[0].Undefined? && !components[0].Null? {
      assert components[1..][i - 1] == components[i];
      CountWhereNone(components[1..], i - 1, test);
    }
  }

  /** Whether the count throws does not depend on the test. */
  lemma {:induction false} CountWhereSame(components: seq<Value>, t1: Value -> bool, t2: Value -> bool)
    ensures CountWhere(components, t1).Some? <==> CountWhere(components, t2).Some?
    decreases |components|
  {
    if components != [] {
      CountWhereSame(components[1..], t1, t2);
    }
  }
}
