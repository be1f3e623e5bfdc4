/** The CSV row format of GPS files: the time of recording, the time of the
    fix, latitude and longitude at a fixed number of decimals, altitude and
    fix quality. */
module GpsFormatter {
  import opened Wrappers
  import opened Text
  import opened JsValue
  import opened Env

  const Header: seq<string> := ["recorded at", "gps at", "latitude", "longitude", "altitude", "quality"]

  /** `opts.gps_precision ? opts.gps_precision : 6`, for an integer option
      (`None` when it is absent). */
  function Precision(option: Option<int>): (p: int)
    ensures option.None? || option == Some(0) ==> p == 6
    ensures option.Some? && option.value != 0 ==> p == option.value
  {
    if option.Some? && option.value != 0 then option.value else 6
  }

  /** `digits` zeros. */
  function Zeros(digits: nat): (r: string)
    ensures |r| == digits && forall k :: 0 <= k < |r| ==> r[k] == '0'
  {
    if digits == 0 then "" else Zeros(digits - 1) + "0"
  }

  /** `x.toFixed(digits)`: a RangeError outside 0..100, a TypeError for a
      value that is not a number, the integer followed by `digits` zeros after
      the point for an integer, and the environment's rounding for any other
      number. */
  function ToFixed(x: Value, digits: int, clock: Clock): (r: Option<string>)
    ensures r.Some? <==> (x.Int? || x.Float?) && 0 <= digits <= 100
  {
    if !(0 <= digits <= 100) then None
    else match x
      case Int(i) => Some(if digits == 0 then IntToString(i) else IntToString(i) + "." + Zeros(digits))
      case Float(t) => Some(clock.floatToFixed(t, digits))
      case _ => None
  }

  /** An integer prints as its decimal text and, when digits are asked for,
      a point followed by that many zeros. */
  lemma ToFixedOfInt(i: int, digits: int, clock: Clock)
    requires 0 <= digits <= 100
    ensures var r := ToFixed(Int(i), digits, clock).value;
      var t := IntToString(i);
      (digits == 0 ==> r == t) &&
      (digits > 0 ==> |r| == |t| + 1 + digits && r[..|t|] == t && r[|t|] == '.' &&
                      forall k :: |t| < k < |r| ==> r[k] == '0')
  {
    var t := IntToString(i);
    if digits > 0 {
      var r := t + "." + Zeros(digits);
      assert r[..|t|] == t;
      forall k | |t| < k < |r| ensures r[k] == '0' {
        assert r[k] == Zeros(digits)[k - |t| - 1];
      }
    }
  }

  /** `formatRecord(record)`: a falsy record gives the time followed by five
      nulls; otherwise the six columns, and a throw when `lat` or `lon` cannot
      be printed with `toFixed`. */
  function FormatRecord(record: Value, precision: int, clock: Clock): (r: Formatted)
    ensures !r.NoRow?
    ensures r.Fields? ==> |r.row| == |Header| && r.row[0] == Str(Now(clock))
    ensures !Truthy(record) ==> r == Fields([Str(Now(clock)), Null, Null, Null, Null, Null])
  {
    var now := Str(Now(clock));
    if !Truthy(record) then Fields([now, Null, Null, Null, Null, Null])
    else
      var time := Prop(record, "time").value;
      var lat := ToFixed(Prop(record, "lat").value, precision, clock);
      var lon := ToFixed(Prop(record, "lon").value, precision, clock);
      if lat.None? || lon.None? then Thrown
      else Fields([now, Str(clock.format(time)), Str(lat.value), Str(lon.value),
                   Prop(record, "alt").value, Prop(record, "mode").value])
  }

  /** A present record gives a row exactly when its latitude and longitude are
      numbers and the precision is one `toFixed` accepts; the row then holds
      the fix time, the two coordinates, the altitude and the mode. */
  lemma FormatRecordPresent(record: Value, precision: int, clock: Clock)
    requires Truthy(record)
    ensures var r := FormatRecord(record, precision, clock);
      var lat, lon := Prop(record, "lat").value, Prop(record, "lon").value;
      && (r.Fields? <==> (lat.Int? || lat.Float?) && (lon.Int? || lon.Float?) && 0 <= precision <= 100)
      && (r.Fields? ==>
           r.row[1] == Str(clock.format(Prop(record, "time").value)) &&
           r.row[2] == Str(ToFixed(lat, precision, clock).value) &&
           r.row[3] == Str(ToFixed(lon, precision, clock).value) &&
           Some(r.row[4]) == Prop(record, "alt") && Some(r.row[5]) == Prop(record, "mode"))
  {
    FormatRecordTruthy(record, precision, clock);
    var lat := ToFixed(Prop(record, "lat").value, precision, clock);
    var lon := ToFixed(Prop(record, "lon").value, precision, clock);
    if lat.Some? && lon.Some? {
      assert FormatRecord(record, precision, clock).Fields?;
    } else {
      assert FormatRecord(record, precision, clock) == Thrown;
    }
  }

  lemma FormatRecordTruthy(record: Value, precision: int, clock: Clock)
    requires Truthy(record)
    ensures var lat, lon := ToFixed(Prop(record, "lat").value, precision, clock),
                            ToFixed(Prop(record, "lon").value, precision, clock);
      FormatRecord(record, precision, clock) ==
        if lat.None? || lon.None? then Thrown
        else Fields([Str(Now(clock)), Str(clock.format(Prop(record, "time").value)), Str(lat.value),
                     Str(lon.value), Prop(record, "alt").value, Prop(record, "mode").value])
  {
  }
}
