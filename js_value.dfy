/** The JavaScript values that flow through the station code: parsed JSON
    from the radios and the hardware server, and the fields of CSV rows.
    Numbers are split in two: integer-valued numbers, and all other numbers,
    which the model carries only by the text JavaScript prints for them. */
module JsValue {
  import opened Wrappers
  import opened Text

  datatype Value =
    | Undefined
    | Null
    | Bool(b: bool)
    | Int(i: int)
    | Float(text: string)
    | Str(s: string)
    | Arr(items: seq<Value>)
    | Obj(fields: map<string, Value>)

  /** What a formatter's `formatRecord` gives back: an array of fields,
      `undefined` (no row), or nothing because it threw. */
  datatype Formatted = Fields(row: seq<Value>) | NoRow | Thrown

  /** JavaScript truthiness. A non-integer number is never 0, so it is
      truthy unless it is NaN. */
  predicate Truthy(v: Value)
  {
    match v
    case Undefined => false
    case Null => false
    case Bool(b) => b
    case Int(i) => i != 0
    case Float(t) => t != "NaN"
    case Str(s) => s != ""
    case Arr(_) => true
    case Obj(_) => true
  }

  /** How `Array.prototype.join` prints one element: nothing for `null` and
      `undefined`, `String(v)` for everything else. */
  function Render(v: Value): string
    decreases v, 1
  {
    match v
    case Undefined => ""
    case Null => ""
    case Bool(b) => if b then "true" else "false"
    case Int(i) => IntToString(i)
    case Float(t) => t
    case Str(s) => s
    case Arr(items) => Join(RenderAll(items, v), ",")
    case Obj(_) => "[object Object]"
  }

  /** Every element of `vs` rendered; `parent` only bounds the recursion. */
  function RenderAll(vs: seq<Value>, ghost parent: Value): (r: seq<string>)
    requires forall k :: 0 <= k < |vs| ==> vs[k] < parent
    ensures |r| == |vs|
    decreases parent, 0, |vs|
  {
    if vs == [] then [] else [Render(vs[0])] + RenderAll(vs[1..], parent)
  }

  /** `String(v)`, as a template literal or a property key prints `v`. */
  function ToJsString(v: Value): (r: string)
    ensures !v.Undefined? && !v.Null? ==> r == Render(v)
  {
    match v
    case Undefined => "undefined"
    case Null => "null"
    case _ => Render(v)
  }

  /** One CSV line: the fields rendered and joined with commas. */
  function CsvLine(fields: seq<Value>): string
  {
    Render(Arr(fields))
  }

  /** `v[key]`: `None` when `v` is `null` or `undefined` (a TypeError is
      thrown); a missing property reads as `undefined`. The properties of
      primitive values (such as a string's `length`) are not modelled. */
  function Prop(v: Value, key: string): (r: Option<Value>)
    ensures r.None? <==> v.Undefined? || v.Null?
    ensures v.Obj? && key in v.fields ==> r == Some(v.fields[key])
  {
    match v
    case Undefined => None
    case Null => None
    case Obj(m) => Some(if key in m then m[key] else Undefined)
    case _ => Some(Undefined)
  }

  /** `v[key]` where `v` is known to be present; `undefined` otherwise, so
      that contracts can name a property before the TypeError case is
      excluded. */
  function Field(v: Value, key: string): (r: Value)
    ensures Prop(v, key).Some? ==> r == Prop(v, key).value
  {
    match Prop(v, key)
    case None => Undefined
    case Some(w) => w
  }

  /** `v.k1.k2...`: `None` as soon as a step reads a property of `null` or
      `undefined`. */
  function Path(v: Value, keys: seq<string>): Option<Value>
    decreases |keys|
  {
    if keys == [] then Some(v)
    else match Prop(v, keys[0])
      case None => None
      case Some(w) => Path(w, keys[1..])
  }

  /** The object with `key` set to `w`, as `o[key] = w` does. */
  function SetProp(fields: map<string, Value>, key: string, w: Value): (r: map<string, Value>)
    ensures key in r && r[key] == w
    ensures forall k :: k in fields && k != key ==> k in r && r[k] == fields[k]
    ensures r.Keys == fields.Keys + {key}
  {
    fields[key := w]
  }

  /** `Number(s)` for strings that spell an integer in decimal, after
      trimming; the empty string converts to 0. `None` stands for every other
      string: NaN, and also the other numeric spellings (`"3.0"`, `"0x3"`,
      `"3e0"`), which are not modelled. */
  function StringToInteger(s: string): (r: Option<int>)
  {
    IntegerOfTrimmed(Trim(s))
  }

  /** The conversion once the white space is trimmed off: an optional sign
      and then the digits. */
  function IntegerOfTrimmed(t: string): (r: Option<int>)
  {
    if t == "" then Some(0)
    else if t[0] == '-' then
      match UnsignedValue(t[1..]) case None => None case Some(n) => Some(-(n as int))
    else if t[0] == '+' then UnsignedValue(t[1..])
    else UnsignedValue(t)
  }

  /** The value of at least one decimal digit and nothing else. */
  function UnsignedValue(u: string): (r: Option<nat>)
  {
    if u != [] && DigitRun(u, 10) == |u| then Some(DigitsValue(u, 10)) else None
  }

  /** `v == n` for a number `n`, with JavaScript's loose equality: a string or
      an array is first converted to a number, a boolean counts as 0 or 1,
      `null`, `undefined` and plain objects never equal a number. */
  predicate LooseEqualsInt(v: Value, n: int)
  {
    match v
    case Int(i) => i == n
    case Bool(b) => (if b then 1 else 0) == n
    case Str(s) => StringToInteger(s) == Some(n)
    case Arr(_) => StringToInteger(Render(v)) == Some(n)
    case _ => false
  }

  /** `v > 0`: the value is converted to a number first. `undefined`, NaN
      and plain objects compare false, `null` counts as 0 and a boolean as 0
      or 1. Strings and arrays go through `Number()` of their text. A
      non-integer number is positive unless it is NaN or printed with a
      minus sign. */
  predicate GreaterThanZero(v: Value)
  {
    match v
    case Undefined => false
    case Null => false
    case Bool(b) => b
    case Int(i) => i > 0
    case Float(t) => t != "NaN" && (t == [] || t[0] != '-')
    case Str(s) => (match StringToInteger(s) case None => false case Some(n) => n > 0)
    case Arr(_) => (match StringToInteger(Render(v)) case None => false case Some(n) => n > 0)
    case Obj(_) => false
  }

  /** Comparing an integer with 0 gives the same answer whether the integer
      is given as a number or as its decimal text. */
  lemma GreaterThanZeroOfText(i: int)
    ensures GreaterThanZero(Str(IntToString(i))) <==> GreaterThanZero(Int(i))
  {
    StringToIntegerOfIntToString(i);
  }

  /** `v == s` for a string `s`, with loose equality: strings compare as
      strings, numbers and booleans compare with `Number(s)`, arrays and
      objects with the string they convert to; `null` and `undefined` equal
      no string. A non-integer number is compared by its printed text, so
      other spellings of it (`"1.50"` for 1.5) are not modelled. */
  predicate LooseEqualsString(v: Value, s: string)
  {
    match v
    case Undefined => false
    case Null => false
    case Bool(b) => StringToInteger(s) == Some(if b then 1 else 0)
    case Int(i) => StringToInteger(s) == Some(i)
    case Float(t) => t == s
    case Str(t) => t == s
    case _ => Render(v) == s
  }

  /** A string of decimal digits converts to their positional value. */
  lemma StringToIntegerOfDigits(s: string)
    requires s != [] && forall k :: 0 <= k < |s| ==> DigitValue(s[k]) < 10
    ensures StringToInteger(s) == Some(DigitsValue(s, 10))
  {
    TrimOfDigits(s);
    DigitRunOfDigits(s, 10);
    DigitFacts(s[0]);
    assert IntegerOfTrimmed(s) == Some(DigitsValue(s, 10));
  }

  /** A minus sign followed by decimal digits converts to the negated value. */
  lemma StringToIntegerOfNegativeDigits(t: string)
    requires |t| >= 2 && t[0] == '-' && forall k :: 1 <= k < |t| ==> DigitValue(t[k]) < 10
    ensures StringToInteger(t) == Some(-(DigitsValue(t[1..], 10) as int))
  {
    DigitFacts(t[|t| - 1]);
    TrimOfTrimmed(t);
    var ds := t[1..];
    assert forall k :: 0 <= k < |ds| ==> DigitValue(ds[k]) < 10 by {
      forall k | 0 <= k < |ds| ensures DigitValue(ds[k]) < 10 {
        assert ds[k] == t[k + 1];
      }
    }
    DigitRunOfDigits(ds, 10);
    NegativeOfTrimmed(t);
  }

  lemma NegativeOfTrimmed(t: string)
    requires |t| >= 2 && t[0] == '-' && DigitRun(t[1..], 10) == |t| - 1
    ensures IntegerOfTrimmed(t) == Some(-(DigitsValue(t[1..], 10) as int))
  {
  }

  /** The decimal text of an integer converts back to that integer. */
  lemma {:induction false} StringToIntegerOfIntToString(i: int)
    ensures StringToInteger(IntToString(i)) == Some(i)
  {
    var n: nat := if i < 0 then -i else i;
    var ds := NatToString(n);
    NatToStringValue(n);
    if i < 0 {
      var t := IntToString(i);
      assert t[1..] == ds;
      assert forall k :: 1 <= k < |t| ==> DigitValue(t[k]) < 10 by {
        forall k | 1 <= k < |t| ensures DigitValue(t[k]) < 10 {
          assert t[k] == ds[k - 1];
        }
      }
      StringToIntegerOfNegativeDigits(t);
    } else {
      StringToIntegerOfDigits(ds);
    }
  }

  /** A number and its decimal text are loosely equal, as `3 == "3"` is. */
  lemma LooseEqualsIntOfString(i: int)
    ensures LooseEqualsInt(Str(IntToString(i)), i)
    ensures LooseEqualsInt(Int(i), i)
  {
    StringToIntegerOfIntToString(i);
  }

  /** `battery_mv / 1000` for an integer number of millivolts: an integer when
      it divides evenly, otherwise the decimal text JavaScript prints (up to
      three fraction digits, trailing zeros dropped). */
  function Thousandths(mv: int): (r: Value)
    ensures mv % 1000 == 0 ==> r == Int(mv / 1000)
    ensures mv % 1000 != 0 ==> r.Float?
  {
    if mv % 1000 == 0 then Int(mv / 1000)
    else
      var n: nat := if mv < 0 then -mv else mv;
      var whole := NatToString(n / 1000);
      var frac := FractionDigits(n % 1000);
      Float((if mv < 0 then "-" else "") + whole + "." + frac)
  }

  /** The digits after the point of `f / 1000`, for `0 < f < 1000`, without
      trailing zeros. */
  function FractionDigits(f: nat): (r: string)
    requires 0 < f < 1000
    ensures 1 <= |r| <= 3
  {
    var d1, d2, d3 := f / 100, f / 10 % 10, f % 10;
    if d3 != 0 then [DigitChar(d1), DigitChar(d2), DigitChar(d3)]
    else if d2 != 0 then [DigitChar(d1), DigitChar(d2)]
    else [DigitChar(d1)]
  }
}
