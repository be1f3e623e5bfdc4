/** The payload of the hardware QAQC packet: the USB hub count and the radio
    count in one byte each, then the system time in milliseconds as an
    unsigned 64-bit little-endian integer. */
module HardwarePacket {
  import opened Wrappers

  newtype byte = x: int | 0 <= x < 256

  /** 256 to the power `n`. */
  function Pow256(n: nat): (r: nat)
    ensures r >= 1
  {
    if n == 0 then 1 else 256 * Pow256(n - 1)
  }

  /** The `n` low bytes of `v`, least significant first. */
  function EncodeLe(v: nat, n: nat): (r: seq<byte>)
    ensures |r| == n
  {
    if n == 0 then [] else [(v % 256) as byte] + EncodeLe(v / 256, n - 1)
  }

  /** The number whose little-endian bytes are `s`. */
  function DecodeLe(s: seq<byte>): nat
  {
    if s == [] then 0 else s[0] as nat + 256 * DecodeLe(s[1..])
  }

  /** What `new Uint64LE(ms)` holds: the time modulo 2^64, so that a
      negative time is stored in two's complement. */
  function Uint64(ms: int): (r: nat)
    ensures r < Pow256(8)
  {
    ms % Pow256(8)
  }

  /** Decoding `n` bytes always gives a number below 256^n. */
  lemma {:induction false} DecodeLeBound(s: seq<byte>)
    ensures DecodeLe(s) < Pow256(|s|)
  {
    if s != [] {
      DecodeLeBound(s[1..]);
    }
  }

  /** Decoding the `n` low bytes of `v` gives back `v` when it fits. */
  lemma {:induction false} DecodeEncode(v: nat, n: nat)
    requires v < Pow256(n)
    ensures DecodeLe(EncodeLe(v, n)) == v
  {
    if n > 0 {
      var e := EncodeLe(v, n);
      assert e[1..] == EncodeLe(v / 256, n - 1);
      DecodeEncode(v / 256, n - 1);
    }
  }

  /** Encoding what a byte sequence decodes to gives the same bytes back. */
  lemma {:induction false} EncodeDecode(s: seq<byte>)
    ensures EncodeLe(DecodeLe(s), |s|) == s
  {
    if s != [] {
      var v := DecodeLe(s);
      assert v % 256 == s[0] as nat && v / 256 == DecodeLe(s[1..]);
      EncodeDecode(s[1..]);
    }
  }

  /** The `n + 1` low bytes of `v` are its lowest byte, then the `n` low
      bytes of the rest. */
  lemma EncodeLeStep(v: nat, n: nat)
    ensures EncodeLe(v, n + 1) == [(v % 256) as byte] + EncodeLe(v / 256, n)
  {
  }

  /** The bytes of zero are all zero. */
  lemma {:induction false} EncodeLeZero(n: nat)
    ensures EncodeLe(0, n) == seq(n, _ => 0 as byte)
  {
    if n > 0 {
      EncodeLeZero(n - 1);
      assert [0 as byte] + seq(n - 1, _ => 0 as byte) == seq(n, _ => 0 as byte);
    }
  }

  /** `new Uint64LE(...).toBuffer()`: the eight bytes of `v`, least
      significant first, written into `date`. */
  method WriteUint64Le(date: array<byte>, v: nat)
    requires date.Length == 8
    modifies date
    ensures date[..] == EncodeLe(v, 8)
  {
    var rest := v;
    var i := 0;
    while i < 8
      invariant 0 <= i <= 8
      invariant date[..i] + EncodeLe(rest, 8 - i) == EncodeLe(v, 8)
    {
      EncodeLeStep(rest, 8 - i - 1);
      ghost var prefix := date[..i];
      date[i] := (rest % 256) as byte;
      assert date[..i + 1] == prefix + [(rest % 256) as byte];
      rest := rest / 256;
      i := i + 1;
    }
    assert date[..] == date[..8] + EncodeLe(rest, 0);
  }

  /** `getPayload()`. A count outside 0..255 makes `writeUInt8` throw a
      RangeError. `systemTime` is `None` when the date conversion throws;
      the eight date bytes are then zero. */
  method GetPayload(usbHubCount: int, radioCount: int, systemTime: Option<int>)
    returns (r: Result<seq<byte>, string>)
    ensures r.Failure? <==> !(0 <= usbHubCount < 256 && 0 <= radioCount < 256)
    ensures r.Success? ==>
      |r.value| == 10 && r.value[0] as int == usbHubCount && r.value[1] as int == radioCount &&
      r.value[2..] == EncodeLe(if systemTime.Some? then Uint64(systemTime.value) else 0, 8)
  {
    if !(0 <= usbHubCount < 256 && 0 <= radioCount < 256) {
      return Failure("RangeError");
    }
    var buffer := new byte[2];
    buffer[0] := usbHubCount as byte;
    buffer[1] := radioCount as byte;
    var date := new byte[8](_ => 0);
    if systemTime.Some? {
      WriteUint64Le(date, Uint64(systemTime.value));
    } else {
      EncodeLeZero(8);
      assert date[..] == seq(8, _ => 0 as byte);
    }
    var time := date[..];
    var payload := buffer[..] + time;
    assert payload[2..] == time;
    r := Success(payload);
  }

  /** The date bytes of a payload decode to the time, modulo 2^64, and they
      are the only bytes that do. */
  lemma PayloadTimeRoundTrip(ms: int, date: seq<byte>)
    requires |date| == 8
    ensures DecodeLe(EncodeLe(Uint64(ms), 8)) == Uint64(ms)
    ensures DecodeLe(date) == Uint64(ms) <==> date == EncodeLe(Uint64(ms), 8)
  {
    DecodeEncode(Uint64(ms), 8);
    EncodeDecode(date);
  }
}
