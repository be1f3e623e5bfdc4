/** The string operations of JavaScript and Node that the station code uses:
    `Array.prototype.join`, `String.prototype.split` with a one-character
    separator, `String.prototype.trim`, `parseInt`, the decimal rendering of
    integers, and `path.join` / `path.basename` on plain POSIX paths. */
module Text {
  import opened Wrappers

  // ---------------------------------------------------------------- join

  /** `parts.join(sep)`. */
  function Join(parts: seq<string>, sep: string): string
  {
    if |parts| == 0 then ""
    else if |parts| == 1 then parts[0]
    else parts[0] + sep + Join(parts[1..], sep)
  }

  /** Every line followed by the terminator, in order. */
  function Terminated(lines: seq<string>, term: string): string
  {
    if lines == [] then "" else lines[0] + term + Terminated(lines[1..], term)
  }

  lemma {:induction false} JoinAppend(a: seq<string>, b: seq<string>, sep: string)
    requires |a| > 0 && |b| > 0
    ensures Join(a + b, sep) == Join(a, sep) + sep + Join(b, sep)
  {
    if |a| == 1 {
      assert (a + b)[1..] == b;
    } else {
      assert (a + b)[1..] == a[1..] + b;
      JoinAppend(a[1..], b, sep);
    }
  }

  /** `lines.join(t) + t` puts the terminator after every line, first to last. */
  lemma {:induction false} JoinThenTerminator(lines: seq<string>, term: string)
    requires |lines| > 0
    ensures Join(lines, term) + term == Terminated(lines, term)
  {
    if |lines| > 1 {
      JoinThenTerminator(lines[1..], term);
    }
  }

  lemma {:induction false} TerminatedAppend(a: seq<string>, b: seq<string>, term: string)
    ensures Terminated(a + b, term) == Terminated(a, term) + Terminated(b, term)
  {
    if a != [] {
      assert (a + b)[1..] == a[1..] + b;
      TerminatedAppend(a[1..], b, term);
    } else {
      assert a + b == b;
    }
  }

  // --------------------------------------------------------------- split

  /** `s.split(sep)` for a one-character separator: never empty, and joining
      the parts back with the separator gives `s`. */
  function Split(s: string, sep: char): (parts: seq<string>)
    ensures |parts| >= 1
    ensures Join(parts, [sep]) == s
    ensures forall i :: 0 <= i < |parts| ==> sep !in parts[i]
    decreases |s|
  {
    if |s| == 0 then [""]
    else if s[0] == sep then
      var rest := Split(s[1..], sep);
      assert Join([""] + rest, [sep]) == [sep] + Join(rest, [sep]) by {
        assert ([""] + rest)[1..] == rest;
      }
      [""] + rest
    else
      var rest := Split(s[1..], sep);
      var parts := [[s[0]] + rest[0]] + rest[1..];
      assert Join(parts, [sep]) == [s[0]] + Join(rest, [sep]) by {
        if |rest| > 1 {
          assert parts[1..] == rest[1..];
        }
      }
      assert forall i :: 1 <= i < |parts| ==> parts[i] == rest[i];
      parts
  }

  lemma {:induction false} SplitWithoutSeparator(p: string, sep: char)
    requires sep !in p
    ensures Split(p, sep) == [p]
    decreases |p|
  {
    if |p| > 0 {
      assert sep !in p[1..];
      SplitWithoutSeparator(p[1..], sep);
    }
  }

  lemma {:induction false} SplitAfterPart(p: string, sep: char, t: string)
    requires sep !in p
    ensures Split(p + [sep] + t, sep) == [p] + Split(t, sep)
    decreases |p|
  {
    if |p| == 0 {
      assert (p + [sep] + t)[1..] == t;
    } else {
      assert (p + [sep] + t)[1..] == p[1..] + [sep] + t;
      SplitAfterPart(p[1..], sep, t);
      assert [p[0]] + p[1..] == p;
    }
  }

  /** Splitting a join of separator-free parts gives the parts back. */
  lemma {:induction false} SplitJoin(parts: seq<string>, sep: char)
    requires |parts| >= 1
    requires forall i :: 0 <= i < |parts| ==> sep !in parts[i]
    ensures Split(Join(parts, [sep]), sep) == parts
  {
    if |parts| == 1 {
      SplitWithoutSeparator(parts[0], sep);
    } else {
      SplitJoin(parts[1..], sep);
      SplitAfterPart(parts[0], sep, Join(parts[1..], [sep]));
      assert parts[0] + [sep] + Join(parts[1..], [sep]) == Join(parts, [sep]);
      assert [parts[0]] + parts[1..] == parts;
    }
  }

  // ---------------------------------------------------------------- trim

  /** ECMAScript WhiteSpace and LineTerminator code points: what `trim` removes
      and what `parseInt` skips. */
  predicate IsWhitespace(c: char)
  {
    || c == '\t' || c == '\n' || c == '\U{000B}' || c == '\U{000C}' || c == '\r'
    || c == ' ' || c == '\U{00A0}' || c == '\U{1680}'
    || ('\U{2000}' <= c <= '\U{200A}')
    || c == '\U{2028}' || c == '\U{2029}' || c == '\U{202F}' || c == '\U{205F}'
    || c == '\U{3000}' || c == '\U{FEFF}'
  }

  /** Leading whitespace removed: a suffix of `s`, all of what was dropped is
      whitespace, and the result does not start with whitespace. */
  function TrimStart(s: string): (r: string)
    ensures |r| <= |s| && r == s[|s| - |r|..]
    ensures forall k :: 0 <= k < |s| - |r| ==> IsWhitespace(s[k])
    ensures r == [] || !IsWhitespace(r[0])
    decreases |s|
  {
    if |s| > 0 && IsWhitespace(s[0]) then TrimStart(s[1..]) else s
  }

  /** Trailing whitespace removed: a prefix of `s`, all of what was dropped is
      whitespace, and the result does not end with whitespace. */
  function TrimEnd(s: string): (r: string)
    ensures |r| <= |s| && r == s[..|r|]
    ensures forall k :: |r| <= k < |s| ==> IsWhitespace(s[k])
    ensures r == [] || !IsWhitespace(r[|r| - 1])
    decreases |s|
  {
    if |s| > 0 && IsWhitespace(s[|s| - 1]) then TrimEnd(s[..|s| - 1]) else s
  }

  /** `s.trim()`. */
  function Trim(s: string): (r: string)
    ensures r == [] || (!IsWhitespace(r[0]) && !IsWhitespace(r[|r| - 1]))
  {
    var t := TrimStart(s);
    var r := TrimEnd(t);
    assert r != [] ==> r[0] == t[0];
    r
  }

  lemma TrimOfTrimmed(s: string)
    requires s == [] || (!IsWhitespace(s[0]) && !IsWhitespace(s[|s| - 1]))
    ensures Trim(s) == s
  {
  }

  // ----------------------------------------------- integers and digits

  /** The value of a digit character in radix 36 (0-9, then a/A = 10 ...);
      36 for anything that is not a digit in any radix. */
  function DigitValue(c: char): nat
  {
    if '0' <= c <= '9' then c as int - '0' as int
    else if 'a' <= c <= 'z' then c as int - 'a' as int + 10
    else if 'A' <= c <= 'Z' then c as int - 'A' as int + 10
    else 36
  }

  function DigitChar(d: nat): (c: char)
    requires d < 10
    ensures DigitValue(c) == d
  {
    "0123456789"[d]
  }

  /** Decimal digits of a natural number, as JavaScript prints an integer. */
  function NatToString(n: nat): (s: string)
    ensures |s| >= 1
    ensures forall k :: 0 <= k < |s| ==> DigitValue(s[k]) < 10
    decreases n
  {
    if n < 10 then [DigitChar(n)] else NatToString(n / 10) + [DigitChar(n % 10)]
  }

  /** `String(i)` for an integer-valued number below 10^21 in magnitude. */
  function IntToString(i: int): string
  {
    if i < 0 then "-" + NatToString(-i) else NatToString(i)
  }

  /** Length of the longest prefix of `s` made of digits of the radix. */
  function DigitRun(s: string, radix: nat): (n: nat)
    ensures n <= |s|
    ensures forall k :: 0 <= k < n ==> DigitValue(s[k]) < radix
    ensures n < |s| ==> DigitValue(s[n]) >= radix
    decreases |s|
  {
    if s == [] || DigitValue(s[0]) >= radix then 0 else 1 + DigitRun(s[1..], radix)
  }

  /** Positional value of a digit string, most significant digit first. */
  function DigitsValue(ds: string, radix: nat): nat
    decreases |ds|
  {
    if ds == [] then 0 else DigitsValue(ds[..|ds| - 1], radix) * radix + DigitValue(ds[|ds| - 1])
  }

  /** `parseInt(s)` without a radix argument: leading whitespace skipped, an
      optional sign, a `0x`/`0X` prefix selecting radix 16, then the longest
      run of digits; `None` stands for NaN (no digits at all). */
  function ParseInt(s: string): (r: Option<int>)
  {
    var t := TrimStart(s);
    var sign := if |t| > 0 && t[0] == '-' then -1 else 1;
    var u := if |t| > 0 && (t[0] == '-' || t[0] == '+') then t[1..] else t;
    var hex := |u| >= 2 && u[0] == '0' && (u[1] == 'x' || u[1] == 'X');
    var radix := if hex then 16 else 10;
    var v := if hex then u[2..] else u;
    var n := DigitRun(v, radix);
    if n == 0 then None else Some(sign * DigitsValue(v[..n], radix))
  }

  /** A decimal digit is neither white space nor a sign. */
  lemma DigitFacts(c: char)
    requires DigitValue(c) < 10
    ensures '0' <= c <= '9' && !IsWhitespace(c) && c != '-' && c != '+'
  {
  }

  /** A string that starts and ends with a digit has nothing to trim. */
  lemma TrimOfDigits(s: string)
    requires s != [] && DigitValue(s[0]) < 10 && DigitValue(s[|s| - 1]) < 10
    ensures Trim(s) == s
  {
    DigitFacts(s[0]);
    DigitFacts(s[|s| - 1]);
    TrimOfTrimmed(s);
  }

  lemma {:induction false} NatToStringValue(n: nat)
    ensures DigitsValue(NatToString(n), 10) == n
    decreases n
  {
    if n >= 10 {
      var s := NatToString(n / 10);
      NatToStringValue(n / 10);
      assert (s + [DigitChar(n % 10)])[..|s|] == s;
    }
  }

  lemma {:induction false} DigitRunOfDigits(s: string, radix: nat)
    requires forall k :: 0 <= k < |s| ==> DigitValue(s[k]) < radix
    ensures DigitRun(s, radix) == |s|
    decreases |s|
  {
    if s != [] {
      DigitRunOfDigits(s[1..], radix);
    }
  }

  /** Printing an integer and parsing it back with `parseInt` gives it back. */
  lemma {:induction false} ParseDigits(digits: string)
    requires |digits| >= 1
    requires forall k :: 0 <= k < |digits| ==> DigitValue(digits[k]) < 10
    ensures ParseInt(digits) == Some(DigitsValue(digits, 10))
  {
    assert !IsWhitespace(digits[0]);
    assert TrimStart(digits) == digits;
    assert digits[0] != '-' && digits[0] != '+';
    assert !(|digits| >= 2 && digits[0] == '0' && (digits[1] == 'x' || digits[1] == 'X')) by {
      if |digits| >= 2 {
        assert DigitValue(digits[1]) < 10;
      }
    }
    DigitRunOfDigits(digits, 10);
    assert digits[..|digits|] == digits;
  }

  lemma {:induction false} ParseNegativeDigits(digits: string)
    requires |digits| >= 1
    requires forall k :: 0 <= k < |digits| ==> DigitValue(digits[k]) < 10
    ensures ParseInt("-" + digits) == Some(-(DigitsValue(digits, 10) as int))
  {
    var t := "-" + digits;
    assert !IsWhitespace(t[0]);
    assert TrimStart(t) == t;
    assert t[1..] == digits;
    assert !(|digits| >= 2 && digits[0] == '0' && (digits[1] == 'x' || digits[1] == 'X')) by {
      if |digits| >= 2 {
        assert DigitValue(digits[1]) < 10;
      }
    }
    DigitRunOfDigits(digits, 10);
    assert digits[..|digits|] == digits;
  }

  /** Printing an integer and parsing it back with `parseInt` gives it back. */
  lemma {:induction false} ParseIntOfIntToString(i: int)
    ensures ParseInt(IntToString(i)) == Some(i)
  {
    var n: nat := if i < 0 then -i else i;
    var ds := NatToString(n);
    NatToStringValue(n);
    if i < 0 {
      ParseNegativeDigits(ds);
      assert ParseInt("-" + ds) == Some(-(n as int));
    } else {
      ParseDigits(ds);
      assert ParseInt(ds) == Some(n);
    }
  }

  /** Different integers print differently. */
  lemma IntToStringInjective(i: int, j: int)
    requires IntToString(i) == IntToString(j)
    ensures i == j
  {
    ParseIntOfIntToString(i);
    ParseIntOfIntToString(j);
  }

  // ---------------------------------------------------------------- paths

  /** `path.join(dir, name)` for a directory and a relative name that need no
      normalisation (no `.`/`..` segments, no doubled separators). */
  function PathJoin(dir: string, name: string): (r: string)
    ensures |r| >= |name| && r[|r| - |name|..] == name
  {
    if dir == "" then name
    else if dir[|dir| - 1] == '/' then dir + name
    else dir + "/" + name
  }

  /** The path with its trailing separators removed. */
  function StripTrailingSlashes(p: string): (r: string)
    ensures |r| <= |p| && r == p[..|r|]
    ensures r == [] || r[|r| - 1] != '/'
    decreases |p|
  {
    if |p| > 0 && p[|p| - 1] == '/' then StripTrailingSlashes(p[..|p| - 1]) else p
  }

  /** The part of `p` after its last separator. */
  function LastSegment(p: string): (r: string)
    ensures '/' !in r
    decreases |p|
  {
    if p == [] || p[|p| - 1] == '/' then []
    else LastSegment(p[..|p| - 1]) + [p[|p| - 1]]
  }

  /** The last segment is a suffix of the path, preceded by a separator
      unless it is the whole path. */
  lemma {:induction false} LastSegmentIsSuffix(p: string)
    ensures var r := LastSegment(p);
      |r| <= |p| && r == p[|p| - |r|..] && (|r| < |p| ==> p[|p| - |r| - 1] == '/')
    decreases |p|
  {
    if p != [] && p[|p| - 1] != '/' {
      var q := p[..|p| - 1];
      LastSegmentIsSuffix(q);
      var r := LastSegment(q);
      assert LastSegment(p) == r + [p[|p| - 1]];
      assert q[|q| - |r|..] + [p[|p| - 1]] == p[|p| - |r| - 1..];
    }
  }

  /** `path.basename(p)`: the last segment, ignoring trailing separators. */
  function BaseName(p: string): (r: string)
    ensures '/' !in r
  {
    LastSegment(StripTrailingSlashes(p))
  }

  lemma {:induction false} LastSegmentAfterSeparator(pre: string, name: string)
    requires '/' !in name
    requires pre == [] || pre[|pre| - 1] == '/'
    ensures LastSegment(pre + name) == name
    decreases |name|
  {
    if name == [] {
      assert pre + name == pre;
    } else {
      var init := name[..|name| - 1];
      var last := name[|name| - 1];
      var q := pre + name;
      assert '/' !in init by {
        assert forall k :: 0 <= k < |init| ==> init[k] == name[k];
      }
      assert q[|q| - 1] == last && last != '/';
      assert q[..|q| - 1] == pre + init;
      assert LastSegment(q) == LastSegment(pre + init) + [last];
      LastSegmentAfterSeparator(pre, init);
      assert init + [last] == name;
    }
  }

  /** The base name of a file joined onto a directory is the file's own name. */
  lemma BaseNameOfJoin(dir: string, name: string)
    requires name != [] && '/' !in name
    ensures BaseName(PathJoin(dir, name)) == name
  {
    var p := PathJoin(dir, name);
    assert p[|p| - 1] == name[|name| - 1];
    assert StripTrailingSlashes(p) == p;
    if dir == "" {
      LastSegmentAfterSeparator("", name);
      assert "" + name == name;
    } else if dir[|dir| - 1] == '/' {
      LastSegmentAfterSeparator(dir, name);
    } else {
      LastSegmentAfterSeparator(dir + "/", name);
      assert dir + "/" + name == (dir + "/") + name;
    }
  }
}
