/** The discipline every CSV writer of the station follows: drain a cache
    first-in first-out into lines, stop at the first entry that cannot be
    printed (the JavaScript code throws there), and, when there is something
    to write, append the lines with one terminator after each, preceded by
    the header when the file does not exist yet. */
module CsvFlush {
  import opened Wrappers
  import opened Text
  import FileSystem

  /** The outcome of the drain loop: the lines printed, what is still queued
      when it stopped, and whether it stopped because an entry threw. */
  datatype Drained<T> = Drained(lines: seq<string>, rest: seq<T>, failed: bool)

  /** The `while (cache.length > 0) { entry = cache.shift(); lines.push(...) }`
      loop, where `line` gives `None` for an entry whose printing throws. */
  function Drain<T>(cache: seq<T>, line: T -> Option<string>): (d: Drained<T>)
    ensures |d.lines| <= |cache|
    ensures !d.failed ==> d.rest == [] && |d.lines| == |cache|
    decreases |cache|
  {
    if cache == [] then Drained([], [], false)
    else match line(cache[0])
      case None => Drained([], cache[1..], true)
      case Some(l) =>
        var d := Drain(cache[1..], line);
        Drained([l] + d.lines, d.rest, d.failed)
  }

  /** Line `k` of a drain is what entry `k` of the cache prints. */
  lemma {:induction false} DrainLines<T>(cache: seq<T>, line: T -> Option<string>)
    ensures forall k :: 0 <= k < |Drain(cache, line).lines| ==>
      line(cache[k]) == Some(Drain(cache, line).lines[k])
    decreases |cache|
  {
    if cache != [] && line(cache[0]).Some? {
      DrainLines(cache[1..], line);
      var d, t := Drain(cache, line), Drain(cache[1..], line);
      forall k | 0 <= k < |d.lines| ensures line(cache[k]) == Some(d.lines[k]) {
        if k > 0 {
          assert d.lines[k] == t.lines[k - 1];
          assert cache[k] == cache[1..][k - 1];
        }
      }
    }
  }

  /** A drain that throws stops at the first entry that cannot be printed:
      that entry is gone, and everything after it stays queued. */
  lemma {:induction false} DrainStopsAtFailure<T>(cache: seq<T>, line: T -> Option<string>)
    requires Drain(cache, line).failed
    ensures var n := |Drain(cache, line).lines|;
      n < |cache| && line(cache[n]).None? && Drain(cache, line).rest == cache[n + 1..]
    decreases |cache|
  {
    if line(cache[0]).Some? {
      DrainStopsAtFailure(cache[1..], line);
      var n := |Drain(cache[1..], line).lines|;
      assert cache[n + 1] == cache[1..][n];
      assert cache[n + 2..] == cache[1..][n + 1..];
    }
  }

  /** The text appended by a non-empty flush: the header first when the file
      is absent, then every line, each followed by the terminator. */
  function Payload(header: string, lines: seq<string>, term: string, fileExists: bool): string
  {
    Terminated((if fileExists then [] else [header]) + lines, term)
  }

  /** The files after flushing `cache` into the file at `path`, when the
      append, if one is made, succeeds exactly if `succeeds`: nothing is
      written when the drain throws or the cache is empty, and otherwise the
      payload is appended. Only that file can change. */
  function Flushed<T>(files: map<string, string>, path: string, header: string, cache: seq<T>,
                      line: T -> Option<string>, term: string, succeeds: bool): (r: map<string, string>)
    ensures forall p :: p != path ==> (p in r <==> p in files)
    ensures forall p :: p != path && p in files ==> r[p] == files[p]
    ensures path in r ==> path in files || cache != []
  {
    var d := Drain(cache, line);
    if d.failed || cache == [] || !succeeds then files
    else FileSystem.Appended(files, path, Payload(header, d.lines, term, path in files))
  }

  /** `lines.join(term) + term` after the header was unshifted when needed. */
  lemma PayloadIsJoin(header: string, lines: seq<string>, term: string, fileExists: bool)
    requires lines != []
    ensures var all := (if fileExists then [] else [header]) + lines;
      Join(all, term) + term == Payload(header, lines, term, fileExists)
  {
    JoinThenTerminator((if fileExists then [] else [header]) + lines, term);
  }

  /** The drain loop itself: entries are shifted off the front of the cache
      one at a time and printed, until the cache is empty or an entry throws;
      `rest` is what the cache holds when the loop stops. */
  method DrainCache<T>(cache: seq<T>, line: T -> Option<string>) returns (lines: seq<string>, rest: seq<T>, failed: bool)
    ensures Drained(lines, rest, failed) == Drain(cache, line)
  {
    lines, rest, failed := [], cache, false;
    while |rest| > 0 && !failed
      invariant !failed ==> (var d := Drain(rest, line);
        Drain(cache, line) == Drained(lines + d.lines, d.rest, d.failed))
      invariant failed ==> Drain(cache, line) == Drained(lines, rest, true)
      decreases |rest|
    {
      var entry := rest[0];
      ghost var before := rest;
      rest := rest[1..];
      assert before == [entry] + rest;
      match line(entry)
      case None =>
        failed := true;
      case Some(l) =>
        DrainCons(entry, rest, line);
        assert lines + [l] + Drain(rest, line).lines == lines + ([l] + Drain(rest, line).lines);
        lines := lines + [l];
    }
  }

  /** The append that ends a non-empty flush: the header is put in front of
      the lines when the file does not exist, everything is joined with the
      terminator, one more terminator is added, and the text is appended. */
  method AppendLines(disk: FileSystem.Disk, path: string, header: string, lines: seq<string>, term: string,
                     succeeds: bool) returns (ok: bool)
    requires lines != []
    modifies disk
    ensures ok == succeeds
    ensures disk.files == if succeeds then FileSystem.Appended(old(disk.files), path,
                                             Payload(header, lines, term, path in old(disk.files)))
                          else old(disk.files)
  {
    var present := disk.Exists(path);
    var all := (if present then [] else [header]) + lines;
    PayloadIsJoin(header, lines, term, present);
    ok := disk.AppendFile(path, Join(all, term) + term, succeeds);
  }

  /** One flush of `cache` into the file at `path`: the drain, then, when it
      did not throw and the cache was not empty, the append. `rest` is what
      stays queued, `failed` whether an entry threw, `appended` whether an
      append was made and `ok` whether it succeeded. */
  method Flush<T>(disk: FileSystem.Disk, path: string, header: string, cache: seq<T>,
                  line: T -> Option<string>, term: string, succeeds: bool)
    returns (rest: seq<T>, failed: bool, appended: bool, ok: bool)
    modifies disk
    ensures disk.files == Flushed(old(disk.files), path, header, cache, line, term, succeeds)
    ensures rest == Drain(cache, line).rest && failed == Drain(cache, line).failed
    ensures appended <==> !failed && cache != []
    ensures ok <==> appended && succeeds
    ensures appended ==>
      disk.files == if succeeds then FileSystem.Appended(old(disk.files), path,
                                       Payload(header, Drain(cache, line).lines, term, path in old(disk.files)))
                    else old(disk.files)
  {
    var lines;
    lines, rest, failed := DrainCache(cache, line);
    appended, ok := false, false;
    if !failed && |lines| > 0 {
      appended := true;
      ok := AppendLines(disk, path, header, lines, term, succeeds);
    }
  }

  /** A cache whose entries all print is drained completely, in order. */
  lemma {:induction false} DrainAllPrintable<T>(cache: seq<T>, line: T -> Option<string>)
    requires forall k :: 0 <= k < |cache| ==> line(cache[k]).Some?
    ensures !Drain(cache, line).failed
    ensures Drain(cache, line).rest == []
    ensures forall k :: 0 <= k < |cache| ==> Drain(cache, line).lines[k] == line(cache[k]).value
  {
    if Drain(cache, line).failed {
      DrainStopsAtFailure(cache, line);
      assert false;
    }
    DrainLines(cache, line);
  }

  /** One printable entry in front of a cache adds its line in front. */
  lemma {:induction false} DrainCons<T>(x: T, c: seq<T>, line: T -> Option<string>)
    requires line(x).Some?
    ensures Drain([x] + c, line) ==
      Drained([line(x).value] + Drain(c, line).lines, Drain(c, line).rest, Drain(c, line).failed)
  {
    assert ([x] + c)[1..] == c;
  }

  lemma {:induction false} DrainAppendStep<T>(x: T, c: seq<T>, b: seq<T>, line: T -> Option<string>)
    requires line(x).Some?
    requires Drain(c + b, line).lines == Drain(c, line).lines + Drain(b, line).lines
    requires Drain(c + b, line).rest == Drain(b, line).rest
    requires Drain(c + b, line).failed == Drain(b, line).failed
    ensures Drain([x] + (c + b), line).lines == Drain([x] + c, line).lines + Drain(b, line).lines
    ensures Drain([x] + (c + b), line).rest == Drain(b, line).rest
    ensures Drain([x] + (c + b), line).failed == Drain(b, line).failed
  {
    DrainCons(x, c, line);
    DrainCons(x, c + b, line);
  }

  /** Entries queued after a drain are printed after the ones queued before:
      draining `a + b` gives `a`'s lines and then `b`'s. */
  lemma {:induction false} DrainAppend<T>(a: seq<T>, b: seq<T>, line: T -> Option<string>)
    requires !Drain(a, line).failed
    ensures Drain(a + b, line).lines == Drain(a, line).lines + Drain(b, line).lines
    ensures Drain(a + b, line).rest == Drain(b, line).rest
    ensures Drain(a + b, line).failed == Drain(b, line).failed
    decreases |a|
  {
    if a == [] {
      assert a + b == b;
    } else {
      var x, c := a[0], a[1..];
      assert a == [x] + c;
      assert line(x).Some? && !Drain(c, line).failed by {
        DrainCons(x, c, line);
      }
      DrainAppend(c, b, line);
      DrainAppendStep(x, c, b, line);
      assert a + b == [x] + (c + b);
    }
  }

  /** Two non-empty flushes into a file that did not exist: the first creates
      it with the header, the second finds it and adds no header, so the file
      holds one header and then every line of both flushes in order. */
  lemma TwoFlushesOneHeader(files: map<string, string>, path: string, header: string,
                            first: seq<string>, second: seq<string>, term: string)
    requires path !in files
    ensures var once := FileSystem.Appended(files, path, Payload(header, first, term, path in files));
      var twice := FileSystem.Appended(once, path, Payload(header, second, term, path in once));
      twice[path] == Terminated([header] + first + second, term)
  {
    var once := FileSystem.Appended(files, path, Payload(header, first, term, false));
    assert path in once;
    assert Payload(header, second, term, true) == Terminated(second, term) by {
      assert [] + second == second;
    }
    TerminatedAppend([header] + first, second, term);
  }
}
