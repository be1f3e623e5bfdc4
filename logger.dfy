/** The buffered CSV logger: formatted rows are queued in memory by
    `addRecord` and appended to the logger's file by `writeCacheToDisk`. */
module Logging {
  import opened Wrappers
  import opened Text
  import opened JsValue
  import opened Env
  import opened CsvFlush
  import FileManager
  import FileSystem
  import BeepFormatter
  import GpsFormatter

  /** The formatter a logger was given: the beep format, or the GPS format
      with its number of decimals. */
  datatype Formatter = BeepFormat | GpsFormat(precision: int)

  /** `formatter.header`. */
  function HeaderOf(f: Formatter): seq<string>
  {
    match f
    case BeepFormat => BeepFormatter.Header
    case GpsFormat(_) => GpsFormatter.Header
  }

  /** `formatter.formatRecord(record)` at the clock's current time. */
  function Format(f: Formatter, record: Value, clock: Clock): (r: Formatted)
    ensures r.Fields? ==> |r.row| == |HeaderOf(f)|
  {
    match f
    case BeepFormat => BeepFormatter.FormatRecord(record, Now(clock))
    case GpsFormat(p) => GpsFormatter.FormatRecord(record, p, clock)
  }

  /** The line terminator: the `line_terminator` option when it is truthy,
      `\r\n` otherwise. */
  function LineTerminator(option: Value): (t: string)
    ensures !Truthy(option) ==> t == "\r\n"
    ensures Truthy(option) ==> t == Render(option)
  {
    if Truthy(option) then Render(option) else "\r\n"
  }

  /** The file path a logger computes from its options object: the template
      `CTT-${id}-${suffix}.csv` joined to `base_path`. `None` when `base_path`
      is not a string, because the path join then throws. */
  function FileUriOf(opts: Value): (r: Option<string>)
    requires opts.Obj?
    ensures r.Some? <==> Prop(opts, "base_path").value.Str?
  {
    var id := ToJsString(Prop(opts, "id").value);
    var suffix := ToJsString(Prop(opts, "suffix").value);
    match Prop(opts, "base_path").value
    case Str(base) => Some(PathJoin(base, FileManager.FileName(id, suffix)))
    case _ => None
  }

  /** With string options, the path is the file name `CTT-{id}-{suffix}.csv`
      inside `base_path`. */
  lemma FileUriOfStrings(id: string, basePath: string, suffix: string)
    ensures FileUriOf(Obj(map["id" := Str(id), "base_path" := Str(basePath), "suffix" := Str(suffix)]))
      == Some(PathJoin(basePath, FileManager.FileName(id, suffix)))
  {
    var opts := Obj(map["id" := Str(id), "base_path" := Str(basePath), "suffix" := Str(suffix)]);
    assert Prop(opts, "id") == Some(Str(id)) && Prop(opts, "suffix") == Some(Str(suffix));
    assert Prop(opts, "base_path") == Some(Str(basePath));
  }

  /** How a cached row prints: its fields joined with commas; `None` for an
      undefined row, whose `join` throws a TypeError. */
  function RowLine(row: Option<seq<Value>>): (r: Option<string>)
    ensures r.Some? <==> row.Some?
    ensures row.Some? ==> r.value == CsvLine(row.value)
  {
    if row.None? then None else Some(CsvLine(row.value))
  }

  /** A cache without undefined rows is flushed entirely: line `k` of the
      flush is row `k` printed, so rows reach the file in the order they were
      added. */
  lemma FlushedInOrder(cache: seq<Option<seq<Value>>>)
    requires forall k :: 0 <= k < |cache| ==> cache[k].Some?
    ensures !Drain(cache, RowLine).failed && Drain(cache, RowLine).rest == []
    ensures |Drain(cache, RowLine).lines| == |cache|
    ensures forall k :: 0 <= k < |cache| ==> Drain(cache, RowLine).lines[k] == CsvLine(cache[k].value)
  {
    DrainAllPrintable(cache, RowLine);
  }

  class Logger {
    const id: string
    const basePath: string
    const suffix: string
    const formatter: Formatter
    const lineTerminator: string
    const filename: string
    const fileUri: string
    /** `record_cache`: every formatted row not yet written, oldest first;
        `None` is a row the formatter left undefined. */
    var recordCache: seq<Option<seq<Value>>>

    constructor (id: string, basePath: string, suffix: string, formatter: Formatter, lineTerminatorOption: Value)
      ensures this.id == id && this.basePath == basePath && this.suffix == suffix
      ensures this.formatter == formatter
      ensures lineTerminator == LineTerminator(lineTerminatorOption)
      ensures filename == FileManager.FileName(id, suffix)
      ensures fileUri == PathJoin(basePath, filename)
      ensures recordCache == []
    {
      this.id := id;
      this.basePath := basePath;
      this.suffix := suffix;
      this.formatter := formatter;
      lineTerminator := LineTerminator(lineTerminatorOption);
      filename := FileManager.FileName(id, suffix);
      fileUri := PathJoin(basePath, FileManager.FileName(id, suffix));
      recordCache := [];
    }

    /** The disk after a flush of `cache` from `files`, when the append, if one
        is made, succeeds exactly if `succeeds`: only this logger's file can
        change, and only by the flush's payload. */
    function FilesAfterFlush(files: map<string, string>, cache: seq<Option<seq<Value>>>, succeeds: bool): (r: map<string, string>)
      ensures forall p :: p != fileUri ==> (p in r <==> p in files)
      ensures forall p :: p != fileUri && p in files ==> r[p] == files[p]
      ensures fileUri in r ==> fileUri in files || cache != []
    {
      Flushed(files, fileUri, Join(HeaderOf(formatter), ","), cache, RowLine, lineTerminator, succeeds)
    }

    /** `addRecord(record)`: the formatted row goes to the end of the cache and
        the earlier rows stay as they were. When the formatter throws, `ok` is
        false and nothing is queued. */
    method AddRecord(record: Value, clock: Clock) returns (ok: bool)
      modifies this
      ensures var f := Format(formatter, record, clock);
        ok == !f.Thrown? &&
        recordCache == if ok then old(recordCache) + [if f.Fields? then Some(f.row) else None]
                       else old(recordCache)
    {
      var f := Format(formatter, record, clock);
      if f.Thrown? {
        return false;
      }
      recordCache := recordCache + [if f.Fields? then Some(f.row) else None];
      ok := true;
    }

    /** `writeCacheToDisk()`. The cache is drained first, oldest row first.
        An undefined row throws: the promise rejects, the rows before it are
        lost, the rows after it stay queued and nothing is written. Otherwise
        the cache is left empty; an empty cache resolves without touching the
        disk, and a non-empty one appends the payload (the header first when
        the file is absent) and settles as the append does. */
    method WriteCacheToDisk(disk: FileSystem.Disk, appendSucceeds: bool) returns (s: Settlement)
      modifies this, disk
      ensures disk.files == FilesAfterFlush(old(disk.files), old(recordCache), appendSucceeds)
      ensures var d := Drain(old(recordCache), RowLine);
        recordCache == d.rest &&
        (d.failed ==> s == Rejected("TypeError") && disk.files == old(disk.files)) &&
        (!d.failed && old(recordCache) == [] ==> s == Resolved && disk.files == old(disk.files)) &&
        (!d.failed && old(recordCache) != [] ==>
          var text := Payload(Join(HeaderOf(formatter), ","), d.lines, lineTerminator, fileUri in old(disk.files));
          disk.files == (if appendSucceeds then FileSystem.Appended(old(disk.files), fileUri, text) else old(disk.files)) &&
          s == (if appendSucceeds then Resolved else Rejected("append failed")))
    {
      var rest, failed, appended, ok := Flush(disk, fileUri, Join(HeaderOf(formatter), ","), recordCache,
                                              RowLine, lineTerminator, appendSucceeds);
      recordCache := rest;
      s := if failed then Rejected("TypeError")
           else if appended && !ok then Rejected("append failed")
           else Resolved;
    }
  }
}
