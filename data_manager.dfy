/** The data manager: one logger for radio beeps and one for GPS fixes, both
    writing into the station's base log directory. */
module DataManagement {
  import opened Wrappers
  import opened JsValue
  import opened Env
  import opened CsvFlush
  import opened Logging
  import FileManager
  import FileSystem
  import GpsFormatter

  /** The options object the constructor hands to each logger as written: a
      `fileuri` and a formatter, and none of the fields a logger reads to
      build its path. */
  function LoggerOptionsAsWritten(m: FileManager.Manager, suffix: string): (r: Value)
    ensures r.Obj? && "fileuri" in r.fields && "base_path" !in r.fields
  {
    Obj(map["fileuri" := Str(FileManager.GetFileUri(m, suffix)), "formatter" := Obj(map[])])
  }

  /** As written, a logger built from those options has no base path, so its
      path join throws and constructing the data manager fails. */
  lemma LoggerOptionsAsWrittenThrow(m: FileManager.Manager, suffix: string)
    ensures FileUriOf(LoggerOptionsAsWritten(m, suffix)) == None
  {
    var opts := LoggerOptionsAsWritten(m, suffix);
    assert Prop(opts, "base_path") == Some(Undefined);
  }

  /** The options the loggers are evidently meant to receive: the station
      id, the base log directory and the file's suffix. */
  function LoggerOptions(m: FileManager.Manager, suffix: string): (r: Value)
    ensures r.Obj? && r.fields.Keys == {"id", "base_path", "suffix", "formatter"}
  {
    Obj(map["id" := Str(m.id), "base_path" := Str(m.baseLogDir), "suffix" := Str(suffix),
            "formatter" := Obj(map[])])
  }

  /** With those options a logger writes exactly the file the file manager
      names for its suffix. */
  lemma LoggerOptionsGiveFileUri(m: FileManager.Manager, suffix: string)
    ensures FileUriOf(LoggerOptions(m, suffix)) == Some(FileManager.GetFileUri(m, suffix))
  {
  }

  class DataManager {
    const fileManager: FileManager.Manager
    /** `loggers.beep` and `loggers.gps`, the only two loggers. */
    const beep: Logger
    const gps: Logger

    /** The loggers are distinct, have their formatters, and the GPS cache
        never holds an undefined row (the GPS formatter always gives one). */
    predicate Valid()
      reads this, beep, gps
    {
      beep != gps &&
      beep.formatter == BeepFormat &&
      gps.formatter == GpsFormat(GpsFormatter.Precision(None)) &&
      forall k :: 0 <= k < |gps.recordCache| ==> gps.recordCache[k].Some?
    }

    /** The constructor with the loggers given the options they read; see
        `LoggerOptionsAsWritten` for the options actually passed. */
    constructor (id: string, baseLogDir: string)
      ensures Valid() && fresh(beep) && fresh(gps)
      ensures fileManager == FileManager.Manager(id, baseLogDir)
      ensures beep.fileUri == FileManager.GetFileUri(fileManager, "raw-data")
      ensures gps.fileUri == FileManager.GetFileUri(fileManager, "gps")
      ensures beep.lineTerminator == "\r\n" && gps.lineTerminator == "\r\n"
      ensures beep.recordCache == [] && gps.recordCache == []
    {
      fileManager := FileManager.Manager(id, baseLogDir);
      beep := new Logger(id, baseLogDir, "raw-data", BeepFormat, Undefined);
      gps := new Logger(id, baseLogDir, "gps", GpsFormat(GpsFormatter.Precision(None)), Undefined);
    }

    /** `handleRadioBeep(beep)`: one record for the beep logger only. */
    method HandleRadioBeep(record: Value, clock: Clock) returns (ok: bool)
      requires Valid()
      modifies beep
      ensures Valid()
      ensures var f := Format(BeepFormat, record, clock);
        ok == !f.Thrown? &&
        beep.recordCache == if ok then old(beep.recordCache) + [if f.Fields? then Some(f.row) else None]
                            else old(beep.recordCache)
      ensures gps.recordCache == old(gps.recordCache)
    {
      ok := beep.AddRecord(record, clock);
    }

    /** `handleGps(record)`: one row for the GPS logger only. */
    method HandleGps(record: Value, clock: Clock) returns (ok: bool)
      requires Valid()
      modifies gps
      ensures Valid()
      ensures var f := Format(gps.formatter, record, clock);
        ok == f.Fields? &&
        gps.recordCache == if ok then old(gps.recordCache) + [Some(f.row)] else old(gps.recordCache)
      ensures beep.recordCache == old(beep.recordCache)
    {
      ok := gps.AddRecord(record, clock);
      assert forall k :: 0 <= k < |old(gps.recordCache)| ==> gps.recordCache[k] == old(gps.recordCache)[k];
    }

    /** `writeCache()`: each logger flushed once, beep first; the promises are
        not awaited, so their outcomes are dropped. The GPS cache is always
        left empty; the beep cache too unless it held an undefined row. */
    method WriteCache(disk: FileSystem.Disk, beepAppendSucceeds: bool, gpsAppendSucceeds: bool)
      requires Valid()
      modifies beep, gps, disk
      ensures Valid()
      ensures disk.files == gps.FilesAfterFlush(
        beep.FilesAfterFlush(old(disk.files), old(beep.recordCache), beepAppendSucceeds),
        old(gps.recordCache), gpsAppendSucceeds)
      ensures beep.recordCache == Drain(old(beep.recordCache), RowLine).rest
      ensures gps.recordCache == []
      ensures (forall k :: 0 <= k < |old(beep.recordCache)| ==> old(beep.recordCache)[k].Some?) ==>
        beep.recordCache == []
    {
      FlushedInOrder(gps.recordCache);
      if forall k :: 0 <= k < |beep.recordCache| ==> beep.recordCache[k].Some? {
        FlushedInOrder(beep.recordCache);
      }
      var _ := beep.WriteCacheToDisk(disk, beepAppendSucceeds);
      var _ := gps.WriteCacheToDisk(disk, gpsAppendSucceeds);
    }
  }
}
