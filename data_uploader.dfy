/** The newer uploader: a single-flight `uploading` flag, the candidate
    lists, the object keys under the `TEST/` prefix, and the acceptance of a
    transfer by its ETag. `glob`, `stat`, `readFile` and `putObject` are
    inputs, each given by the answer it had. */
module DataUploader {
  import opened Wrappers
  import opened Text
  import opened JsValue
  import opened Sorting
  import LegacyUploader

  /** What a successful `uploadFile` resolves with. */
  datatype Receipt = Receipt(fileuri: string, etag: Value)

  /** An `uploadFile` call: the put request it made, if it got that far, and
      how its promise ended (`None` when it never settles). */
  datatype Upload = Upload(put: Option<LegacyUploader.PutRequest>, result: Option<Result<Receipt, string>>)

  /** The `TEST/` development prefix in front of an object key. */
  function TestKey(key: string): string
  {
    PathJoin("TEST", key)
  }

  /** The prefixed key is `TEST`, a slash, and the key unchanged, so the key
      can be read back from it. */
  lemma TestKeyParts(key: string)
    ensures |TestKey(key)| == |key| + 5
    ensures TestKey(key)[..5] == "TEST/" && TestKey(key)[5..] == key
  {
  }

  /** `getFiles(opts)` as written: the `filter` callback starts an `fs.stat`
      and returns nothing, so every name is filtered out. */
  function GetFilesAsWritten(matches: Result<seq<string>, string>): (r: Result<seq<string>, string>)
    ensures r.Failure? <==> matches.Failure?
  {
    match matches
    case Failure(e) => Failure(e)
    case Success(names) => Success([])
  }

  /** However many files match, and however old they are, the list as
      written is empty. */
  lemma GetFilesAsWrittenIsEmpty(names: seq<string>)
    ensures GetFilesAsWritten(Success(names)) == Success([])
    ensures names != [] ==> GetFilesAsWritten(Success(names)).value != names
  {
  }

  /** `getFiles(opts)` as evidently intended: the matches in ascending order,
      without those modified less than `delay` milliseconds before `now`. */
  function GetFilesCorrected(matches: Result<seq<string>, string>, mtime: string -> int, now: int, delay: int)
    : (r: Result<seq<string>, string>)
    ensures r.Failure? <==> matches.Failure?
    ensures r.Success? ==>
      Sorted(r.value) && Subsequence(r.value, Sort(matches.value)) &&
      forall f :: f in r.value <==> f in matches.value && now - mtime(f) >= delay
  {
    match matches
    case Failure(e) => Failure(e)
    case Success(names) =>
      var sorted := Sort(names);
      var kept := LegacyUploader.KeepOld(sorted, mtime, now, delay);
      SubsequenceOfSorted(kept, sorted);
      assert forall f :: f in sorted <==> f in multiset(names);
      Success(kept)
  }

  /** With no delay, the corrected list is every match, sorted. */
  lemma GetFilesCorrectedNoDelay(names: seq<string>, mtime: string -> int, now: int)
    requires forall f :: f in names ==> mtime(f) <= now
    ensures GetFilesCorrected(Success(names), mtime, now, 0) == Success(Sort(names))
  {
    var sorted := Sort(names);
    assert forall k :: 0 <= k < |sorted| ==> sorted[k] in multiset(names);
    LegacyUploader.KeepOldKeepsAll(sorted, mtime, now, 0);
  }

  /** `getFiles(opts)` called with the value `opts`: reading
      `opts.file_pattern` throws for `null` or `undefined`, and `glob` throws a
      TypeError for a pattern that is not a string; either way the executor
      throws and the promise rejects. Otherwise the lookup goes on as
      `GetFilesAsWritten` of glob's answer. */
  function GetFilesCall(opts: Value, glob: string -> Result<seq<string>, string>): (r: Result<seq<string>, string>)
    ensures !Field(opts, "file_pattern").Str? ==> r == Failure("TypeError")
    ensures Field(opts, "file_pattern").Str? ==> r == GetFilesAsWritten(glob(Field(opts, "file_pattern").s))
  {
    match Field(opts, "file_pattern")
    case Str(pattern) => GetFilesAsWritten(glob(pattern))
    case _ => Failure("TypeError")
  }

  /** The options of the CTT lookup: the pattern and no delay. */
  const CttOptions: Value := Obj(map["file_pattern" := Str(LegacyUploader.CttPattern), "delay" := Int(0)])

  /** The SG lookup passes the pattern string itself as `opts`, so its
      `file_pattern` is `undefined` and it rejects whatever the files are. */
  lemma SgLookupRejects(glob: string -> Result<seq<string>, string>)
    ensures GetFilesCall(Str(LegacyUploader.SgPattern), glob) == Failure("TypeError")
  {
  }

  /** `getFilesToUpload()` as written: the result, and whether a rejection is
      left unhandled. When the CTT lookup rejects, the `catch` calls a
      `resolve` that is not in scope, and the promise rejects. Otherwise the
      `then` callback starts the SG lookup with the pattern string as `opts`,
      which rejects with no handler attached, and returns nothing, so the
      promise resolves with `undefined` (`Success(None)`). */
  function GetFilesToUploadAsWritten(glob: string -> Result<seq<string>, string>)
    : (r: (Result<Option<LegacyUploader.FilesToUpload>, string>, bool))
    ensures r.0.Success? ==> r.0.value.None?
    ensures r.0.Failure? <==> glob(LegacyUploader.CttPattern).Failure?
    ensures r.1 <==> r.0.Success?
  {
    assert Field(CttOptions, "file_pattern") == Str(LegacyUploader.CttPattern);
    match GetFilesCall(CttOptions, glob)
    case Failure(_) => (Failure("ReferenceError: resolve is not defined"), false)
    case Success(_) =>
      SgLookupRejects(glob);
      (Success(None), GetFilesCall(Str(LegacyUploader.SgPattern), glob).Failure?)
  }

  /** The time the SG files must have rested before they are uploaded. */
  const SgDelayMs: int := 1000 * 60 * 61

  /** `getFilesToUpload()` as evidently intended: the CTT files without a
      delay and the SG files older than 61 minutes; the `catch` resolves with
      two empty lists when a lookup fails. */
  function GetFilesToUploadCorrected(glob: string -> Result<seq<string>, string>, mtime: string -> int, now: int)
    : (r: LegacyUploader.FilesToUpload)
    ensures !(glob(LegacyUploader.CttPattern).Success? && glob(LegacyUploader.SgPattern).Success?) ==>
      r == LegacyUploader.FilesToUpload([], [])
    ensures glob(LegacyUploader.CttPattern).Success? && glob(LegacyUploader.SgPattern).Success? ==>
      Sorted(r.ctt) && Sorted(r.sg) &&
      (forall f :: f in r.ctt <==> f in glob(LegacyUploader.CttPattern).value && now - mtime(f) >= 0) &&
      (forall f :: f in r.sg <==> f in glob(LegacyUploader.SgPattern).value && now - mtime(f) >= SgDelayMs)
  {
    var ctt := GetFilesCorrected(glob(LegacyUploader.CttPattern), mtime, now, 0);
    var sg := GetFilesCorrected(glob(LegacyUploader.SgPattern), mtime, now, SgDelayMs);
    if ctt.Success? && sg.Success? then LegacyUploader.FilesToUpload(ctt.value, sg.value)
    else LegacyUploader.FilesToUpload([], [])
  }

  /** `uploadFile({fileuri, key})` when reading the file answered `read` and
      the put answered `put` with its response data. A read error rejects
      before any put; a put error rejects; a response without a truthy
      ETag rejects with `'bad etag response'`. Response data that is `null`
      or `undefined` makes `data.ETag` throw inside the callback, and the
      promise never settles. */
  function UploadFile(fileuri: string, key: string, read: Result<(), string>, put: Result<Value, string>)
    : (r: Upload)
    ensures r.put.Some? <==> read.Success?
    ensures r.put.Some? ==> r.put.value == LegacyUploader.PutRequest(LegacyUploader.Bucket, TestKey(key), fileuri)
    ensures r.result.None? <==> read.Success? && put.Success? && (put.value.Undefined? || put.value.Null?)
    ensures r.result.Some? && r.result.value.Success? <==>
      read.Success? && put.Success? && Truthy(Field(put.value, "ETag"))
    ensures r.result.Some? && r.result.value.Success? ==>
      r.result.value.value == Receipt(fileuri, Field(put.value, "ETag"))
    ensures read.Failure? ==> r.result == Some(Failure(read.error))
    ensures read.Success? && put.Failure? ==> r.result == Some(Failure(put.error))
    ensures read.Success? && put.Success? && !put.value.Undefined? && !put.value.Null? &&
            !Truthy(Field(put.value, "ETag")) ==>
      r.result == Some(Failure("bad etag response"))
  {
    if read.Failure? then Upload(None, Some(Failure(read.error)))
    else
      var request := LegacyUploader.PutRequest(LegacyUploader.Bucket, TestKey(key), fileuri);
      match put
      case Failure(e) => Upload(Some(request), Some(Failure(e)))
      case Success(data) =>
        match Prop(data, "ETag")
        case None => Upload(Some(request), None)
        case Some(etag) =>
          if Truthy(etag) then Upload(Some(request), Some(Success(Receipt(fileuri, etag))))
          else Upload(Some(request), Some(Failure("bad etag response")))
  }

  /** `uploadCttFile(filename)` for station `id`: `stat` gives the
      modification time, `formatDay` prints it as `YYYY-MM-DD`. The promise
      resolves with the receipt of the upload and otherwise never settles
      (`None`): neither a failed `stat` nor a rejected upload is handled. */
  function UploadCttFile(id: string, filename: string, stat: Result<int, string>, formatDay: int -> string,
                         read: Result<(), string>, put: Result<Value, string>)
    : (r: (Option<LegacyUploader.PutRequest>, Option<Receipt>))
    ensures stat.Failure? ==> r.0.None? && r.1.None?
    ensures stat.Success? ==>
      var u := UploadFile(filename, LegacyUploader.CttKey(id, formatDay(stat.value), filename), read, put);
      r.0 == u.put && (r.1.Some? <==> u.result.Some? && u.result.value.Success?) &&
      (r.1.Some? ==> r.1.value == u.result.value.value)
  {
    match stat
    case Failure(_) => (None, None)
    case Success(mtime) =>
      var u := UploadFile(filename, LegacyUploader.CttKey(id, formatDay(mtime), filename), read, put);
      (u.put, if u.result.Some? && u.result.value.Success? then Some(u.result.value.value) else None)
  }

  /** The key a CTT upload stores under: `TEST/`, then the CTT key, whose
      segments are the id, the day and the base name. */
  lemma UploadCttFileKey(id: string, filename: string, mtime: int, formatDay: int -> string,
                         read: Result<(), string>, put: Result<Value, string>)
    requires '/' !in id && '/' !in formatDay(mtime) && read.Success?
    ensures var r := UploadCttFile(id, filename, Success(mtime), formatDay, read, put);
      r.0.Some? && r.0.value.key[..5] == "TEST/" &&
      Split(r.0.value.key[5..], '/') == ["tag-data", id, formatDay(mtime), BaseName(filename)]
  {
    var key := LegacyUploader.CttKey(id, formatDay(mtime), filename);
    TestKeyParts(key);
    LegacyUploader.CttKeyParts(id, formatDay(mtime), filename);
  }

  class Uploader {
    const id: string
    /** Whether an upload round was started; nothing ever clears it. */
    var uploading: bool

    constructor (stationId: string)
      ensures id == stationId && !uploading
    {
      id := stationId;
      uploading := false;
    }

    /** `uploadAll()`, where `glob` answers the file lookups. A call while
        `uploading` is set does nothing; otherwise the flag is set first.
        Either way the promise resolves, and as written no upload is ever
        attempted: the file lists arrive as `undefined`, reading `res.ctt`
        throws, and the `catch` resolves. */
    method UploadAll(glob: string -> Result<seq<string>, string>) returns (started: bool, attempted: seq<string>, s: Settlement)
      modifies this
      ensures started == !old(uploading)
      ensures uploading
      ensures attempted == [] && s == Resolved
    {
      if uploading {
        return false, [], Resolved;
      }
      uploading := true;
      started := true;
      var res := GetFilesToUploadAsWritten(glob).0;
      match res
      case Failure(_) =>
        attempted, s := [], Resolved;
      case Success(files) =>
        if files.Some? {
          assert false;
        }
        attempted, s := [], Resolved;
    }
  }
}
