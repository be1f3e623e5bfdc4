/** The first uploader: which files go to the bucket, and under which keys.
    The file system's `glob` and `stat` and the clock are inputs; the
    transfer itself is the put request the uploader builds. */
module LegacyUploader {
  import opened Wrappers
  import opened Text
  import opened Sorting

  const Bucket: string := "ctt-motus-development"
  const CttPattern: string := "/data/rotated/*.gz"
  const SgPattern: string := "/data/SGdata/*/*.gz"
  /** Files modified less than 61 minutes ago are not uploaded yet. */
  const MinAgeMs: int := 1000 * 60 * 61

  /** A `putObject` call: the bucket, the object key and the file whose
      contents are the body. */
  datatype PutRequest = PutRequest(bucket: string, key: string, file: string)

  /** The candidates of one upload round. */
  datatype FilesToUpload = FilesToUpload(ctt: seq<string>, sg: seq<string>)

  /** The `filter` over the names: a file stays when it is at least `delay`
      milliseconds old at time `now`, according to its modification time
      `mtime`. */
  function KeepOld(names: seq<string>, mtime: string -> int, now: int, delay: int): (r: seq<string>)
    ensures Subsequence(r, names)
    ensures forall f :: f in r <==> f in names && now - mtime(f) >= delay
    decreases |names|
  {
    if names == [] then []
    else
      var rest := KeepOld(names[1..], mtime, now, delay);
      assert forall f :: f in names <==> f == names[0] || f in names[1..];
      if now - mtime(names[0]) < delay then rest else [names[0]] + rest
  }

  /** A filter that keeps everything returns the list it was given. */
  lemma {:induction false} KeepOldKeepsAll(names: seq<string>, mtime: string -> int, now: int, delay: int)
    requires forall k :: 0 <= k < |names| ==> now - mtime(names[k]) >= delay
    ensures KeepOld(names, mtime, now, delay) == names
    decreases |names|
  {
    if names != [] {
      KeepOldKeepsAll(names[1..], mtime, now, delay);
    }
  }

  /** `getFiles(pattern)` once `glob` answered with `matches` (a failure is
      passed on as the rejection): the matches in ascending order, without
      those modified within the last 61 minutes. */
  function GetFiles(matches: Result<seq<string>, string>, mtime: string -> int, now: int): (r: Result<seq<string>, string>)
    ensures r.Failure? <==> matches.Failure?
    ensures r.Success? ==>
      Sorted(r.value) && Subsequence(r.value, Sort(matches.value)) &&
      forall f :: f in r.value <==> f in matches.value && now - mtime(f) >= MinAgeMs
  {
    match matches
    case Failure(e) => Failure(e)
    case Success(names) =>
      var sorted := Sort(names);
      var kept := KeepOld(sorted, mtime, now, MinAgeMs);
      SubsequenceOfSorted(kept, sorted);
      assert forall f :: f in sorted <==> f in multiset(names);
      Success(kept)
  }

  /** `getFilesToUpload()` with `glob` giving the matches of each pattern;
      `None` when one of the two lookups rejects, since the promise then
      never settles. */
  function GetFilesToUpload(glob: string -> Result<seq<string>, string>, mtime: string -> int, now: int): (r: Option<FilesToUpload>)
    ensures r.Some? <==> glob(CttPattern).Success? && glob(SgPattern).Success?
    ensures r.Some? ==>
      Success(r.value.ctt) == GetFiles(glob(CttPattern), mtime, now) &&
      Success(r.value.sg) == GetFiles(glob(SgPattern), mtime, now)
  {
    var ctt := GetFiles(glob(CttPattern), mtime, now);
    var sg := GetFiles(glob(SgPattern), mtime, now);
    if ctt.Success? && sg.Success? then Some(FilesToUpload(ctt.value, sg.value)) else None
  }

  /** The key of an SG file: `ctt/data/` and the file's base name. */
  function SgKey(filename: string): string
  {
    Join(["ctt", "data", BaseName(filename)], "/")
  }

  /** The key of a CTT file: `tag-data/{id}/{day}/{basename}`, where `day`
      is the file's modification date as `YYYY-MM-DD`. */
  function CttKey(id: string, day: string, filename: string): string
  {
    Join(["tag-data", id, day, BaseName(filename)], "/")
  }

  lemma ThreeSegments(a: string, b: string, c: string)
    requires '/' !in a && '/' !in b && '/' !in c
    ensures Split(Join([a, b, c], "/"), '/') == [a, b, c]
  {
    SplitJoin([a, b, c], '/');
  }

  /** An SG key splits back into its three segments, the last one the base
      name of the file, whatever the file's modification time. */
  lemma SgKeyParts(filename: string)
    ensures Split(SgKey(filename), '/') == ["ctt", "data", BaseName(filename)]
  {
    var name := BaseName(filename);
    assert '/' !in "ctt" && '/' !in "data";
    ThreeSegments("ctt", "data", name);
  }

  /** A CTT key splits back into the id, the day and the base name when the
      id and the day hold no slash; so distinct files, days or stations never
      share a key. */
  lemma CttKeyParts(id: string, day: string, filename: string)
    requires '/' !in id && '/' !in day
    ensures Split(CttKey(id, day, filename), '/') == ["tag-data", id, day, BaseName(filename)]
  {
    var parts := ["tag-data", id, day, BaseName(filename)];
    assert Split(Join(parts, "/"), '/') == parts by {
      SplitJoin(parts, '/');
    }
    assert CttKey(id, day, filename) == Join(parts, "/");
  }

  /** `uploadSgFile(filename)`: the put request it makes. */
  function UploadSgFile(filename: string): (r: PutRequest)
    ensures r.bucket == Bucket && r.file == filename
    ensures Split(r.key, '/') == ["ctt", "data", BaseName(filename)]
  {
    SgKeyParts(filename);
    PutRequest(Bucket, SgKey(filename), filename)
  }

  /** `uploadCttFile(filename)` for station `id`, where `formatDay` prints a
      modification time as `YYYY-MM-DD`: the put request it makes. */
  function UploadCttFile(id: string, filename: string, mtimeMs: int, formatDay: int -> string): (r: PutRequest)
    ensures r.bucket == Bucket && r.file == filename
    ensures '/' !in id && '/' !in formatDay(mtimeMs) ==>
      Split(r.key, '/') == ["tag-data", id, formatDay(mtimeMs), BaseName(filename)]
  {
    var day := formatDay(mtimeMs);
    assert '/' !in id && '/' !in day ==> Split(CttKey(id, day, filename), '/') == ["tag-data", id, day, BaseName(filename)] by {
      if '/' !in id && '/' !in day {
        CttKeyParts(id, day, filename);
      }
    }
    PutRequest(Bucket, CttKey(id, formatDay(mtimeMs), filename), filename)
  }
}
