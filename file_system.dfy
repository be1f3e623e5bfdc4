/** The station's disk as the code uses it: `fs.existsSync` and
    `fs.appendFile`. Whether an append fails is decided by the caller. */
module FileSystem {

  /** The contents after appending `text` to the file at `path`, which is
      created when it does not exist. */
  function Appended(files: map<string, string>, path: string, text: string): (r: map<string, string>)
    ensures path in r
    ensures r[path] == (if path in files then files[path] else "") + text
    ensures forall p :: p in files && p != path ==> p in r && r[p] == files[p]
    ensures r.Keys == files.Keys + {path}
  {
    files[path := (if path in files then files[path] else "") + text]
  }

  class Disk {
    var files: map<string, string>

    constructor (initial: map<string, string>)
      ensures files == initial
    {
      files := initial;
    }

    /** `fs.existsSync(path)`. */
    predicate Exists(path: string)
      reads this
    {
      path in files
    }

    /** `fs.appendFile(path, text, callback)`; `succeeds` is the outcome the
        operating system reports to the callback. A failed append leaves the
        disk as it was. */
    method AppendFile(path: string, text: string, succeeds: bool) returns (ok: bool)
      modifies this
      ensures ok == succeeds
      ensures files == if succeeds then Appended(old(files), path, text) else old(files)
    {
      ok := succeeds;
      if succeeds {
        files := Appended(files, path, text);
      }
    }
  }
}
