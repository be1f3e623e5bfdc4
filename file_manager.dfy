/** File names and paths of the station's data files, built from the station
    id and the base log directory. */
module FileManager {
  import opened Text

  datatype Manager = Manager(id: string, baseLogDir: string)

  /** `CTT-${id}-${suffix}.csv`: the fixed prefix, the id, a dash, the
      suffix and the extension, and nothing else. */
  function FileName(id: string, suffix: string): (r: string)
    ensures |r| == |id| + |suffix| + 9
    ensures r[..4] == "CTT-" && r[|r| - 4..] == ".csv"
    ensures r[4..4 + |id|] == id && r[4 + |id|] == '-'
    ensures r[5 + |id|..|r| - 4] == suffix
  {
    "CTT-" + id + "-" + suffix + ".csv"
  }

  /** `getFileName(suffix)`. */
  function GetFileName(m: Manager, suffix: string): string
  {
    FileName(m.id, suffix)
  }

  /** `getFileUri(suffix)`: the file name inside the base log directory. */
  function GetFileUri(m: Manager, suffix: string): (r: string)
    ensures var name := GetFileName(m, suffix); |r| >= |name| && r[|r| - |name|..] == name
  {
    PathJoin(m.baseLogDir, GetFileName(m, suffix))
  }

  /** For one station, different suffixes never share a file name. */
  lemma FileNameInjective(m: Manager, s1: string, s2: string)
    requires GetFileName(m, s1) == GetFileName(m, s2)
    ensures s1 == s2
  {
    var n1, n2 := GetFileName(m, s1), GetFileName(m, s2);
    assert s1 == n1[5 + |m.id|..|n1| - 4];
    assert s2 == n2[5 + |m.id|..|n2| - 4];
  }

  /** The base name of a data file's path is its file name, whenever the id
      and suffix hold no separator. */
  lemma BaseNameOfFileUri(m: Manager, suffix: string)
    requires '/' !in m.id && '/' !in suffix
    ensures BaseName(GetFileUri(m, suffix)) == GetFileName(m, suffix)
  {
    var name := GetFileName(m, suffix);
    assert '/' !in name by {
      assert name == "CTT-" + m.id + "-" + suffix + ".csv";
      forall k | 0 <= k < |name| ensures name[k] != '/' {
        if k < 4 {
        } else if k < 4 + |m.id| {
          assert name[k] == m.id[k - 4];
        } else if k == 4 + |m.id| {
        } else if k < 5 + |m.id| + |suffix| {
          assert name[k] == suffix[k - 5 - |m.id|];
        }
      }
    }
    BaseNameOfJoin(m.baseLogDir, name);
  }
}
