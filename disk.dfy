/**
 * The filesystem the jobs work on: System.IO.Path.Combine, and System.IO.File as a class
 * whose one field maps each full path to the content of the file there.
 */
module Disk {
  import opened Wrappers
  import opened Platform

  const DirectorySeparator: char := '/'

  /** Path.Combine(dir, name), taken as dir, one separator, name. */
  function Combine(dir: string, name: string): string {
    dir + [DirectorySeparator] + name
  }

  /** Combining with the same name never sends two directories to one path. */
  lemma {:induction false} CombineInjective(d1: string, d2: string, name: string)
    requires Combine(d1, name) == Combine(d2, name)
    ensures d1 == d2
  {
    var p := Combine(d1, name);
    assert |d1| == |d2|;
    assert p[..|d1|] == d1;
    assert Combine(d2, name)[..|d2|] == d2;
  }

  /** A combined path ends with whatever its file name ends with. */
  lemma {:induction false} CombineKeepsEnding(dir: string, name: string, ending: string)
    requires EndsWith(name, ending)
    ensures EndsWith(Combine(dir, name), ending)
  {
    var p := Combine(dir, name);
    assert p[|p| - |ending|..] == name[|name| - |ending|..];
  }

  /**
   * What a file holds: text written by File.WriteAllText, or, for a side-file, the
   * serialised form of an EntryParameterFile (its alias-to-parameters dictionary;
   * an absent parameter map is a JSON null).
   */
  datatype Content =
    | Text(text: string)
    | Json(thumbprint2EntryParameters: map<string, Option<Properties>>)

  type Files = map<string, Content>

  /** What a job hands back to the host (a status, or the exception it throws) and the files it leaves behind. */
  datatype JobRun = JobRun(result: Result<JobStatus, Exception>, files: Files)

  /** System.IO.File over one directory tree. */
  class FileSystem {
    var files: Files

    constructor (initial: Files)
      ensures files == initial
    {
      files := initial;
    }

    /** File.Exists. */
    predicate Exists(path: string)
      reads this
    {
      path in files
    }

    /** File.WriteAllText: creates or overwrites the one file. */
    method WriteAllText(path: string, content: Content)
      modifies this
      ensures files == old(files)[path := content]
    {
      files := files[path := content];
    }

    /** File.Delete: removes the one file; a missing file is not an error. */
    method Delete(path: string)
      modifies this
      ensures files == old(files) - {path}
    {
      files := files - {path};
    }
  }
}
