/**
 * The per-store metadata side-file: one EntryParameters.json in each store directory,
 * mapping every alias to the job properties last recorded for it.
 */
module EntryParameterHelper {
  import opened Wrappers
  import opened Platform
  import opened Disk

  const FileName: string := "EntryParameters.json"

  /** Alias to parameter map; a parameter map may be null. */
  type Records = map<string, Option<Properties>>

  /** The deserialised side-file; a fresh one holds an empty dictionary. */
  class EntryParameterFile {
    var thumbprint2EntryParameters: Records

    constructor ()
      ensures thumbprint2EntryParameters == map[]
    {
      thumbprint2EntryParameters := map[];
    }
  }

  function GetParameterFilePath(storeDirectory: string): string {
    Combine(storeDirectory, FileName)
  }

  /** Every store directory has a side-file of its own. */
  lemma ParameterFilePathsDistinct(d1: string, d2: string)
    requires d1 != d2
    ensures GetParameterFilePath(d1) != GetParameterFilePath(d2)
  {
    if GetParameterFilePath(d1) == GetParameterFilePath(d2) {
      CombineInjective(d1, d2, FileName);
    }
  }

  /** A path ending in ".pem" is never a side-file path, whatever the directory. */
  lemma PemFileIsNotParameterFile(path: string, storeDirectory: string)
    requires EndsWith(path, ".pem")
    ensures path != GetParameterFilePath(storeDirectory)
  {
    var q := GetParameterFilePath(storeDirectory);
    assert path[|path| - 4..][3] == 'm';
    assert q[|q| - 1] == FileName[|FileName| - 1] == 'n';
  }

  /** JsonConvert.DeserializeObject<EntryParameterFile> on what a file holds. */
  function Deserialize(content: Content): Option<Records> {
    match content
    case Json(records) => Some(records)
    case Text(_) => None
  }

  /**
   * The files after CreateEntryParameterFileIfNotExists: a missing side-file is created
   * holding an empty dictionary; an existing one is not written.
   */
  function WithParameterFile(files: Files, storeDirectory: string): (after: Files)
    ensures GetParameterFilePath(storeDirectory) in after
    ensures GetParameterFilePath(storeDirectory) in files ==> after == files
    ensures GetParameterFilePath(storeDirectory) !in files ==> after[GetParameterFilePath(storeDirectory)] == Json(map[])
    ensures after - {GetParameterFilePath(storeDirectory)} == files - {GetParameterFilePath(storeDirectory)}
  {
    var path := GetParameterFilePath(storeDirectory);
    if path in files then files else files[path := Json(map[])]
  }

  /**
   * What GetParameterFile returns: the records of the side-file, the empty dictionary when
   * there was none, or an exception when the side-file's text does not deserialise.
   */
  function ReadParameterFile(files: Files, storeDirectory: string): (r: Result<Records, Exception>)
    ensures GetParameterFilePath(storeDirectory) !in files ==> r == Ok(map[])
    ensures GetParameterFilePath(storeDirectory) in files ==>
              (r.Ok? <==> files[GetParameterFilePath(storeDirectory)].Json?)
    ensures GetParameterFilePath(storeDirectory) in files && r.Ok? ==>
              r.value == files[GetParameterFilePath(storeDirectory)].thumbprint2EntryParameters
    ensures r.Err? ==> r.error == UnreadableParameterFile(GetParameterFilePath(storeDirectory))
  {
    var path := GetParameterFilePath(storeDirectory);
    match Deserialize(WithParameterFile(files, storeDirectory)[path])
    case Some(records) => Ok(records)
    case None => Err(UnreadableParameterFile(path))
  }

  /**
   * The files after AddOrUpdateRecord: the side-file rewritten with `thumbprint` mapped to
   * `entryParameters` and every other record kept; nothing else is touched. When the
   * side-file cannot be read, the exception escapes and nothing has been written.
   */
  function AddOrUpdate(files: Files, storeDirectory: string, thumbprint: string, entryParameters: Option<Properties>)
    : (r: Result<Files, Exception>)
    ensures r.Err? <==> ReadParameterFile(files, storeDirectory).Err?
    ensures r.Err? ==> r.error == ReadParameterFile(files, storeDirectory).error
    ensures r.Ok? ==> r.value - {GetParameterFilePath(storeDirectory)} == files - {GetParameterFilePath(storeDirectory)}
    ensures r.Ok? ==>
              var before := ReadParameterFile(files, storeDirectory).value;
              var after := ReadParameterFile(r.value, storeDirectory);
              && after.Ok?
              && after.value.Keys == before.Keys + {thumbprint}
              && after.value[thumbprint] == entryParameters
              && (forall t :: t in before && t != thumbprint ==> after.value[t] == before[t])
  {
    match ReadParameterFile(files, storeDirectory)
    case Err(e) => Err(e)
    case Ok(records) => Ok(files[GetParameterFilePath(storeDirectory) := Json(records[thumbprint := entryParameters])])
  }

  /** An update to one store directory leaves every other directory's side-file as it was. */
  lemma AddOrUpdateLeavesOtherDirectories(files: Files, storeDirectory: string, thumbprint: string,
                                          entryParameters: Option<Properties>, other: string)
    requires other != storeDirectory
    requires AddOrUpdate(files, storeDirectory, thumbprint, entryParameters).Ok?
    ensures var after := AddOrUpdate(files, storeDirectory, thumbprint, entryParameters).value;
            && (GetParameterFilePath(other) in after <==> GetParameterFilePath(other) in files)
            && ReadParameterFile(after, other) == ReadParameterFile(files, other)
  {
    var after := AddOrUpdate(files, storeDirectory, thumbprint, entryParameters).value;
    var path, otherPath := GetParameterFilePath(storeDirectory), GetParameterFilePath(other);
    ParameterFilePathsDistinct(storeDirectory, other);
    assert otherPath in after <==> otherPath in after - {path};
    assert otherPath in files <==> otherPath in files - {path};
    if otherPath in files {
      assert after[otherPath] == (after - {path})[otherPath] == (files - {path})[otherPath] == files[otherPath];
    }
  }

  /** Recording the same parameters for the same alias twice gives the state of recording them once. */
  lemma AddOrUpdateIdempotent(files: Files, storeDirectory: string, thumbprint: string, entryParameters: Option<Properties>)
    requires AddOrUpdate(files, storeDirectory, thumbprint, entryParameters).Ok?
    ensures var once := AddOrUpdate(files, storeDirectory, thumbprint, entryParameters).value;
            AddOrUpdate(once, storeDirectory, thumbprint, entryParameters) == Ok(once)
  {
    var once := AddOrUpdate(files, storeDirectory, thumbprint, entryParameters).value;
    var path := GetParameterFilePath(storeDirectory);
    var updated := ReadParameterFile(files, storeDirectory).value[thumbprint := entryParameters];
    assert once == files[path := Json(updated)];
    assert ReadParameterFile(once, storeDirectory) == Ok(updated);
    assert updated[thumbprint := entryParameters] == updated;
    assert once[path := Json(updated)] == once;
  }

  /** Updates of two different aliases in one side-file give the same state in either order. */
  lemma AddOrUpdateCommutes(files: Files, storeDirectory: string, t1: string, p1: Option<Properties>,
                            t2: string, p2: Option<Properties>)
    requires t1 != t2
    requires ReadParameterFile(files, storeDirectory).Ok?
    ensures var a := AddOrUpdate(files, storeDirectory, t1, p1).value;
            var b := AddOrUpdate(files, storeDirectory, t2, p2).value;
            AddOrUpdate(a, storeDirectory, t2, p2) == AddOrUpdate(b, storeDirectory, t1, p1)
  {
    var path := GetParameterFilePath(storeDirectory);
    var records := ReadParameterFile(files, storeDirectory).value;
    var a := files[path := Json(records[t1 := p1])];
    var b := files[path := Json(records[t2 := p2])];
    assert ReadParameterFile(a, storeDirectory) == Ok(records[t1 := p1]);
    assert ReadParameterFile(b, storeDirectory) == Ok(records[t2 := p2]);
    assert records[t1 := p1][t2 := p2] == records[t2 := p2][t1 := p1];
    assert a[path := Json(records[t1 := p1][t2 := p2])] == b[path := Json(records[t2 := p2][t1 := p1])];
  }

  /** SetParameterFile: serialise the whole dictionary over the side-file. */
  method SetParameterFile(fs: FileSystem, storeDirectory: string, parameterFile: EntryParameterFile)
    modifies fs
    ensures fs.files == old(fs.files)[GetParameterFilePath(storeDirectory) := Json(parameterFile.thumbprint2EntryParameters)]
  {
    fs.WriteAllText(GetParameterFilePath(storeDirectory), Json(parameterFile.thumbprint2EntryParameters));
  }

  method CreateEntryParameterFileIfNotExists(fs: FileSystem, storeDirectory: string)
    modifies fs
    ensures fs.files == WithParameterFile(old(fs.files), storeDirectory)
  {
    var fullPath := GetParameterFilePath(storeDirectory);
    if !fs.Exists(fullPath) {
      var empty := new EntryParameterFile();
      SetParameterFile(fs, storeDirectory, empty);
    }
  }

  /** GetParameterFile: create the side-file if missing, then read and deserialise it into a new object. */
  method GetParameterFile(fs: FileSystem, storeDirectory: string) returns (r: Result<EntryParameterFile, Exception>)
    modifies fs
    ensures fs.files == WithParameterFile(old(fs.files), storeDirectory)
    ensures r.Ok? <==> ReadParameterFile(old(fs.files), storeDirectory).Ok?
    ensures r.Ok? ==> fresh(r.value)
                      && r.value.thumbprint2EntryParameters == ReadParameterFile(old(fs.files), storeDirectory).value
    ensures r.Err? ==> r.error == ReadParameterFile(old(fs.files), storeDirectory).error
  {
    CreateEntryParameterFileIfNotExists(fs, storeDirectory);
    var fileContent := fs.files[GetParameterFilePath(storeDirectory)];
    match Deserialize(fileContent)
    case Some(records) =>
      var parameterFile := new EntryParameterFile();
      parameterFile.thumbprint2EntryParameters := records;
      r := Ok(parameterFile);
    case None =>
      r := Err(UnreadableParameterFile(GetParameterFilePath(storeDirectory)));
  }

  /** AddOrUpdateRecord: read the side-file, replace one alias's record, write the whole file back. */
  method AddOrUpdateRecord(fs: FileSystem, storeDirectory: string, thumbprint: string, entryParameters: Option<Properties>)
    returns (r: Outcome<Exception>)
    modifies fs
    ensures match AddOrUpdate(old(fs.files), storeDirectory, thumbprint, entryParameters)
            case Ok(after) => r == Pass && fs.files == after
            case Err(e) => r == Fail(e) && fs.files == old(fs.files)
  {
    var read := GetParameterFile(fs, storeDirectory);
    match read
    case Err(e) =>
      r := Fail(e);
    case Ok(entryParameterFile) =>
      entryParameterFile.thumbprint2EntryParameters := entryParameterFile.thumbprint2EntryParameters[thumbprint := entryParameters];
      SetParameterFile(fs, storeDirectory, entryParameterFile);
      r := Pass;
  }
}
