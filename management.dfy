/**
 * The management job: add a certificate to a store directory as a PEM file and record the
 * job's properties for its alias, or remove a certificate's PEM file.
 */
module Management {
  import opened Wrappers
  import opened Platform
  import opened Disk
  import opened Extensions
  import opened EntryParameterHelper

  const PemExtension: string := ".pem"

  /** CertStoreOperationType; every type other than Add and Remove is carried with its name. */
  datatype OperationType = Add | Remove | Other(name: string)

  /** ManagementJobCertificate: the alias, thumbprint and password may be null. */
  datatype ManagementJobCertificate = ManagementJobCertificate(
    alias: Option<string>,
    thumbprint: Option<string>,
    contents: string,
    privateKeyPassword: Option<string>)

  /** The parts of ManagementJobConfiguration the job reads; the job properties may be null. */
  datatype ManagementJobConfiguration = ManagementJobConfiguration(
    storePath: string,
    operationType: OperationType,
    jobCertificate: ManagementJobCertificate,
    jobProperties: Option<Properties>)

  /** GetX509: decode the base64 container with its password. */
  function GetX509(prims: Primitives, mgmtCert: ManagementJobCertificate): Option<Certificate> {
    prims.decode(mgmtCert.contents, mgmtCert.privateKeyPassword)
  }

  /**
   * GetThumbprint, the alias of an Add: the job's alias unless it is null or white space,
   * otherwise the thumbprint of the decoded certificate; it throws only when it has to
   * decode and decoding fails.
   */
  function GetThumbprint(prims: Primitives, mgmtCert: ManagementJobCertificate): (r: Result<string, Exception>)
    ensures !IsNullOrWhiteSpace(mgmtCert.alias) ==> r == Ok(mgmtCert.alias.value)
    ensures IsNullOrWhiteSpace(mgmtCert.alias) && GetX509(prims, mgmtCert).Some? ==>
              r == Ok(prims.thumbprint(GetX509(prims, mgmtCert).value))
    ensures r.Err? <==> IsNullOrWhiteSpace(mgmtCert.alias) && GetX509(prims, mgmtCert).None?
    ensures r.Err? ==> r.error == CertificateDecodeFailure
  {
    if !IsNullOrWhiteSpace(mgmtCert.alias) then
      Ok(mgmtCert.alias.value)
    else
      match GetX509(prims, mgmtCert)
      case Some(cert) => Ok(prims.thumbprint(cert))
      case None => Err(CertificateDecodeFailure)
  }

  /** GetPemString: decode the certificate and convert it to PEM text with headers. */
  function GetPemString(prims: Primitives, mgmtCert: ManagementJobCertificate): Result<string, Exception> {
    match GetX509(prims, mgmtCert)
    case Some(cert) => Ok(prims.toPem(cert, mgmtCert.privateKeyPassword))
    case None => Err(CertificateDecodeFailure)
  }

  /**
   * GetFullFilePath: the store path combined with the file name made to end in ".pem";
   * a name already ending in ".pem" is used as it is, and a null name throws.
   */
  function GetFullFilePath(storePath: string, fileName: Option<string>): (r: Result<string, Exception>)
    ensures fileName.None? <==> r.Err?
    ensures r.Err? ==> r.error == ArgumentNull("s")
    ensures r.Ok? ==> EndsWith(r.value, PemExtension)
    ensures fileName.Some? && EndsWith(fileName.value, PemExtension) ==> r == Ok(Combine(storePath, fileName.value))
    ensures fileName.Some? && !EndsWith(fileName.value, PemExtension) ==>
              r == Ok(Combine(storePath, fileName.value + PemExtension))
  {
    match EnsureEndsWith(fileName, PemExtension)
    case Err(e) => Err(e)
    case Ok(name) =>
      assert fileName.Some? && !EndsWith(fileName.value, PemExtension) ==> name == fileName.value + PemExtension by {
        if fileName.Some? && !EndsWith(fileName.value, PemExtension) {
          EnsureEndsWithAppendsWhenMissing(fileName.value, PemExtension, name);
        }
      }
      CombineKeepsEnding(storePath, name, PemExtension);
      Ok(Combine(storePath, name))
  }

  /** The alias of a Remove: the job's alias unless it is null or white space, otherwise the supplied thumbprint. */
  function RemoveAlias(mgmtCert: ManagementJobCertificate): Option<string> {
    if IsNullOrWhiteSpace(mgmtCert.alias) then mgmtCert.thumbprint else mgmtCert.alias
  }

  /** What the Add branch returns and leaves behind; its writes are not rolled back when a later step throws. */
  function AddOutcome(prims: Primitives, config: ManagementJobConfiguration, files: Files): JobRun {
    var mgmtCert := config.jobCertificate;
    match GetThumbprint(prims, mgmtCert)
    case Err(e) => JobRun(Err(e), files)
    case Ok(alias) =>
      var filePath := GetFullFilePath(config.storePath, Some(alias)).value;
      match GetPemString(prims, mgmtCert)
      case Err(e) => JobRun(Err(e), files)
      case Ok(pem) =>
        var written := files[filePath := Text(pem)];
        match AddOrUpdate(written, config.storePath, alias, config.jobProperties)
        case Err(e) => JobRun(Err(e), written)
        case Ok(after) => JobRun(Ok(Success), after)
  }

  /** What the Remove branch returns and leaves behind. */
  function RemoveOutcome(config: ManagementJobConfiguration, files: Files): JobRun {
    match GetFullFilePath(config.storePath, RemoveAlias(config.jobCertificate))
    case Err(e) => JobRun(Err(e), files)
    case Ok(path) => JobRun(Ok(Success), files - {path})
  }

  /**
   * What ProcessJob returns and leaves behind. An unsupported operation type throws and
   * changes nothing; Success is reported only when the Add or Remove branch completed.
   */
  function ProcessJobOutcome(prims: Primitives, config: ManagementJobConfiguration, files: Files): (run: JobRun)
    ensures config.operationType.Other? ==>
              run == JobRun(Err(UnknownOperation("Unknown Type: " + config.operationType.name)), files)
    ensures run.result.Ok? ==> run.result.value == Success && !config.operationType.Other?
    ensures config.operationType == Add && run.result.Ok? ==>
              GetX509(prims, config.jobCertificate).Some? && ReadParameterFile(files, config.storePath).Ok?
    ensures config.operationType == Remove ==> (run.result.Ok? <==> RemoveAlias(config.jobCertificate).Some?)
  {
    match config.operationType
    case Add => AddOutcome(prims, config, files)
    case Remove => RemoveOutcome(config, files)
    case Other(name) => JobRun(Err(UnknownOperation("Unknown Type: " + name)), files)
  }

  /** After a successful Add the PEM file holds the certificate and the store's side-file records the alias. */
  lemma AddStoresCertificateAndRecord(prims: Primitives, config: ManagementJobConfiguration, files: Files)
    requires config.operationType == Add
    requires ProcessJobOutcome(prims, config, files).result.Ok?
    ensures GetThumbprint(prims, config.jobCertificate).Ok? && GetX509(prims, config.jobCertificate).Some?
    ensures var mgmtCert := config.jobCertificate;
            var alias := GetThumbprint(prims, mgmtCert).value;
            var path := GetFullFilePath(config.storePath, Some(alias)).value;
            var sideFile := GetParameterFilePath(config.storePath);
            var run := ProcessJobOutcome(prims, config, files);
            && path in run.files
            && run.files[path] == Text(prims.toPem(GetX509(prims, mgmtCert).value, mgmtCert.privateKeyPassword))
            && ReadParameterFile(run.files, config.storePath)
               == Ok(ReadParameterFile(files, config.storePath).value[alias := config.jobProperties])
            && run.files - {path, sideFile} == files - {path, sideFile}
  {
    var mgmtCert := config.jobCertificate;
    var alias := GetThumbprint(prims, mgmtCert).value;
    var path := GetFullFilePath(config.storePath, Some(alias)).value;
    var sideFile := GetParameterFilePath(config.storePath);
    var written := files[path := Text(GetPemString(prims, mgmtCert).value)];
    PemFileIsNotParameterFile(path, config.storePath);
    assert ReadParameterFile(written, config.storePath) == ReadParameterFile(files, config.storePath);
    var after := AddOrUpdate(written, config.storePath, alias, config.jobProperties).value;
    assert after - {sideFile} == written - {sideFile};
    assert path in after - {sideFile};
    assert after[path] == (after - {sideFile})[path] == written[path];
    assert after - {path, sideFile} == (after - {sideFile}) - {path};
    assert files - {path, sideFile} == (written - {sideFile}) - {path};
  }

  /**
   * An Add succeeds exactly when the certificate decodes and the side-file is readable. A
   * decoding failure changes nothing; an unreadable side-file leaves the PEM file written.
   */
  lemma AddFailureEffects(prims: Primitives, config: ManagementJobConfiguration, files: Files)
    requires config.operationType == Add
    ensures var run := ProcessJobOutcome(prims, config, files);
            run.result.Ok? <==> GetX509(prims, config.jobCertificate).Some? && ReadParameterFile(files, config.storePath).Ok?
    ensures GetX509(prims, config.jobCertificate).None? ==>
              ProcessJobOutcome(prims, config, files) == JobRun(Err(CertificateDecodeFailure), files)
    ensures GetX509(prims, config.jobCertificate).Some? && ReadParameterFile(files, config.storePath).Err? ==>
              var mgmtCert := config.jobCertificate;
              var path := GetFullFilePath(config.storePath, Some(GetThumbprint(prims, mgmtCert).value)).value;
              ProcessJobOutcome(prims, config, files)
              == JobRun(Err(UnreadableParameterFile(GetParameterFilePath(config.storePath))),
                        files[path := Text(prims.toPem(GetX509(prims, mgmtCert).value, mgmtCert.privateKeyPassword))])
  {
    var mgmtCert := config.jobCertificate;
    if GetX509(prims, mgmtCert).Some? {
      var alias := GetThumbprint(prims, mgmtCert).value;
      var path := GetFullFilePath(config.storePath, Some(alias)).value;
      PemFileIsNotParameterFile(path, config.storePath);
      var written := files[path := Text(GetPemString(prims, mgmtCert).value)];
      assert ReadParameterFile(written, config.storePath) == ReadParameterFile(files, config.storePath);
    }
  }

  /**
   * A Remove deletes the one PEM file named by the alias, or else the thumbprint, and no
   * side-file of any store; with neither an alias nor a thumbprint it throws and changes nothing.
   */
  lemma RemoveDeletesOnlyTarget(prims: Primitives, config: ManagementJobConfiguration, files: Files)
    requires config.operationType == Remove
    ensures var mgmtCert := config.jobCertificate;
            var run := ProcessJobOutcome(prims, config, files);
            && (!IsNullOrWhiteSpace(mgmtCert.alias) ==>
                  run == JobRun(Ok(Success), files - {GetFullFilePath(config.storePath, mgmtCert.alias).value}))
            && (IsNullOrWhiteSpace(mgmtCert.alias) && mgmtCert.thumbprint.Some? ==>
                  run == JobRun(Ok(Success), files - {GetFullFilePath(config.storePath, mgmtCert.thumbprint).value}))
            && (IsNullOrWhiteSpace(mgmtCert.alias) && mgmtCert.thumbprint.None? ==>
                  run == JobRun(Err(ArgumentNull("s")), files))
    ensures var run := ProcessJobOutcome(prims, config, files);
            forall d :: && (GetParameterFilePath(d) in run.files <==> GetParameterFilePath(d) in files)
                        && ReadParameterFile(run.files, d) == ReadParameterFile(files, d)
  {
    var run := ProcessJobOutcome(prims, config, files);
    match GetFullFilePath(config.storePath, RemoveAlias(config.jobCertificate))
    case Err(_) =>
    case Ok(path) =>
      forall d ensures && (GetParameterFilePath(d) in run.files <==> GetParameterFilePath(d) in files)
                       && ReadParameterFile(run.files, d) == ReadParameterFile(files, d)
      {
        PemFileIsNotParameterFile(path, d);
      }
  }

  /**
   * Removing what an Add wrote, by the same alias or by the decoded certificate's thumbprint,
   * leaves every file other than the side-file as it was before the Add; the side-file keeps
   * the record the Add made.
   */
  lemma AddThenRemoveRestoresFiles(prims: Primitives, config: ManagementJobConfiguration, files: Files)
    requires config.operationType == Add
    requires ProcessJobOutcome(prims, config, files).result.Ok?
    requires !IsNullOrWhiteSpace(config.jobCertificate.alias)
             || (GetX509(prims, config.jobCertificate).Some?
                 && config.jobCertificate.thumbprint == Some(prims.thumbprint(GetX509(prims, config.jobCertificate).value)))
    requires GetFullFilePath(config.storePath, Some(GetThumbprint(prims, config.jobCertificate).value)).value !in files
    ensures var added := ProcessJobOutcome(prims, config, files);
            var removed := ProcessJobOutcome(prims, config.(operationType := Remove), added.files);
            var sideFile := GetParameterFilePath(config.storePath);
            && removed.result == Ok(Success)
            && removed.files - {sideFile} == files - {sideFile}
            && ReadParameterFile(removed.files, config.storePath) == ReadParameterFile(added.files, config.storePath)
  {
    var mgmtCert := config.jobCertificate;
    AddStoresCertificateAndRecord(prims, config, files);
    var alias := GetThumbprint(prims, mgmtCert).value;
    var path := GetFullFilePath(config.storePath, Some(alias)).value;
    var sideFile := GetParameterFilePath(config.storePath);
    var added := ProcessJobOutcome(prims, config, files);
    assert RemoveAlias(mgmtCert) == Some(alias);
    RemoveDeletesOnlyTarget(prims, config.(operationType := Remove), added.files);
    var removed := ProcessJobOutcome(prims, config.(operationType := Remove), added.files);
    assert removed.files == added.files - {path};
    PemFileIsNotParameterFile(path, config.storePath);
    assert removed.files - {sideFile} == (added.files - {path, sideFile});
    assert files - {sideFile} == files - {path, sideFile};
  }

  /** AddCert: write the certificate's PEM text to the path, overwriting what was there. */
  method AddCert(fs: FileSystem, prims: Primitives, mgmtCert: ManagementJobCertificate, fullPath: string)
    returns (r: Outcome<Exception>)
    modifies fs
    ensures match GetPemString(prims, mgmtCert)
            case Ok(pem) => r == Pass && fs.files == old(fs.files)[fullPath := Text(pem)]
            case Err(e) => r == Fail(e) && fs.files == old(fs.files)
  {
    var pemString := GetPemString(prims, mgmtCert);
    match pemString
    case Err(e) =>
      r := Fail(e);
    case Ok(pem) =>
      fs.WriteAllText(fullPath, Text(pem));
      r := Pass;
  }

  /** RemoveCert: delete the file at the path. */
  method RemoveCert(fs: FileSystem, fullPath: string)
    modifies fs
    ensures fs.files == old(fs.files) - {fullPath}
  {
    fs.Delete(fullPath);
  }

  /** ProcessJob: dispatch on the operation type; an exception from any step escapes to the host. */
  method ProcessJob(fs: FileSystem, prims: Primitives, config: ManagementJobConfiguration)
    returns (r: Result<JobStatus, Exception>)
    modifies fs
    ensures JobRun(r, fs.files) == ProcessJobOutcome(prims, config, old(fs.files))
  {
    var storePath := config.storePath;
    var mgmtCert := config.jobCertificate;
    match config.operationType {
    case Add =>
      var alias := GetThumbprint(prims, mgmtCert);
      if alias.Err? {
        return Err(alias.error);
      }
      var filePath := GetFullFilePath(storePath, Some(alias.value)).value;
      var added := AddCert(fs, prims, mgmtCert, filePath);
      if added.Fail? {
        return Err(added.error);
      }
      var recorded := AddOrUpdateRecord(fs, storePath, alias.value, config.jobProperties);
      if recorded.Fail? {
        return Err(recorded.error);
      }
    case Remove =>
      var removeAlias := RemoveAlias(mgmtCert);
      var filePath := GetFullFilePath(storePath, removeAlias);
      if filePath.Err? {
        return Err(filePath.error);
      }
      RemoveCert(fs, filePath.value);
    case Other(name) =>
      return Err(UnknownOperation("Unknown Type: " + name));
    }
    r := Ok(Success);
  }
}
