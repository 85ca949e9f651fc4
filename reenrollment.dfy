/**
 * The reenrollment job: request a new certificate for a subject taken from the job
 * properties, and when one is issued store it as a PEM file and record the job's properties
 * for its alias.
 */
module Reenrollment {
  import opened Wrappers
  import opened Platform
  import opened Disk
  import opened EntryParameterHelper
  import Management

  const DefaultSubject: string := "CN=Name"

  /** The parts of ReenrollmentJobConfiguration the job reads. */
  datatype ReenrollmentJobConfiguration = ReenrollmentJobConfiguration(storePath: string, jobProperties: Properties)

  /**
   * The host's SubmitReenrollmentCSR callback: `issue` is what the authority answers for a
   * request (None for no certificate), and `submitted` lists the requests it was given.
   */
  class SubmitReenrollmentCsr {
    const issue: string -> Option<Certificate>
    var submitted: seq<string>

    constructor (issue: string -> Option<Certificate>)
      ensures this.issue == issue && submitted == []
    {
      this.issue := issue;
      submitted := [];
    }

    method Invoke(csr: string) returns (cert: Option<Certificate>)
      modifies this
      ensures submitted == old(submitted) + [csr]
      ensures cert == issue(csr)
    {
      submitted := submitted + [csr];
      cert := issue(csr);
    }
  }

  /**
   * The subject text, as the job computes it: StringEntryParam or the default first, then
   * overridden by subjectText. In effect subjectText wins, then StringEntryParam, then "CN=Name",
   * whatever the values are (a present null value gives the empty subject).
   */
  function SubjectText(props: Properties): (subject: string)
    ensures "subjectText" in props ==> subject == ConvertToString(props["subjectText"])
    ensures "subjectText" !in props && "StringEntryParam" in props ==> subject == ConvertToString(props["StringEntryParam"])
    ensures "subjectText" !in props && "StringEntryParam" !in props ==> subject == DefaultSubject
  {
    var subjectTextObject := if "StringEntryParam" in props then props["StringEntryParam"] else Str(DefaultSubject);
    if "subjectText" in props then ConvertToString(props["subjectText"]) else ConvertToString(subjectTextObject)
  }

  /** The alias of an issued certificate: the Alias property whenever that key is present, blank or not, else the thumbprint. */
  function IssuedAlias(prims: Primitives, props: Properties, cert: Certificate): (alias: string)
    ensures "Alias" in props ==> alias == ConvertToString(props["Alias"])
    ensures "Alias" !in props ==> alias == prims.thumbprint(cert)
  {
    if "Alias" in props then ConvertToString(props["Alias"]) else prims.thumbprint(cert)
  }

  /** The issued certificate's file: ".pem" is always appended to the alias. */
  function CertificateFilePath(storePath: string, alias: string): (path: string)
    ensures EndsWith(path, Management.PemExtension)
    ensures |path| == |storePath| + |alias| + 5
  {
    CombineKeepsEnding(storePath, alias + Management.PemExtension, Management.PemExtension);
    Combine(storePath, alias + Management.PemExtension)
  }

  /**
   * What ProcessJob returns and leaves behind, given what the callback answered. With no
   * certificate nothing changes; the job reports Success unless recording the metadata throws.
   */
  function ProcessJobOutcome(prims: Primitives, config: ReenrollmentJobConfiguration, issued: Option<Certificate>,
                             files: Files): (run: JobRun)
    ensures issued.None? ==> run == JobRun(Ok(Success), files)
    ensures run.result.Ok? ==> run.result.value == Success
    ensures run.result.Err? <==> issued.Some? && ReadParameterFile(files, config.storePath).Err?
    ensures issued.Some? && ReadParameterFile(files, config.storePath).Err? ==>
              var path := CertificateFilePath(config.storePath, IssuedAlias(prims, config.jobProperties, issued.value));
              run == JobRun(Err(UnreadableParameterFile(GetParameterFilePath(config.storePath))),
                            files[path := Text(prims.toPem(issued.value, None))])
  {
    match issued
    case None => JobRun(Ok(Success), files)
    case Some(cert) =>
      var alias := IssuedAlias(prims, config.jobProperties, cert);
      var filePath := CertificateFilePath(config.storePath, alias);
      var written := files[filePath := Text(prims.toPem(cert, None))];
      PemFileIsNotParameterFile(filePath, config.storePath);
      match AddOrUpdate(written, config.storePath, alias, Some(config.jobProperties))
      case Err(e) => JobRun(Err(e), written)
      case Ok(after) => JobRun(Ok(Success), after)
  }

  /** With an issued certificate, its PEM file is written and the side-file records the job properties for its alias. */
  lemma IssuedCertificateStored(prims: Primitives, config: ReenrollmentJobConfiguration, cert: Certificate, files: Files)
    requires ReadParameterFile(files, config.storePath).Ok?
    ensures var alias := IssuedAlias(prims, config.jobProperties, cert);
            var path := CertificateFilePath(config.storePath, alias);
            var sideFile := GetParameterFilePath(config.storePath);
            var run := ProcessJobOutcome(prims, config, Some(cert), files);
            && run.result == Ok(Success)
            && path in run.files
            && run.files[path] == Text(prims.toPem(cert, None))
            && ReadParameterFile(run.files, config.storePath)
               == Ok(ReadParameterFile(files, config.storePath).value[alias := Some(config.jobProperties)])
            && run.files - {path, sideFile} == files - {path, sideFile}
  {
    var alias := IssuedAlias(prims, config.jobProperties, cert);
    var path := CertificateFilePath(config.storePath, alias);
    var sideFile := GetParameterFilePath(config.storePath);
    var written := files[path := Text(prims.toPem(cert, None))];
    PemFileIsNotParameterFile(path, config.storePath);
    assert ReadParameterFile(written, config.storePath) == ReadParameterFile(files, config.storePath);
    var after := AddOrUpdate(written, config.storePath, alias, Some(config.jobProperties)).value;
    assert after - {sideFile} == written - {sideFile};
    assert path in after - {sideFile};
    assert after[path] == (after - {sideFile})[path] == written[path];
    assert after - {path, sideFile} == (after - {sideFile}) - {path};
    assert files - {path, sideFile} == (written - {sideFile}) - {path};
  }

  /**
   * The file name agrees with the management job's for an alias not ending in ".pem" and
   * differs for one that does: reenrollment doubles the extension where management does not.
   */
  lemma FilePathAgainstManagement(storePath: string, alias: string)
    ensures !EndsWith(alias, Management.PemExtension) ==>
              CertificateFilePath(storePath, alias) == Management.GetFullFilePath(storePath, Some(alias)).value
    ensures EndsWith(alias, Management.PemExtension) ==>
              CertificateFilePath(storePath, alias) != Management.GetFullFilePath(storePath, Some(alias)).value
  {
    if EndsWith(alias, Management.PemExtension) {
      assert |Management.GetFullFilePath(storePath, Some(alias)).value| == |storePath| + 1 + |alias|;
    }
  }

  /** AddCert: write the certificate's PEM text, with headers and no password, to the path. */
  method AddCert(fs: FileSystem, prims: Primitives, cert: Certificate, fullPath: string)
    modifies fs
    ensures fs.files == old(fs.files)[fullPath := Text(prims.toPem(cert, None))]
  {
    var pemString := prims.toPem(cert, None);
    fs.WriteAllText(fullPath, Text(pemString));
  }

  /**
   * ProcessJob: `pkcs10` gives the base64 PKCS#10 request that a freshly generated RSA-2048
   * key yields for a subject, or None when key generation or encoding throws (a subject that
   * is not a distinguished name, say); then the exception escapes and no request is sent.
   * Otherwise exactly one request, for the chosen subject, goes to the callback.
   */
  method ProcessJob(fs: FileSystem, prims: Primitives, config: ReenrollmentJobConfiguration,
                    pkcs10: string -> Option<string>, submitReenrollmentUpdate: SubmitReenrollmentCsr)
    returns (r: Result<JobStatus, Exception>)
    modifies fs, submitReenrollmentUpdate
    ensures match pkcs10(SubjectText(config.jobProperties))
            case None =>
              && r == Err(RequestGenerationFailure)
              && fs.files == old(fs.files)
              && submitReenrollmentUpdate.submitted == old(submitReenrollmentUpdate.submitted)
            case Some(csr) =>
              && submitReenrollmentUpdate.submitted == old(submitReenrollmentUpdate.submitted) + [csr]
              && JobRun(r, fs.files) == ProcessJobOutcome(prims, config, submitReenrollmentUpdate.issue(csr), old(fs.files))
  {
    var subjectText := SubjectText(config.jobProperties);
    var request := pkcs10(subjectText);
    if request.None? {
      return Err(RequestGenerationFailure);
    }
    var csrText := request.value;
    var cert := submitReenrollmentUpdate.Invoke(csrText);
    if cert.Some? {
      var alias := IssuedAlias(prims, config.jobProperties, cert.value);
      var filePath := CertificateFilePath(config.storePath, alias);
      AddCert(fs, prims, cert.value, filePath);
      PemFileIsNotParameterFile(filePath, config.storePath);
      var recorded := AddOrUpdateRecord(fs, config.storePath, alias, Some(config.jobProperties));
      if recorded.Fail? {
        return Err(recorded.error);
      }
    }
    r := Ok(Success);
  }
}
