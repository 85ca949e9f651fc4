# Certificate-store jobs of the sample universal orchestrator extension, in Dafny

This project models how the sample orchestrator extension changes a certificate store. A
store is a directory that holds one PEM file per certificate and one metadata side-file,
`EntryParameters.json`. The side-file maps each alias to the job properties last recorded
for that alias. The model covers:

- the string extension `EnsureEndsWith` (module `Extensions`);
- the side-file helper `EntryParameterHelper`, which reads the side-file (creating an empty
  one when it is missing), replaces one alias's record, and writes the whole file back;
- the management job (module `Management`). Add picks an alias: the job's alias unless it is
  blank, else the decoded certificate's thumbprint. It writes `<store>/<alias>.pem` and
  records the job properties for that alias. Remove deletes one PEM file, named by the
  alias or else the thumbprint. Every other operation type throws;
- the reenrollment job (module `Reenrollment`). It picks the subject: `subjectText`, else
  `StringEntryParam`, else `CN=Name`. It submits one request through the host's callback.
  Only when a certificate comes back does it write `<store>/<alias>.pem` and record the
  job properties. It reports Success either way.

The state is a `Disk.FileSystem` object. Its one field maps each full path to what the
file there holds: text (a PEM), or the serialised value of an `EntryParameterFile`. The
job methods change that object in place. Each job method is proved equal to a function
of the old files (`ProcessJobOutcome`), and the lemmas state the source's properties
about those functions.

Foreign code stays outside the model:
- Certificate decoding, thumbprints and PEM conversion are function-valued fields of
  `Platform.Primitives`.
- Key generation and PKCS#10 encoding are a parameter `pkcs10` of
  `Reenrollment.ProcessJob`: the key is random, so the request is whatever the environment
  produces for the subject. It may also produce nothing, which stands for the exception
  these steps throw, for instance on a subject that is not a distinguished name.
- The host's callback is the class `Reenrollment.SubmitReenrollmentCsr`. It records every
  request it is given.

A .NET `null` is `None` of `Wrappers.Option`. An exception that escapes to the host is
`Err` of `Wrappers.Result`. `Path.Combine(dir, name)` is `dir + "/" + name`.

Helper functions that carry no contract of their own model the following source lines:
- `Management.GetX509`: Management.cs:88-95.
- `Management.GetPemString`: Management.cs:97-109.
- `Management.RemoveAlias`: Management.cs:51.
- `Management.AddOutcome`: Management.cs:43-49.
- `Management.RemoveOutcome`: Management.cs:50-53.
- `EntryParameterHelper.GetParameterFilePath`: EntryParameterHelper.cs:23-26.
- `EntryParameterHelper.Deserialize`: `JsonConvert.DeserializeObject` at EntryParameterHelper.cs:32.
- `Disk.Combine`: `Path.Combine` at EntryParameterHelper.cs:25, Management.cs:113 and Reenrollment.cs:58.
- `Disk.FileSystem.Exists`: `File.Exists` at EntryParameterHelper.cs:38.
- `Platform.EndsWith`: `string.EndsWith` at Extensions.cs:12.
- `Platform.IsWhiteSpace`: `char.IsWhiteSpace`, which `string.IsNullOrWhiteSpace` applies to each character.
- `Platform.IsNullOrWhiteSpace`: `string.IsNullOrWhiteSpace`.
- `Platform.ConvertToString`: `Convert.ToString`.

Some of the code's behaviour is easy to misread; the model follows the code:
- Remove of a missing file is not an error. `File.Delete` does nothing in that case.
- Only an alias that is null or white space falls back to the thumbprint. An empty alias is
  not the only blank one.
- In reenrollment, an `Alias` key that is present wins even when its value is blank.
- Reenrollment always appends `.pem`, where management uses `EnsureEndsWith`.

## Model

| member | source | states |
|---|---|---|
| Extensions.EnsureEndsWith | UniversalOrchestratorExtensionSample/Extensions.cs:7-16 | null input throws ArgumentNullException("s") and nothing else fails; the result ends with the ending, extends the input, is \|s\| or \|s\|+\|ending\| long, and is the input itself when it already ends with the ending |
| Extensions.EnsureEndsWithAppendsWhenMissing | UniversalOrchestratorExtensionSample/Extensions.cs:12-13 | from the contract alone: when the input lacks the ending, the only admissible result is input + ending |
| Extensions.EnsureEndsWithIdempotent | UniversalOrchestratorExtensionSample/Extensions.cs:12-15 | applying it twice with the same ending equals applying it once |
| Disk.CombineInjective | UniversalOrchestratorExtensionSample/EntryParameterHelper.cs:25 | combining two directories with the same file name gives equal paths only for equal directories |
| Disk.CombineKeepsEnding | UniversalOrchestratorExtensionSample/Jobs/Management.cs:113 | a combined path ends with any ending its file name ends with |
| Disk.FileSystem.WriteAllText | UniversalOrchestratorExtensionSample/Jobs/Management.cs:121 | the one path now holds the new content, created or overwritten; no other file changes |
| Disk.FileSystem.Delete | UniversalOrchestratorExtensionSample/Jobs/Management.cs:130 | the one path is gone, missing or not; no other file changes |
| EntryParameterHelper.EntryParameterFile.constructor | UniversalOrchestratorExtensionSample/EntryParameterHelper.cs:7-10 | a new parameter file holds the empty dictionary |
| EntryParameterHelper.ParameterFilePathsDistinct | UniversalOrchestratorExtensionSample/EntryParameterHelper.cs:23-26 | two different store directories never share a side-file path |
| EntryParameterHelper.PemFileIsNotParameterFile | UniversalOrchestratorExtensionSample/EntryParameterHelper.cs:14 | no path ending in ".pem" is the side-file of any directory, so certificate writes and deletes never touch metadata |
| EntryParameterHelper.WithParameterFile | UniversalOrchestratorExtensionSample/EntryParameterHelper.cs:35-42 | afterwards the side-file exists; an existing one is not written; a missing one is created empty; no other path changes |
| EntryParameterHelper.ReadParameterFile | UniversalOrchestratorExtensionSample/EntryParameterHelper.cs:28-33 | with no side-file the result is the empty dictionary; otherwise the stored dictionary, or an unreadable-file exception exactly when the file does not hold one |
| EntryParameterHelper.AddOrUpdate | UniversalOrchestratorExtensionSample/EntryParameterHelper.cs:16-21 | fails exactly when the side-file is unreadable; on success only the side-file changes, its alias set is the old one plus the alias, the alias maps to exactly the new parameters and every other alias keeps its record |
| EntryParameterHelper.AddOrUpdateLeavesOtherDirectories | UniversalOrchestratorExtensionSample/EntryParameterHelper.cs:16-26 | an update to one directory leaves every other directory's side-file, and what reading it returns, unchanged |
| EntryParameterHelper.AddOrUpdateIdempotent | UniversalOrchestratorExtensionSample/EntryParameterHelper.cs:19-20 | repeating the same update gives the state of doing it once |
| EntryParameterHelper.AddOrUpdateCommutes | UniversalOrchestratorExtensionSample/EntryParameterHelper.cs:19 | updates of two different aliases of one directory give the same state in either order |
| EntryParameterHelper.SetParameterFile | UniversalOrchestratorExtensionSample/EntryParameterHelper.cs:44-47 | the side-file is overwritten with the whole dictionary; nothing else changes |
| EntryParameterHelper.CreateEntryParameterFileIfNotExists | UniversalOrchestratorExtensionSample/EntryParameterHelper.cs:35-42 | the files become those of WithParameterFile |
| EntryParameterHelper.GetParameterFile | UniversalOrchestratorExtensionSample/EntryParameterHelper.cs:28-33 | creates a missing side-file, then returns a fresh object holding what ReadParameterFile gives, or its exception |
| EntryParameterHelper.AddOrUpdateRecord | UniversalOrchestratorExtensionSample/EntryParameterHelper.cs:16-21 | the files become those of AddOrUpdate, or stay as they were when the exception escapes |
| Management.GetThumbprint | UniversalOrchestratorExtensionSample/Jobs/Management.cs:74-86 | a non-blank alias is used as it is without decoding; otherwise the decoded certificate's thumbprint; it throws exactly when it must decode and decoding fails |
| Management.GetFullFilePath | UniversalOrchestratorExtensionSample/Jobs/Management.cs:111-114 | throws exactly for a null file name; the path always ends in ".pem"; a name already ending in ".pem" is not doubled; any other name gets ".pem" appended |
| Management.ProcessJobOutcome | UniversalOrchestratorExtensionSample/Jobs/Management.cs:17-72 | an unsupported type throws "Unknown Type: ..." and changes nothing; Success is the only status and comes only from a completed Add (the certificate decoded and the side-file readable) or Remove (some alias or thumbprint given) |
| Management.AddStoresCertificateAndRecord | UniversalOrchestratorExtensionSample/Jobs/Management.cs:43-48 | after a successful Add the target file holds the certificate's PEM whatever it held before, the side-file records alias to job properties on top of its old records, and no other file changes |
| Management.AddFailureEffects | UniversalOrchestratorExtensionSample/Jobs/Management.cs:43-48 | Add succeeds exactly when decoding works and the side-file is readable; a decoding failure changes nothing; an unreadable side-file leaves the PEM written and throws |
| Management.RemoveDeletesOnlyTarget | UniversalOrchestratorExtensionSample/Jobs/Management.cs:50-53 | Remove deletes exactly the file named by the non-blank alias, else by the thumbprint; with neither it throws ArgumentNullException and changes nothing; no side-file of any directory changes |
| Management.AddThenRemoveRestoresFiles | UniversalOrchestratorExtensionSample/Jobs/Management.cs:43-53 | removing by the same alias, or by the decoded certificate's thumbprint, what an Add created restores every file except the side-file, which keeps the new record |
| Management.AddCert | UniversalOrchestratorExtensionSample/Jobs/Management.cs:116-124 | writes the PEM to the path, or throws the decoding failure and writes nothing |
| Management.RemoveCert | UniversalOrchestratorExtensionSample/Jobs/Management.cs:126-133 | deletes exactly the path |
| Management.ProcessJob | UniversalOrchestratorExtensionSample/Jobs/Management.cs:17-72 | its result and the files it leaves are those of ProcessJobOutcome |
| Reenrollment.SubmitReenrollmentCsr.Invoke | UniversalOrchestratorExtensionSample/Jobs/Reenrollment.cs:53 | the request is appended to what the callback has received, and the answer is the authority's for it |
| Reenrollment.SubjectText | UniversalOrchestratorExtensionSample/Jobs/Reenrollment.cs:29-43 | subjectText if that key is present, else StringEntryParam if present, else "CN=Name" |
| Reenrollment.IssuedAlias | UniversalOrchestratorExtensionSample/Jobs/Reenrollment.cs:57 | the Alias property whenever the key is present, blank or not, else the certificate's thumbprint |
| Reenrollment.CertificateFilePath | UniversalOrchestratorExtensionSample/Jobs/Reenrollment.cs:58 | the path ends in ".pem" and is always five characters longer than store path plus alias: ".pem" is appended every time |
| Reenrollment.ProcessJobOutcome | UniversalOrchestratorExtensionSample/Jobs/Reenrollment.cs:53-66 | with no certificate nothing changes and the job succeeds; the only status is Success; it throws exactly when a certificate came back and the side-file is unreadable, and then leaves the PEM file written |
| Reenrollment.IssuedCertificateStored | UniversalOrchestratorExtensionSample/Jobs/Reenrollment.cs:55-61 | with an issued certificate and a readable side-file: Success, the file holds the certificate's PEM, the side-file records alias to the job properties, and no other file changes |
| Reenrollment.FilePathAgainstManagement | UniversalOrchestratorExtensionSample/Jobs/Reenrollment.cs:58 | the file path equals the management job's for an alias not ending in ".pem", and differs from it for one that does |
| Reenrollment.AddCert | UniversalOrchestratorExtensionSample/Jobs/Reenrollment.cs:69-77 | writes the certificate's PEM, with headers and no password, to the path |
| Reenrollment.ProcessJob | UniversalOrchestratorExtensionSample/Jobs/Reenrollment.cs:16-67 | when generating the request for the chosen subject throws, the exception escapes, no request is sent and nothing changes; otherwise exactly that one request reaches the callback, and the result and the files it leaves are those of ProcessJobOutcome for the callback's answer |

## Left out

- Inventory job (Jobs/Inventory.cs): it submits an empty list and maps the callback's boolean to a status. It holds no store logic.
- PropertyReader.GetDynamicProperties: reflection and file reading of an assembly-local JSON file, outside the store.
- JSON text: the side-file is kept as its deserialised dictionary. A property value reads back as the same `Value` it was written as, whereas Newtonsoft gives back an `object` value as a long, double, DateTime or JToken. Any failure to deserialise is one abstract outcome, `UnreadableParameterFile`. A side-file whose text is the JSON `null`, which makes line 19 throw NullReferenceException, is folded into that outcome too.
- Host-supplied strings taken as non-null: the certificate contents (a null makes `Convert.FromBase64String` throw at Management.cs:94), the ending given to `EnsureEndsWith` (a null makes `string.EndsWith` throw, so its "nothing else fails" holds for non-null endings only) and the store path (a null makes `Path.Combine` throw).
- Certificate primitives: base64 decoding, `X509Certificate2`, `Thumbprint`, PEM conversion, RSA key generation and PKCS#10 encoding. They are uninterpreted parameters. PEM conversion is taken as never throwing.
- File-system failures: missing directories, permissions, I/O errors. Writes and deletes are total.
- Path.Combine edge cases: an empty directory, a directory already ending in a separator, and a rooted or separator-bearing file name are not modelled.
- Culture-sensitive `string.EndsWith`: modelled as an ordinal suffix test.
- Concurrency between jobs on one directory, including the lost update when two jobs rewrite the side-file: the model is sequential.
- Logging, `JobHistoryId`, and the loops that only log job properties.
- A null JobProperties in a reenrollment job: the source's logging loop would throw before any work. The model takes the properties as present.
- `Convert.ToString` of numbers and booleans: each such value carries its rendering, so culture formatting is not modelled.
- Disk.FileSystem.Delete: a path that is a directory is not distinguished from a file.
