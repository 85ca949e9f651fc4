/**
 * The part of the .NET runtime and of the orchestrator framework that the jobs rely on:
 * ordinal string tests, Convert.ToString on a job property, the certificate primitives
 * (kept as function-valued parameters, since they are foreign library code), the
 * exceptions the core throws and the status a job reports.
 */
module Platform {
  import opened Wrappers

  /** string.EndsWith(ending), taken as an ordinal suffix test. */
  predicate EndsWith(s: string, ending: string) {
    |ending| <= |s| && s[|s| - |ending|..] == ending
  }

  /** char.IsWhiteSpace: the Unicode space, line and paragraph separators and the control characters U+0009-U+000D, U+0085. */
  predicate IsWhiteSpace(c: char) {
    ('\t' <= c <= '\r') || c == ' ' || c == '\U{0085}' || c == '\U{00A0}' || c == '\U{1680}'
    || ('\U{2000}' <= c <= '\U{200A}') || c == '\U{2028}' || c == '\U{2029}' || c == '\U{202F}'
    || c == '\U{205F}' || c == '\U{3000}'
  }

  /** string.IsNullOrWhiteSpace: null, empty, or white space only. */
  predicate IsNullOrWhiteSpace(s: Option<string>) {
    match s
    case None => true
    case Some(str) => forall i :: 0 <= i < |str| ==> IsWhiteSpace(str[i])
  }

  /**
   * A job property value (a `Dictionary<string, object>` entry): null, a string, or any
   * other scalar (number, boolean), carried with the text Convert.ToString gives for it.
   */
  datatype Value = Null | Str(text: string) | Scalar(rendering: string)

  /** A job's property bag. */
  type Properties = map<string, Value>

  /** Convert.ToString(object): the empty string for null, the string itself for a string. */
  function ConvertToString(v: Value): string {
    match v
    case Null => ""
    case Str(text) => text
    case Scalar(rendering) => rendering
  }

  /** A certificate object (X509Certificate2), identified by its encoded bytes. */
  datatype Certificate = Certificate(der: seq<bv8>)

  /**
   * The foreign certificate operations, uninterpreted:
   * - decode: Convert.FromBase64String of the contents, then new X509Certificate2(bytes, password, Exportable);
   *   None when either throws (corrupt data, wrong password);
   * - thumbprint: X509Certificate2.Thumbprint;
   * - toPem: CertificateConverterFactory.FromX509Certificate2(cert, password).ToPEM(includeHeaders: true, password).
   */
  datatype Primitives = Primitives(
    decode: (string, Option<string>) -> Option<Certificate>,
    thumbprint: Certificate -> string,
    toPem: (Certificate, Option<string>) -> string)

  /** The exceptions the core lets escape to the host. */
  datatype Exception =
    | ArgumentNull(paramName: string)            // ArgumentNullException
    | CertificateDecodeFailure                   // thrown by base64 decoding or the X509Certificate2 constructor
    | UnknownOperation(message: string)          // the plain Exception of an unsupported operation type
    | UnreadableParameterFile(path: string)      // the side-file's text does not deserialise to an EntryParameterFile
    | RequestGenerationFailure                   // key generation or PKCS#10 encoding of the request throws

  /** OrchestratorJobStatusJobResult. */
  datatype JobStatus = Success | Failure
}
