/**
 * The data model of internal/types.go: a certificate specification as read
 * from the configuration document, and the configuration document itself.
 */
module Types {
  import opened Wrappers

  /**
   * CertificateSpec. Scalar strings are "" when absent; `subject` and `issuer`
   * keep Go's distinction between a nil map (None) and an empty one; the six
   * lists are ordered; the four basic-constraints fields have no absent state.
   */
  datatype CertificateSpec = CertificateSpec(
    serialNumber: string,
    subject: Option<map<string, string>>,
    issuer: Option<map<string, string>>,
    notBefore: string,
    notAfter: string,
    keyUsage: seq<string>,
    extKeyUsage: seq<string>,
    dnsNames: seq<string>,
    emailAddresses: seq<string>,
    ipAddresses: seq<string>,
    uris: seq<string>,
    isCA: bool,
    maxPathLen: int,
    maxPathLenZero: bool,
    basicConstraintsValid: bool,
    signatureAlgorithm: string,
    publicKeyAlgorithm: string)

  /** The zero value `CertificateSpec{}`. */
  const EmptySpec := CertificateSpec("", None, None, "", "", [], [], [], [], [], [],
                                     false, 0, false, false, "", "")

  /**
   * The parsed document: an optional final `config` layer, the ordered `merge`
   * list of segment names and the `segments` table. A segment may be present
   * with a nil specification (a key with no value).
   */
  datatype ConfigDocument = ConfigDocument(
    config: Option<CertificateSpec>,
    merge: seq<string>,
    segments: map<string, Option<CertificateSpec>>)

  // Field views, so that one property can be stated for every field of a class.

  /** The five scalar string fields. */
  datatype TextField = SerialNumber | NotBefore | NotAfter | SignatureAlgorithm | PublicKeyAlgorithm

  function Text(s: CertificateSpec, f: TextField): string {
    match f
    case SerialNumber => s.serialNumber
    case NotBefore => s.notBefore
    case NotAfter => s.notAfter
    case SignatureAlgorithm => s.signatureAlgorithm
    case PublicKeyAlgorithm => s.publicKeyAlgorithm
  }

  /** The two distinguished-name maps. */
  datatype NameField = Subject | Issuer

  function Names(s: CertificateSpec, f: NameField): Option<map<string, string>> {
    match f
    case Subject => s.subject
    case Issuer => s.issuer
  }

  /** The six list fields. */
  datatype ListField = KeyUsage | ExtKeyUsage | DnsNames | EmailAddresses | IpAddresses | Uris

  function Items(s: CertificateSpec, f: ListField): seq<string> {
    match f
    case KeyUsage => s.keyUsage
    case ExtKeyUsage => s.extKeyUsage
    case DnsNames => s.dnsNames
    case EmailAddresses => s.emailAddresses
    case IpAddresses => s.ipAddresses
    case Uris => s.uris
  }
}
