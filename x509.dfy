/**
 * The domain codes of Go's crypto/x509 and crypto/x509/pkix packages that the
 * translation layer produces. Those packages are not part of this model; only the
 * codes the parsers return are declared here, in the packages' declaration order.
 */
module X509 {

  /** The key-usage flags of section 4.2.1.3 of RFC 5280, as Go numbers them. */
  datatype KeyUsage =
    | DigitalSignature | ContentCommitment | KeyEncipherment | DataEncipherment
    | KeyAgreement | CertSign | CRLSign | EncipherOnly | DecipherOnly

  /** Go's `KeyUsage` is a bitmask; the flags occupy bits 0 to 8. */
  type KeyUsageMask = bv16

  /** Bit `1 << n` of the n-th flag (Go: `KeyUsageDigitalSignature KeyUsage = 1 << iota`). */
  function Bit(u: KeyUsage): (b: KeyUsageMask)
    ensures b & !AllKeyUsageBits == 0 && b != 0
  {
    match u
    case DigitalSignature => 0x0001
    case ContentCommitment => 0x0002
    case KeyEncipherment => 0x0004
    case DataEncipherment => 0x0008
    case KeyAgreement => 0x0010
    case CertSign => 0x0020
    case CRLSign => 0x0040
    case EncipherOnly => 0x0080
    case DecipherOnly => 0x0100
  }

  /** The nine defined bits together. */
  const AllKeyUsageBits: KeyUsageMask := 0x01FF

  /** Distinct flags own distinct bits: the bits of two flags overlap exactly when the flags are equal. */
  lemma BitsDisjoint(u: KeyUsage, v: KeyUsage)
    ensures (Bit(u) & Bit(v) != 0) <==> u == v
  {
  }

  /** A mask without stray bits is determined by which of the nine flags it has. */
  lemma MaskDeterminedByFlags(m1: KeyUsageMask, m2: KeyUsageMask)
    requires m1 & !AllKeyUsageBits == 0 && m2 & !AllKeyUsageBits == 0
    requires forall u: KeyUsage :: (m1 & Bit(u) != 0) <==> (m2 & Bit(u) != 0)
    ensures m1 == m2
  {
    var bits := [Bit(DigitalSignature), Bit(ContentCommitment), Bit(KeyEncipherment),
                 Bit(DataEncipherment), Bit(KeyAgreement), Bit(CertSign), Bit(CRLSign),
                 Bit(EncipherOnly), Bit(DecipherOnly)];
    assert bits == [0x0001, 0x0002, 0x0004, 0x0008, 0x0010, 0x0020, 0x0040, 0x0080, 0x0100];
    SameLowBits(m1, m2);
  }

  /** Bit-level step of MaskDeterminedByFlags. */
  lemma SameLowBits(x: bv16, y: bv16)
    requires x & !0x01FF == 0 && y & !0x01FF == 0
    requires (x & 0x0001 != 0) <==> (y & 0x0001 != 0)
    requires (x & 0x0002 != 0) <==> (y & 0x0002 != 0)
    requires (x & 0x0004 != 0) <==> (y & 0x0004 != 0)
    requires (x & 0x0008 != 0) <==> (y & 0x0008 != 0)
    requires (x & 0x0010 != 0) <==> (y & 0x0010 != 0)
    requires (x & 0x0020 != 0) <==> (y & 0x0020 != 0)
    requires (x & 0x0040 != 0) <==> (y & 0x0040 != 0)
    requires (x & 0x0080 != 0) <==> (y & 0x0080 != 0)
    requires (x & 0x0100 != 0) <==> (y & 0x0100 != 0)
    ensures x == y
  {
  }

  /** Extended key usages of section 4.2.1.12 of RFC 5280, in Go's order. */
  datatype ExtKeyUsage =
    | ExtKeyUsageAny | ExtKeyUsageServerAuth | ExtKeyUsageClientAuth | ExtKeyUsageCodeSigning
    | ExtKeyUsageEmailProtection | ExtKeyUsageIPSECEndSystem | ExtKeyUsageIPSECTunnel
    | ExtKeyUsageIPSECUser | ExtKeyUsageTimeStamping | ExtKeyUsageOCSPSigning
    | ExtKeyUsageMicrosoftServerGatedCrypto | ExtKeyUsageNetscapeServerGatedCrypto
    | ExtKeyUsageMicrosoftCommercialCodeSigning | ExtKeyUsageMicrosoftKernelCodeSigning

  /** Signature algorithms, with Go's sentinel for anything unrecognised. */
  datatype SignatureAlgorithm =
    | UnknownSignatureAlgorithm
    | MD2WithRSA | MD5WithRSA | SHA1WithRSA | SHA256WithRSA | SHA384WithRSA | SHA512WithRSA
    | DSAWithSHA1 | DSAWithSHA256
    | ECDSAWithSHA1 | ECDSAWithSHA256 | ECDSAWithSHA384 | ECDSAWithSHA512
    | SHA256WithRSAPSS | SHA384WithRSAPSS | SHA512WithRSAPSS | PureEd25519

  /** Public-key algorithms, with Go's sentinel for anything unrecognised. */
  datatype PublicKeyAlgorithm = UnknownPublicKeyAlgorithm | RSA | DSA | ECDSA | Ed25519

  /** The attributes of pkix.Name that the name translation fills in. */
  datatype Name = Name(
    country: seq<string>,
    organization: seq<string>,
    organizationalUnit: seq<string>,
    locality: seq<string>,
    province: seq<string>,
    streetAddress: seq<string>,
    postalCode: seq<string>,
    serialNumber: string,
    commonName: string)

  /** The zero value `pkix.Name{}`. */
  const EmptyName := Name([], [], [], [], [], [], [], "", "")
}
