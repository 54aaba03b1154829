/**
 * The five closed, case-sensitive vocabularies of internal/constants.go.
 * Each vocabulary is also listed as a sequence, in declaration order, so that
 * properties can quantify over "every known token".
 */
module Constants {

  // Distinguished-name field tokens (section 4.1.2.4 of RFC 5280)
  const DNCommonName := "common_name"
  const DNCountry := "country"
  const DNOrganization := "organization"
  const DNOrganizationalUnit := "organizational_unit"
  const DNLocality := "locality"
  const DNProvince := "province"
  const DNStreetAddress := "street_address"
  const DNPostalCode := "postal_code"
  const DNSerialNumber := "serial_number"

  // Key-usage tokens (section 4.2.1.3 of RFC 5280)
  const KeyUsageDigitalSignature := "digital_signature"
  const KeyUsageContentCommitment := "content_commitment"
  const KeyUsageKeyEncipherment := "key_encipherment"
  const KeyUsageDataEncipherment := "data_encipherment"
  const KeyUsageKeyAgreement := "key_agreement"
  const KeyUsageCertSign := "cert_sign"
  const KeyUsageCRLSign := "crl_sign"
  const KeyUsageEncipherOnly := "encipher_only"
  const KeyUsageDecipherOnly := "decipher_only"

  // Extended-key-usage tokens (section 4.2.1.12 of RFC 5280)
  const ExtKeyUsageAny := "any"
  const ExtKeyUsageServerAuth := "server_auth"
  const ExtKeyUsageClientAuth := "client_auth"
  const ExtKeyUsageCodeSigning := "code_signing"
  const ExtKeyUsageEmailProtection := "email_protection"
  const ExtKeyUsageIPSECEndSystem := "ipsec_end_system"
  const ExtKeyUsageIPSECTunnel := "ipsec_tunnel"
  const ExtKeyUsageIPSECUser := "ipsec_user"
  const ExtKeyUsageTimeStamping := "time_stamping"
  const ExtKeyUsageOCSPSigning := "ocsp_signing"
  const ExtKeyUsageMicrosoftServerGatedCrypto := "microsoft_server_gated_crypto"
  const ExtKeyUsageNetscapeServerGatedCrypto := "netscape_server_gated_crypto"
  const ExtKeyUsageMicrosoftCommercialCodeSigning := "microsoft_commercial_code_signing"
  const ExtKeyUsageMicrosoftKernelCodeSigning := "microsoft_kernel_code_signing"

  // Signature-algorithm tokens
  const SigAlgMD2WithRSA := "MD2WithRSA"
  const SigAlgMD5WithRSA := "MD5WithRSA"
  const SigAlgSHA1WithRSA := "SHA1WithRSA"
  const SigAlgSHA256WithRSA := "SHA256WithRSA"
  const SigAlgSHA384WithRSA := "SHA384WithRSA"
  const SigAlgSHA512WithRSA := "SHA512WithRSA"
  const SigAlgDSAWithSHA1 := "DSAWithSHA1"
  const SigAlgDSAWithSHA256 := "DSAWithSHA256"
  const SigAlgECDSAWithSHA1 := "ECDSAWithSHA1"
  const SigAlgECDSAWithSHA256 := "ECDSAWithSHA256"
  const SigAlgECDSAWithSHA384 := "ECDSAWithSHA384"
  const SigAlgECDSAWithSHA512 := "ECDSAWithSHA512"
  const SigAlgSHA256WithRSAPSS := "SHA256WithRSAPSS"
  const SigAlgSHA384WithRSAPSS := "SHA384WithRSAPSS"
  const SigAlgSHA512WithRSAPSS := "SHA512WithRSAPSS"
  const SigAlgPureEd25519 := "PureEd25519"

  // Public-key-algorithm tokens
  const PubKeyAlgRSA := "RSA"
  const PubKeyAlgDSA := "DSA"
  const PubKeyAlgECDSA := "ECDSA"
  const PubKeyAlgEd25519 := "Ed25519"

  const DNFieldTokens: seq<string> := [
    DNCommonName, DNCountry, DNOrganization, DNOrganizationalUnit, DNLocality,
    DNProvince, DNStreetAddress, DNPostalCode, DNSerialNumber]

  const KeyUsageTokens: seq<string> := [
    KeyUsageDigitalSignature, KeyUsageContentCommitment, KeyUsageKeyEncipherment,
    KeyUsageDataEncipherment, KeyUsageKeyAgreement, KeyUsageCertSign,
    KeyUsageCRLSign, KeyUsageEncipherOnly, KeyUsageDecipherOnly]

  const ExtKeyUsageTokens: seq<string> := [
    ExtKeyUsageAny, ExtKeyUsageServerAuth, ExtKeyUsageClientAuth, ExtKeyUsageCodeSigning,
    ExtKeyUsageEmailProtection, ExtKeyUsageIPSECEndSystem, ExtKeyUsageIPSECTunnel,
    ExtKeyUsageIPSECUser, ExtKeyUsageTimeStamping, ExtKeyUsageOCSPSigning,
    ExtKeyUsageMicrosoftServerGatedCrypto, ExtKeyUsageNetscapeServerGatedCrypto,
    ExtKeyUsageMicrosoftCommercialCodeSigning, ExtKeyUsageMicrosoftKernelCodeSigning]

  const SignatureAlgorithmTokens: seq<string> := [
    SigAlgMD2WithRSA, SigAlgMD5WithRSA, SigAlgSHA1WithRSA, SigAlgSHA256WithRSA,
    SigAlgSHA384WithRSA, SigAlgSHA512WithRSA, SigAlgDSAWithSHA1, SigAlgDSAWithSHA256,
    SigAlgECDSAWithSHA1, SigAlgECDSAWithSHA256, SigAlgECDSAWithSHA384, SigAlgECDSAWithSHA512,
    SigAlgSHA256WithRSAPSS, SigAlgSHA384WithRSAPSS, SigAlgSHA512WithRSAPSS, SigAlgPureEd25519]

  const PublicKeyAlgorithmTokens: seq<string> := [
    PubKeyAlgRSA, PubKeyAlgDSA, PubKeyAlgECDSA, PubKeyAlgEd25519]

  /** No token occurs twice in `tokens`. */
  predicate Distinct(tokens: seq<string>) {
    forall i, j | 0 <= i < j < |tokens| :: tokens[i] != tokens[j]
  }

  /** Each vocabulary has the size the source declares, and no two of its tokens coincide. */
  lemma VocabulariesAreDistinct()
    ensures |DNFieldTokens| == 9 && Distinct(DNFieldTokens)
    ensures |KeyUsageTokens| == 9 && Distinct(KeyUsageTokens)
    ensures |ExtKeyUsageTokens| == 14 && Distinct(ExtKeyUsageTokens)
    ensures |SignatureAlgorithmTokens| == 16 && Distinct(SignatureAlgorithmTokens)
    ensures |PublicKeyAlgorithmTokens| == 4 && Distinct(PublicKeyAlgorithmTokens)
  {
  }

  /** The empty string is no algorithm token, so "" always falls through to the unknown code. */
  lemma NoEmptyAlgorithmToken()
    ensures "" !in SignatureAlgorithmTokens
    ensures "" !in PublicKeyAlgorithmTokens
  {
  }
}
