/**
 * The translation layer of internal/parsers.go: human-readable tokens become
 * X.509 domain codes. Every translation is total; unknown tokens are dropped
 * (name attributes, key usages, extended key usages) or become the "unknown"
 * sentinel (signature and public-key algorithms).
 */
module Parsers {
  import opened Wrappers
  import opened Constants
  import opened X509

  // ---------------------------------------------------------------- names

  /** Go's `v, ok := nameMap[key]`; a nil map has no keys. */
  function Lookup(nameMap: Option<map<string, string>>, key: string): Option<string> {
    if nameMap.Some? && key in nameMap.value then Some(nameMap.value[key]) else None
  }

  /** The one-element list an attribute becomes when its key is present, else the empty list. */
  function AsList(v: Option<string>): seq<string> {
    match v
    case Some(s) => [s]
    case None => []
  }

  /**
   * `name` holds, for each of the nine distinguished-name tokens present in the
   * map, its value: as a plain string for the common name and the serial number,
   * as a one-element list for the other seven. An absent token leaves its
   * attribute empty. No other key is consulted.
   */
  ghost predicate CopiesKnownFields(nameMap: Option<map<string, string>>, name: Name) {
    && name.commonName == Lookup(nameMap, DNCommonName).GetOr("")
    && name.country == AsList(Lookup(nameMap, DNCountry))
    && name.organization == AsList(Lookup(nameMap, DNOrganization))
    && name.organizationalUnit == AsList(Lookup(nameMap, DNOrganizationalUnit))
    && name.locality == AsList(Lookup(nameMap, DNLocality))
    && name.province == AsList(Lookup(nameMap, DNProvince))
    && name.streetAddress == AsList(Lookup(nameMap, DNStreetAddress))
    && name.postalCode == AsList(Lookup(nameMap, DNPostalCode))
    && name.serialNumber == Lookup(nameMap, DNSerialNumber).GetOr("")
  }

  /**
   * ParsePkixName: for each of the nine distinguished-name tokens present in
   * the map, copies its value into the matching attribute (a plain string for
   * the common name and the serial number, a one-element list for the other
   * seven); an absent token leaves its attribute empty. The attributes are
   * gathered one by one and the name is assembled at the end; each `assert`
   * records what one step established, which keeps the proof linear in the
   * number of steps.
   */
  method ParsePkixName(nameMap: Option<map<string, string>>) returns (name: Name)
    ensures CopiesKnownFields(nameMap, name)
    ensures nameMap.None? ==> name == EmptyName
  {
    var commonName, serialNumber := "", "";
    var country, organization, organizationalUnit: seq<string> := [], [], [];
    var locality, province, streetAddress, postalCode: seq<string> := [], [], [], [];
    var v := Lookup(nameMap, DNCommonName);
    if v.Some? { commonName := v.value; }
    assert commonName == Lookup(nameMap, DNCommonName).GetOr("");
    v := Lookup(nameMap, DNCountry);
    if v.Some? { country := [v.value]; }
    assert country == AsList(Lookup(nameMap, DNCountry));
    v := Lookup(nameMap, DNOrganization);
    if v.Some? { organization := [v.value]; }
    assert organization == AsList(Lookup(nameMap, DNOrganization));
    v := Lookup(nameMap, DNOrganizationalUnit);
    if v.Some? { organizationalUnit := [v.value]; }
    assert organizationalUnit == AsList(Lookup(nameMap, DNOrganizationalUnit));
    v := Lookup(nameMap, DNLocality);
    if v.Some? { locality := [v.value]; }
    assert locality == AsList(Lookup(nameMap, DNLocality));
    v := Lookup(nameMap, DNProvince);
    if v.Some? { province := [v.value]; }
    assert province == AsList(Lookup(nameMap, DNProvince));
    v := Lookup(nameMap, DNStreetAddress);
    if v.Some? { streetAddress := [v.value]; }
    assert streetAddress == AsList(Lookup(nameMap, DNStreetAddress));
    v := Lookup(nameMap, DNPostalCode);
    if v.Some? { postalCode := [v.value]; }
    assert postalCode == AsList(Lookup(nameMap, DNPostalCode));
    v := Lookup(nameMap, DNSerialNumber);
    if v.Some? { serialNumber := v.value; }
    assert serialNumber == Lookup(nameMap, DNSerialNumber).GetOr("");
    name := Name(country, organization, organizationalUnit, locality, province,
                 streetAddress, postalCode, serialNumber, commonName);
  }

  /**
   * A name depends only on the nine distinguished-name tokens: maps that agree
   * on them give the same name, whatever other keys either one holds.
   */
  lemma NameDependsOnlyOnKnownKeys(m1: Option<map<string, string>>, n1: Name, m2: Option<map<string, string>>, n2: Name)
    requires CopiesKnownFields(m1, n1) && CopiesKnownFields(m2, n2)
    requires forall key | key in DNFieldTokens :: Lookup(m1, key) == Lookup(m2, key)
    ensures n1 == n2
  {
  }

  // ----------------------------------------------------------- key usage

  /** The token the key-usage switch matches for each flag. */
  function KeyUsageToken(u: KeyUsage): string {
    match u
    case DigitalSignature => KeyUsageDigitalSignature
    case ContentCommitment => KeyUsageContentCommitment
    case KeyEncipherment => KeyUsageKeyEncipherment
    case DataEncipherment => KeyUsageDataEncipherment
    case KeyAgreement => KeyUsageKeyAgreement
    case CertSign => KeyUsageCertSign
    case CRLSign => KeyUsageCRLSign
    case EncipherOnly => KeyUsageEncipherOnly
    case DecipherOnly => KeyUsageDecipherOnly
  }

  /** The case of the key-usage switch a token selects, if any. */
  function KeyUsageOf(token: string): (r: Option<KeyUsage>)
    ensures r.Some? <==> token in KeyUsageTokens
    ensures r.Some? ==> KeyUsageToken(r.value) == token
  {
    if token == KeyUsageDigitalSignature then Some(DigitalSignature)
    else if token == KeyUsageContentCommitment then Some(ContentCommitment)
    else if token == KeyUsageKeyEncipherment then Some(KeyEncipherment)
    else if token == KeyUsageDataEncipherment then Some(DataEncipherment)
    else if token == KeyUsageKeyAgreement then Some(KeyAgreement)
    else if token == KeyUsageCertSign then Some(CertSign)
    else if token == KeyUsageCRLSign then Some(CRLSign)
    else if token == KeyUsageEncipherOnly then Some(EncipherOnly)
    else if token == KeyUsageDecipherOnly then Some(DecipherOnly)
    else None
  }

  /** Every flag's token selects that flag, so a token names at most one flag. */
  lemma KeyUsageRoundTrip(u: KeyUsage)
    ensures KeyUsageOf(KeyUsageToken(u)) == Some(u)
  {
  }

  /** `mask` has exactly the bits of the flags whose tokens occur in `usages`. */
  ghost predicate IsMaskOf(mask: KeyUsageMask, usages: seq<string>) {
    && (forall u: KeyUsage :: (mask & Bit(u) != 0) <==> KeyUsageToken(u) in usages)
    && mask & !AllKeyUsageBits == 0
  }

  /**
   * ParseKeyUsage: ORs into an initially zero mask the bit of every recognised
   * token and skips the others. A bit is set exactly when its token occurs.
   */
  method ParseKeyUsage(usages: seq<string>) returns (mask: KeyUsageMask)
    ensures IsMaskOf(mask, usages)
  {
    mask := 0;
    for i := 0 to |usages|
      invariant IsMaskOf(mask, usages[..i])
    {
      var before := mask;
      var flag := KeyUsageOf(usages[i]);
      if flag.Some? {
        mask := mask | Bit(flag.value);
      }
      assert usages[..i + 1] == usages[..i] + [usages[i]];
      MaskStep(before, mask, usages[..i], usages[i]);
    }
    assert usages[..|usages|] == usages;
  }

  /** One iteration of ParseKeyUsage keeps the mask exact. */
  lemma MaskStep(before: KeyUsageMask, after: KeyUsageMask, prefix: seq<string>, token: string)
    requires IsMaskOf(before, prefix)
    requires after == if KeyUsageOf(token).Some? then before | Bit(KeyUsageOf(token).value) else before
    ensures IsMaskOf(after, prefix + [token])
  {
    var flag := KeyUsageOf(token);
    forall u: KeyUsage
      ensures (after & Bit(u) != 0) <==> KeyUsageToken(u) in prefix + [token]
    {
      KeyUsageRoundTrip(u);
      if flag.Some? {
        BitsDisjoint(flag.value, u);
      }
    }
  }

  /**
   * A mask is determined by which flags' tokens occur: the order of the tokens,
   * repeated tokens and unrecognised tokens make no difference.
   */
  lemma MaskDeterminedByTokens(m1: KeyUsageMask, usages1: seq<string>, m2: KeyUsageMask, usages2: seq<string>)
    requires IsMaskOf(m1, usages1) && IsMaskOf(m2, usages2)
    requires forall u: KeyUsage :: KeyUsageToken(u) in usages1 <==> KeyUsageToken(u) in usages2
    ensures m1 == m2
  {
    forall u: KeyUsage ensures (m1 & Bit(u) != 0) <==> (m2 & Bit(u) != 0) {
    }
    MaskDeterminedByFlags(m1, m2);
  }

  /** No recognised token (in particular a nil or empty list) gives the zero mask. */
  lemma NoKnownTokenGivesZero(mask: KeyUsageMask, usages: seq<string>)
    requires IsMaskOf(mask, usages)
    requires forall t | t in usages :: t !in KeyUsageTokens
    ensures mask == 0
  {
    forall u: KeyUsage ensures KeyUsageToken(u) !in usages {
      KeyUsageRoundTrip(u);
    }
    assert IsMaskOf(0, []);
    MaskDeterminedByTokens(mask, usages, 0, []);
  }

  /** `[digital_signature, key_encipherment]` sets exactly those two bits. */
  lemma TwoFlagsExample(mask: KeyUsageMask)
    requires IsMaskOf(mask, [KeyUsageDigitalSignature, KeyUsageKeyEncipherment])
    ensures mask == Bit(DigitalSignature) | Bit(KeyEncipherment)
  {
    var usages := [KeyUsageDigitalSignature, KeyUsageKeyEncipherment];
    forall u: KeyUsage
      ensures (0x0005 & Bit(u) != 0) <==> KeyUsageToken(u) in usages
    {
      KeyUsageRoundTrip(u);
    }
    MaskDeterminedByTokens(mask, usages, 0x0005, usages);
  }

  // --------------------------------------------------- extended key usage

  /** The token the extended-key-usage switch matches for each code. */
  function ExtKeyUsageToken(e: ExtKeyUsage): string {
    match e
    case ExtKeyUsageAny => Constants.ExtKeyUsageAny
    case ExtKeyUsageServerAuth => Constants.ExtKeyUsageServerAuth
    case ExtKeyUsageClientAuth => Constants.ExtKeyUsageClientAuth
    case ExtKeyUsageCodeSigning => Constants.ExtKeyUsageCodeSigning
    case ExtKeyUsageEmailProtection => Constants.ExtKeyUsageEmailProtection
    case ExtKeyUsageIPSECEndSystem => Constants.ExtKeyUsageIPSECEndSystem
    case ExtKeyUsageIPSECTunnel => Constants.ExtKeyUsageIPSECTunnel
    case ExtKeyUsageIPSECUser => Constants.ExtKeyUsageIPSECUser
    case ExtKeyUsageTimeStamping => Constants.ExtKeyUsageTimeStamping
    case ExtKeyUsageOCSPSigning => Constants.ExtKeyUsageOCSPSigning
    case ExtKeyUsageMicrosoftServerGatedCrypto => Constants.ExtKeyUsageMicrosoftServerGatedCrypto
    case ExtKeyUsageNetscapeServerGatedCrypto => Constants.ExtKeyUsageNetscapeServerGatedCrypto
    case ExtKeyUsageMicrosoftCommercialCodeSigning => Constants.ExtKeyUsageMicrosoftCommercialCodeSigning
    case ExtKeyUsageMicrosoftKernelCodeSigning => Constants.ExtKeyUsageMicrosoftKernelCodeSigning
  }

  /** The case of the extended-key-usage switch a token selects, if any. */
  function ExtKeyUsageOf(token: string): (r: Option<ExtKeyUsage>)
    ensures r.Some? <==> token in ExtKeyUsageTokens
    ensures r.Some? ==> ExtKeyUsageToken(r.value) == token
  {
    if token == Constants.ExtKeyUsageAny then Some(X509.ExtKeyUsageAny)
    else if token == Constants.ExtKeyUsageServerAuth then Some(X509.ExtKeyUsageServerAuth)
    else if token == Constants.ExtKeyUsageClientAuth then Some(X509.ExtKeyUsageClientAuth)
    else if token == Constants.ExtKeyUsageCodeSigning then Some(X509.ExtKeyUsageCodeSigning)
    else if token == Constants.ExtKeyUsageEmailProtection then Some(X509.ExtKeyUsageEmailProtection)
    else if token == Constants.ExtKeyUsageIPSECEndSystem then Some(X509.ExtKeyUsageIPSECEndSystem)
    else if token == Constants.ExtKeyUsageIPSECTunnel then Some(X509.ExtKeyUsageIPSECTunnel)
    else if token == Constants.ExtKeyUsageIPSECUser then Some(X509.ExtKeyUsageIPSECUser)
    else if token == Constants.ExtKeyUsageTimeStamping then Some(X509.ExtKeyUsageTimeStamping)
    else if token == Constants.ExtKeyUsageOCSPSigning then Some(X509.ExtKeyUsageOCSPSigning)
    else if token == Constants.ExtKeyUsageMicrosoftServerGatedCrypto then Some(X509.ExtKeyUsageMicrosoftServerGatedCrypto)
    else if token == Constants.ExtKeyUsageNetscapeServerGatedCrypto then Some(X509.ExtKeyUsageNetscapeServerGatedCrypto)
    else if token == Constants.ExtKeyUsageMicrosoftCommercialCodeSigning then Some(X509.ExtKeyUsageMicrosoftCommercialCodeSigning)
    else if token == Constants.ExtKeyUsageMicrosoftKernelCodeSigning then Some(X509.ExtKeyUsageMicrosoftKernelCodeSigning)
    else None
  }

  /** Every code's token selects that code. */
  lemma ExtKeyUsageRoundTrip(e: ExtKeyUsage)
    ensures ExtKeyUsageOf(ExtKeyUsageToken(e)) == Some(e)
  {
  }

  /** The tokens of a list of codes, in order. */
  function TokensOf(codes: seq<ExtKeyUsage>): seq<string> {
    seq(|codes|, j requires 0 <= j < |codes| => ExtKeyUsageToken(codes[j]))
  }

  /** The tokens of `tokens` that belong to `vocabulary`, in order, duplicates kept. */
  function KnownTokens(tokens: seq<string>, vocabulary: seq<string>): (r: seq<string>)
    ensures forall t | t in r :: t in vocabulary && t in tokens
    ensures |r| <= |tokens|
  {
    if |tokens| == 0 then []
    else
      var prefix := KnownTokens(tokens[..|tokens| - 1], vocabulary);
      var last := tokens[|tokens| - 1];
      if last in vocabulary then prefix + [last] else prefix
  }

  /**
   * ParseExtKeyUsage: appends, in input order, the code of every recognised
   * token and skips the others. Mapping the codes back to their tokens gives
   * exactly the input filtered to the vocabulary.
   */
  method ParseExtKeyUsage(usages: seq<string>) returns (codes: seq<ExtKeyUsage>)
    ensures TokensOf(codes) == KnownTokens(usages, ExtKeyUsageTokens)
  {
    codes := [];
    for i := 0 to |usages|
      invariant TokensOf(codes) == KnownTokens(usages[..i], ExtKeyUsageTokens)
    {
      assert usages[..i + 1][..i] == usages[..i];
      var code := ExtKeyUsageOf(usages[i]);
      if code.Some? {
        codes := codes + [code.value];
      }
    }
    assert usages[..|usages|] == usages;
  }

  /** Filtering distributes over concatenation, so relative order is kept. */
  lemma {:induction false} KnownTokensAppend(a: seq<string>, b: seq<string>, vocabulary: seq<string>)
    ensures KnownTokens(a + b, vocabulary) == KnownTokens(a, vocabulary) + KnownTokens(b, vocabulary)
  {
    if |b| == 0 {
      assert a + b == a;
    } else {
      var b' := b[..|b| - 1];
      assert (a + b)[..|a + b| - 1] == a + b';
      KnownTokensAppend(a, b', vocabulary);
    }
  }

  /** A list of codes is determined by its tokens, so the contract of ParseExtKeyUsage fixes its result. */
  lemma {:induction false} TokensOfInjective(c1: seq<ExtKeyUsage>, c2: seq<ExtKeyUsage>)
    requires TokensOf(c1) == TokensOf(c2)
    ensures c1 == c2
  {
    assert |c1| == |c2|;
    forall j | 0 <= j < |c1| ensures c1[j] == c2[j] {
      assert TokensOf(c1)[j] == TokensOf(c2)[j];
      ExtKeyUsageRoundTrip(c1[j]);
      ExtKeyUsageRoundTrip(c2[j]);
    }
  }

  /** A list of unrecognised tokens (in particular a nil or empty list) contributes no codes. */
  lemma {:induction false} NoKnownTokens(tokens: seq<string>, vocabulary: seq<string>)
    requires forall t | t in tokens :: t !in vocabulary
    ensures KnownTokens(tokens, vocabulary) == []
  {
    if |tokens| > 0 {
      NoKnownTokens(tokens[..|tokens| - 1], vocabulary);
    }
  }

  // ------------------------------------------------- signature algorithm

  /** The token the signature-algorithm switch matches for each known code. */
  function SignatureAlgorithmToken(a: SignatureAlgorithm): string
    requires a != UnknownSignatureAlgorithm
  {
    match a
    case MD2WithRSA => SigAlgMD2WithRSA
    case MD5WithRSA => SigAlgMD5WithRSA
    case SHA1WithRSA => SigAlgSHA1WithRSA
    case SHA256WithRSA => SigAlgSHA256WithRSA
    case SHA384WithRSA => SigAlgSHA384WithRSA
    case SHA512WithRSA => SigAlgSHA512WithRSA
    case DSAWithSHA1 => SigAlgDSAWithSHA1
    case DSAWithSHA256 => SigAlgDSAWithSHA256
    case ECDSAWithSHA1 => SigAlgECDSAWithSHA1
    case ECDSAWithSHA256 => SigAlgECDSAWithSHA256
    case ECDSAWithSHA384 => SigAlgECDSAWithSHA384
    case ECDSAWithSHA512 => SigAlgECDSAWithSHA512
    case SHA256WithRSAPSS => SigAlgSHA256WithRSAPSS
    case SHA384WithRSAPSS => SigAlgSHA384WithRSAPSS
    case SHA512WithRSAPSS => SigAlgSHA512WithRSAPSS
    case PureEd25519 => SigAlgPureEd25519
  }

  /**
   * ParseSignatureAlgorithm: the code of one of the sixteen tokens, matched
   * exactly; any other string, the empty one included, gives the unknown code.
   */
  function ParseSignatureAlgorithm(alg: string): (r: SignatureAlgorithm)
    ensures r != UnknownSignatureAlgorithm <==> alg in SignatureAlgorithmTokens
    ensures r != UnknownSignatureAlgorithm ==> SignatureAlgorithmToken(r) == alg
  {
    if alg == SigAlgMD2WithRSA then MD2WithRSA
    else if alg == SigAlgMD5WithRSA then MD5WithRSA
    else if alg == SigAlgSHA1WithRSA then SHA1WithRSA
    else if alg == SigAlgSHA256WithRSA then SHA256WithRSA
    else if alg == SigAlgSHA384WithRSA then SHA384WithRSA
    else if alg == SigAlgSHA512WithRSA then SHA512WithRSA
    else if alg == SigAlgDSAWithSHA1 then DSAWithSHA1
    else if alg == SigAlgDSAWithSHA256 then DSAWithSHA256
    else if alg == SigAlgECDSAWithSHA1 then ECDSAWithSHA1
    else if alg == SigAlgECDSAWithSHA256 then ECDSAWithSHA256
    else if alg == SigAlgECDSAWithSHA384 then ECDSAWithSHA384
    else if alg == SigAlgECDSAWithSHA512 then ECDSAWithSHA512
    else if alg == SigAlgSHA256WithRSAPSS then SHA256WithRSAPSS
    else if alg == SigAlgSHA384WithRSAPSS then SHA384WithRSAPSS
    else if alg == SigAlgSHA512WithRSAPSS then SHA512WithRSAPSS
    else if alg == SigAlgPureEd25519 then PureEd25519
    else UnknownSignatureAlgorithm
  }

  /** Every known code is reached from its token. */
  lemma SignatureAlgorithmRoundTrip(a: SignatureAlgorithm)
    requires a != UnknownSignatureAlgorithm
    ensures ParseSignatureAlgorithm(SignatureAlgorithmToken(a)) == a
  {
  }

  // ------------------------------------------------ public-key algorithm

  /** The token the public-key-algorithm switch matches for each known code. */
  function PublicKeyAlgorithmToken(a: PublicKeyAlgorithm): string
    requires a != UnknownPublicKeyAlgorithm
  {
    match a
    case RSA => PubKeyAlgRSA
    case DSA => PubKeyAlgDSA
    case ECDSA => PubKeyAlgECDSA
    case Ed25519 => PubKeyAlgEd25519
  }

  /**
   * ParsePublicKeyAlgorithm: the code of one of the four tokens, matched
   * exactly; any other string gives the unknown code.
   */
  function ParsePublicKeyAlgorithm(alg: string): (r: PublicKeyAlgorithm)
    ensures r != UnknownPublicKeyAlgorithm <==> alg in PublicKeyAlgorithmTokens
    ensures r != UnknownPublicKeyAlgorithm ==> PublicKeyAlgorithmToken(r) == alg
  {
    if alg == PubKeyAlgRSA then RSA
    else if alg == PubKeyAlgDSA then DSA
    else if alg == PubKeyAlgECDSA then ECDSA
    else if alg == PubKeyAlgEd25519 then Ed25519
    else UnknownPublicKeyAlgorithm
  }

  /** Every known code is reached from its token. */
  lemma PublicKeyAlgorithmRoundTrip(a: PublicKeyAlgorithm)
    requires a != UnknownPublicKeyAlgorithm
    ensures ParsePublicKeyAlgorithm(PublicKeyAlgorithmToken(a)) == a
  {
  }

  /** Matching is exact: the empty string and lower-case spellings are not recognised. */
  lemma AlgorithmMatchingIsExact()
    ensures ParseSignatureAlgorithm("") == UnknownSignatureAlgorithm
    ensures ParseSignatureAlgorithm("sha256withrsa") == UnknownSignatureAlgorithm
    ensures ParsePublicKeyAlgorithm("") == UnknownPublicKeyAlgorithm
    ensures ParsePublicKeyAlgorithm("rsa") == UnknownPublicKeyAlgorithm
    ensures ParsePublicKeyAlgorithm("ecdsa") == UnknownPublicKeyAlgorithm
  {
  }
}
