# go-yaml-to-x509: certificate specification merging and token translation

This project models the core of go-yaml-to-x509 in Dafny. The program reads a
YAML description of an X.509 certificate template and builds the certificate
template from it. The model covers three parts:

- **The merge engine** (`internal/merger.go`). `MergeSpecs` folds an ordered
  list of optional certificate specifications into one. Each class of field has
  its own rule:
  - scalar strings are overridden only by a non-empty value;
  - the Subject and Issuer maps are unioned key by key, and the later value wins;
  - the six lists are concatenated;
  - the four basic-constraints fields are overwritten unconditionally.
- **The resolver** (`ResolveConfig`). It collects the segments that the `merge`
  list names, fails on the first name that has no segment, appends the `config`
  layer last and merges the result.
- **The token translation layer** (`internal/parsers.go`) and its five
  vocabularies (`internal/constants.go`). Human-readable tokens become
  distinguished names, key-usage bit masks, extended-key-usage lists and
  signature and public-key algorithm codes. Nothing ever fails: unknown tokens
  are dropped or map to an "unknown" sentinel.

Modules:

- `Wrappers` (`wrappers.dfy`): `Option` and `Result`.
- `Constants` (`constants.dfy`): the five vocabularies, under the names the
  source uses.
- `X509` (`x509.dfy`): the codes of Go's `crypto/x509` that the parsers produce.
  - The key-usage mask is a `bv16`. `KeyUsageDigitalSignature` is bit 0 and
    `KeyUsageDecipherOnly` is bit 8, as in Go.
  - `Name` holds the nine attributes of `pkix.Name` that are filled in here.
- `Parsers` (`parsers.dfy`): the five parsers.
  - `ParsePkixName`, `ParseKeyUsage` and `ParseExtKeyUsage` are methods with the
    source's loops and sequential assignments.
  - The two algorithm parsers are functions, as the source's single `switch`
    expressions are.
- `Types` (`types.dfy`): `CertificateSpec` and the configuration document.
  - A `*CertificateSpec` is an `Option<CertificateSpec>`.
  - A nil map (`None`) stays distinct from an empty one (`Some(map[])`).
- `Merger` (`merger.dfy`):
  - `Merged` is the merge as a left fold of one step per entry.
  - `MergeSpecs` is the source's loop, which updates a result record field by
    field. It is proved equal to the fold.
  - `ResolveConfig` is the resolver's loop. It is proved against the three
    outcomes the source has.
- `MergerProperties` (`merger_properties.dfy`): what the fold computes, field
  class by field class. Each property is stated against a definition that looks
  at the whole list at once, such as "the last entry that sets the field" or
  "the concatenation of all entries' lists".

With an empty `merge` list and no `config`, `ResolveConfig` returns nil and no
error (`internal/merger.go:83-86`); the model returns `Success(None)`. The
code's empty-list branch (`internal/merger.go:104-106`) is kept as written. It
cannot be reached, because every path that gets there has collected at least
one entry.

## Model

| member | source | states |
|---|---|---|
| Constants.VocabulariesAreDistinct | internal/constants.go:4-73 | The vocabularies have 9, 9, 14, 16 and 4 tokens. Within each vocabulary the tokens are pairwise distinct. |
| Constants.NoEmptyAlgorithmToken | internal/constants.go:48-73 | No signature-algorithm or public-key-algorithm token is the empty string. |
| X509.Bit | internal/parsers.go:48-67 | Each key usage has a non-zero bit within the nine low bits. |
| X509.BitsDisjoint | internal/parsers.go:48-67 | Two key usages share a bit exactly when they are the same usage. |
| X509.MaskDeterminedByFlags | internal/parsers.go:44-71 | A mask with no stray bits is determined by which of the nine usage bits it sets. |
| Parsers.ParsePkixName | internal/parsers.go:9-41 | Each of the nine distinguished-name tokens present in the map is copied into its attribute: a plain string for the common name and serial number, a one-element list for the other seven. An absent token leaves its attribute empty, and a nil map gives the all-empty name. |
| Parsers.NameDependsOnlyOnKnownKeys | internal/parsers.go:10-40 | Two maps that agree on the nine distinguished-name tokens give the same name, whatever other keys they hold. |
| Parsers.KeyUsageOf | internal/parsers.go:48-67 | A token is recognised as a key usage exactly when it is in the key-usage vocabulary. The recognised usage spells back to the same token. |
| Parsers.KeyUsageRoundTrip | internal/parsers.go:48-67 | Spelling a key usage and recognising the spelling gives the same usage back. |
| Parsers.ParseKeyUsage | internal/parsers.go:44-71 | A usage's bit is set in the result exactly when its token occurs in the input. No bit outside the nine usage bits is ever set. |
| Parsers.MaskDeterminedByTokens | internal/parsers.go:47-68 | Two inputs that contain the same recognised tokens give the same mask. So order, duplicates and unknown tokens do not change it. |
| Parsers.NoKnownTokenGivesZero | internal/parsers.go:44-71 | An input with no recognised token, including the empty input, gives the mask 0. |
| Parsers.TwoFlagsExample | internal/parsers.go:44-71 | The input `[digital_signature, key_encipherment]` gives exactly the DigitalSignature and KeyEncipherment bits. |
| Parsers.ExtKeyUsageOf | internal/parsers.go:78-107 | A token is recognised as an extended key usage exactly when it is in the vocabulary. The recognised purpose spells back to the same token. |
| Parsers.ExtKeyUsageRoundTrip | internal/parsers.go:78-107 | Spelling an extended key usage and recognising the spelling gives the same purpose back. |
| Parsers.KnownTokens | internal/parsers.go:77-108 | The filtered list contains only vocabulary tokens that occur in the input, and it is no longer than the input. |
| Parsers.ParseExtKeyUsage | internal/parsers.go:74-111 | The codes, spelled back, are exactly the recognised input tokens in input order, with duplicates kept. So the output has one code per recognised token. |
| Parsers.KnownTokensAppend | internal/parsers.go:77-108 | Filtering distributes over concatenation, so the relative order of recognised tokens is preserved. |
| Parsers.TokensOfInjective | internal/parsers.go:74-111 | Distinct code lists spell differently, so the spelled-back form determines the parsed codes. |
| Parsers.NoKnownTokens | internal/parsers.go:74-111 | An input with no recognised token, including the empty input, gives an empty result. |
| Parsers.ParseSignatureAlgorithm | internal/parsers.go:114-151 | A known code is returned exactly when the input is one of the 16 canonical tokens, and it spells back to the input. Every other string gives UnknownSignatureAlgorithm. |
| Parsers.SignatureAlgorithmRoundTrip | internal/parsers.go:114-151 | Every known signature algorithm is recovered from its canonical token. |
| Parsers.ParsePublicKeyAlgorithm | internal/parsers.go:154-167 | A known code is returned exactly when the input is RSA, DSA, ECDSA or Ed25519, and it spells back to the input. Every other string gives UnknownPublicKeyAlgorithm. |
| Parsers.PublicKeyAlgorithmRoundTrip | internal/parsers.go:154-167 | Every known public-key algorithm is recovered from its canonical token. |
| Parsers.AlgorithmMatchingIsExact | internal/parsers.go:114-167 | Matching is exact and case-sensitive: "" and lowercase variants such as "sha256withrsa", "rsa" and "ecdsa" give the unknown sentinels. |
| Merger.MergedStep | internal/merger.go:9-76 | Merging a prefix one entry longer applies one more loop iteration to the previous result. |
| Merger.CopyEntries | internal/merger.go:33-38 | Copying a map's entries into another gives the key-wise union, with the copied entries winning, whatever order the keys are visited in. |
| Merger.MergeSpecs | internal/merger.go:6-79 | The loop's result equals the fold of the per-field rules over the list, with nil entries skipped. |
| Merger.ResolveError.Message | internal/merger.go:94 | The error text is "segment '", then the missing name, then "' referenced in merge but not defined", and nothing else. |
| Merger.MessageDeterminesName | internal/merger.go:94 | Two errors with the same text name the same segment, so the missing name can be read back from the message. |
| Merger.ResolveConfig | internal/merger.go:82-109 | With no config and an empty merge list, the result is nil and there is no error. It fails exactly when some merge name has no segment, and the error names the first such name. Otherwise the result is the merge of the named segments in order, with the config last. |
| MergerProperties.MergeFromAppend | internal/merger.go:9-76 | Merging a concatenation merges the first part, then continues with the second. |
| MergerProperties.NilEntriesChangeNothing | internal/merger.go:9-12 | Nil entries leave the accumulated result unchanged. |
| MergerProperties.AllNilMergesToEmpty | internal/merger.go:6-12 | An empty or all-nil list merges to the zero specification. |
| MergerProperties.NilEntryIgnored | internal/merger.go:9-12 | Inserting a nil entry anywhere in the list does not change the merge. |
| MergerProperties.MergedText | internal/merger.go:15-29 | Each scalar string field is the value of the last entry that sets it, or "" if none does. A later empty string never erases a value. |
| MergerProperties.LaterNonEmptyWins | internal/merger.go:15-29 | If A and C set a string field and B leaves it empty, merging A, B and C gives C's value. |
| MergerProperties.MergedNameKeys | internal/merger.go:32-47 | Subject and Issuer are nil exactly when no entry has a map for them. Otherwise their key set is the union of the entries' key sets. |
| MergerProperties.MergedNameValue | internal/merger.go:32-47 | Each key of Subject and Issuer holds the value of the last entry that has that key. |
| MergerProperties.ConcatSnoc | internal/merger.go:50-67 | The reference concatenation of the entries' lists extends at the end by the new entry's list. |
| MergerProperties.MergedItems | internal/merger.go:50-67 | Each of the six list fields is the front-to-back concatenation of the entries' lists, with duplicates kept. |
| MergerProperties.MergedConstraints | internal/merger.go:69-75 | IsCA, MaxPathLen, MaxPathLenZero and BasicConstraintsValid are those of the last non-nil entry, even when they are false or 0. With no non-nil entry they are false and 0. |
| MergerProperties.LaterUnsetFlagClears | internal/merger.go:69-75 | A later entry with IsCA unset clears an earlier true IsCA. |
| MergerProperties.SelfMerge | internal/merger.go:15-75 | Merging a specification with itself keeps the string and basic-constraints fields but doubles every list field, so the merge is not idempotent. |
| MergerProperties.ConfigIsLastLayer | internal/merger.go:99-108 | With a config present, the resolved result is the merge of the segments with the config applied last, so the config has the highest priority. |

## Left out

- `x509.go` (`X509FromYaml`, `buildCertificate`) is not part of this model. It covers:
  - YAML decoding;
  - choosing between a segmented and a simple document;
  - big-integer parsing of serial numbers;
  - RFC 3339 timestamps;
  - `net.ParseIP` and `url.Parse`;
  - the assignment of fields into Go's `x509.Certificate`.

  These are wrappers over libraries whose code is not available.
- The nil-specification hazard is not modelled. A document with `segments` but
  neither `merge` nor `config` passes the check at `x509.go:54`. `ResolveConfig`
  then returns nil (`Success(None)` here), and `buildCertificate` dereferences
  that nil at `x509.go:78`. The model stops at `ResolveConfig`.
- Go's `crypto/x509` and `crypto/x509/pkix` types are replaced by Dafny datatypes:
  - the enumerations keep Go's constant names;
  - the key-usage mask keeps Go's bit positions;
  - the other fields of `pkix.Name` and all encoding are not modelled.
- Go slices are values here. A nil slice and an empty slice are not
  distinguished, because `len` treats them alike and the merge only tests `len`.
- Storage is not modelled. Specifications, maps and lists are values, so "no
  input specification is modified" holds by construction. The identity and
  capacity of Go's backing arrays and maps are not represented.
- Go's map iteration order in the Subject and Issuer copy loops is modelled as
  an arbitrary choice of the next key. `Merger.CopyEntries` proves that the
  result does not depend on that order.
- `Merger.ResolveConfig`: "no merge is performed on failure" is captured only as
  the error return. A value model has no observable side effects to rule out.
- `Parsers.ParsePkixName`: the result's other `pkix.Name` fields (`Names`,
  `ExtraNames`) are not modelled; the source leaves them at their zero values.
