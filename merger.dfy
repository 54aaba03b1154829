/**
 * The specification merge engine and the configuration resolver of
 * internal/merger.go.
 *
 * `Merged` is the specification: a left fold of one merge step over the list.
 * `MergeSpecs` is the loop of the source, updating a result record field by
 * field, proved equal to the fold; `ResolveConfig` is the resolver's loop,
 * proved against the three outcomes the source promises.
 */
module Merger {
  import opened Wrappers
  import opened Types

  // ------------------------------------------------ per-field merge rules

  /** Scalar strings: an incoming non-empty value replaces the current one. */
  function Override(current: string, incoming: string): string {
    if incoming != "" then incoming else current
  }

  /** Name maps: key-wise union, the incoming value winning; a nil incoming map changes nothing. */
  function UnionNames(current: Option<map<string, string>>, incoming: Option<map<string, string>>): Option<map<string, string>> {
    match incoming
    case None => current
    case Some(m) => Some(current.GetOr(map[]) + m)
  }

  /** Lists: a non-empty incoming list is appended. */
  function Extend(current: seq<string>, incoming: seq<string>): seq<string> {
    if |incoming| > 0 then current + incoming else current
  }

  /** One iteration of the merge loop for a non-nil specification. */
  function Absorb(acc: CertificateSpec, spec: CertificateSpec): CertificateSpec {
    CertificateSpec(
      serialNumber := Override(acc.serialNumber, spec.serialNumber),
      subject := UnionNames(acc.subject, spec.subject),
      issuer := UnionNames(acc.issuer, spec.issuer),
      notBefore := Override(acc.notBefore, spec.notBefore),
      notAfter := Override(acc.notAfter, spec.notAfter),
      keyUsage := Extend(acc.keyUsage, spec.keyUsage),
      extKeyUsage := Extend(acc.extKeyUsage, spec.extKeyUsage),
      dnsNames := Extend(acc.dnsNames, spec.dnsNames),
      emailAddresses := Extend(acc.emailAddresses, spec.emailAddresses),
      ipAddresses := Extend(acc.ipAddresses, spec.ipAddresses),
      uris := Extend(acc.uris, spec.uris),
      isCA := spec.isCA,
      maxPathLen := spec.maxPathLen,
      maxPathLenZero := spec.maxPathLenZero,
      basicConstraintsValid := spec.basicConstraintsValid,
      signatureAlgorithm := Override(acc.signatureAlgorithm, spec.signatureAlgorithm),
      publicKeyAlgorithm := Override(acc.publicKeyAlgorithm, spec.publicKeyAlgorithm))
  }

  /** One iteration of the merge loop: a nil entry is skipped. */
  function Step(acc: CertificateSpec, entry: Option<CertificateSpec>): CertificateSpec {
    match entry
    case None => acc
    case Some(spec) => Absorb(acc, spec)
  }

  /** Folds the entries, in order, onto `acc`. */
  function MergeFrom(acc: CertificateSpec, specs: seq<Option<CertificateSpec>>): CertificateSpec {
    if |specs| == 0 then acc
    else Step(MergeFrom(acc, specs[..|specs| - 1]), specs[|specs| - 1])
  }

  /** The specification of MergeSpecs: the fold started from the empty specification. */
  function Merged(specs: seq<Option<CertificateSpec>>): CertificateSpec {
    MergeFrom(EmptySpec, specs)
  }

  /** The fold over a prefix one entry longer takes one more step. */
  lemma MergedStep(specs: seq<Option<CertificateSpec>>, i: nat)
    requires i < |specs|
    ensures Merged(specs[..i + 1]) == Step(Merged(specs[..i]), specs[i])
  {
    assert specs[..i + 1][..i] == specs[..i];
  }

  // ------------------------------------------------------------ MergeSpecs

  /**
   * The inner `for k, v := range spec.Subject { result.Subject[k] = v }` loop.
   * Keys are taken in an arbitrary order, as Go's map iteration does; the
   * result is the same whichever order is taken.
   */
  method CopyEntries(target: map<string, string>, source: map<string, string>) returns (r: map<string, string>)
    ensures r.Keys == target.Keys + source.Keys
    ensures forall k | k in source :: r[k] == source[k]
    ensures forall k | k in target && k !in source :: r[k] == target[k]
    ensures r == target + source
  {
    r := target;
    var todo := source.Keys;
    while todo != {}
      invariant todo <= source.Keys
      invariant r.Keys == target.Keys + (source.Keys - todo)
      invariant forall k | k in source && k !in todo :: r[k] == source[k]
      invariant forall k | k in target && k !in source :: r[k] == target[k]
      decreases todo
    {
      var k :| k in todo;
      r := r[k := source[k]];
      todo := todo - {k};
    }
    assert r.Keys == (target + source).Keys;
  }

  /**
   * MergeSpecs: skips nil entries and, for each other entry in order, overrides
   * the scalar strings it sets, copies its name entries, appends its non-empty
   * lists and overwrites the four basic-constraints fields unconditionally.
   */
  method MergeSpecs(specs: seq<Option<CertificateSpec>>) returns (result: CertificateSpec)
    ensures result == Merged(specs)
  {
    result := EmptySpec;
    for i := 0 to |specs|
      invariant result == Merged(specs[..i])
    {
      MergedStep(specs, i);
      if specs[i].None? {
        continue;
      }
      var spec := specs[i].value;
      ghost var before := result;

      // Scalar strings: later non-empty values override.
      var serialNumber, notBefore, notAfter := result.serialNumber, result.notBefore, result.notAfter;
      var signatureAlgorithm, publicKeyAlgorithm := result.signatureAlgorithm, result.publicKeyAlgorithm;
      if spec.serialNumber != "" { serialNumber := spec.serialNumber; }
      assert serialNumber == Override(before.serialNumber, spec.serialNumber);
      if spec.notBefore != "" { notBefore := spec.notBefore; }
      assert notBefore == Override(before.notBefore, spec.notBefore);
      if spec.notAfter != "" { notAfter := spec.notAfter; }
      assert notAfter == Override(before.notAfter, spec.notAfter);
      if spec.signatureAlgorithm != "" { signatureAlgorithm := spec.signatureAlgorithm; }
      assert signatureAlgorithm == Override(before.signatureAlgorithm, spec.signatureAlgorithm);
      if spec.publicKeyAlgorithm != "" { publicKeyAlgorithm := spec.publicKeyAlgorithm; }
      assert publicKeyAlgorithm == Override(before.publicKeyAlgorithm, spec.publicKeyAlgorithm);

      // Name maps: created on first use, then extended key by key.
      var subject, issuer := result.subject, result.issuer;
      if spec.subject.Some? {
        if subject.None? { subject := Some(map[]); }
        var entries := CopyEntries(subject.value, spec.subject.value);
        subject := Some(entries);
      }
      assert subject == UnionNames(before.subject, spec.subject);
      if spec.issuer.Some? {
        if issuer.None? { issuer := Some(map[]); }
        var entries := CopyEntries(issuer.value, spec.issuer.value);
        issuer := Some(entries);
      }
      assert issuer == UnionNames(before.issuer, spec.issuer);

      // Lists: non-empty lists are appended.
      var keyUsage, extKeyUsage, dnsNames := result.keyUsage, result.extKeyUsage, result.dnsNames;
      var emailAddresses, ipAddresses, uris := result.emailAddresses, result.ipAddresses, result.uris;
      if |spec.keyUsage| > 0 { keyUsage := keyUsage + spec.keyUsage; }
      assert keyUsage == Extend(before.keyUsage, spec.keyUsage);
      if |spec.extKeyUsage| > 0 { extKeyUsage := extKeyUsage + spec.extKeyUsage; }
      assert extKeyUsage == Extend(before.extKeyUsage, spec.extKeyUsage);
      if |spec.dnsNames| > 0 { dnsNames := dnsNames + spec.dnsNames; }
      assert dnsNames == Extend(before.dnsNames, spec.dnsNames);
      if |spec.emailAddresses| > 0 { emailAddresses := emailAddresses + spec.emailAddresses; }
      assert emailAddresses == Extend(before.emailAddresses, spec.emailAddresses);
      if |spec.ipAddresses| > 0 { ipAddresses := ipAddresses + spec.ipAddresses; }
      assert ipAddresses == Extend(before.ipAddresses, spec.ipAddresses);
      if |spec.uris| > 0 { uris := uris + spec.uris; }
      assert uris == Extend(before.uris, spec.uris);

      // Basic constraints: the last non-nil entry always wins.
      result := CertificateSpec(
        serialNumber, subject, issuer, notBefore, notAfter,
        keyUsage, extKeyUsage, dnsNames, emailAddresses, ipAddresses, uris,
        spec.isCA, spec.maxPathLen, spec.maxPathLenZero, spec.basicConstraintsValid,
        signatureAlgorithm, publicKeyAlgorithm);
      assert result == Absorb(before, spec);
    }
    assert specs[..|specs|] == specs;
  }

  // --------------------------------------------------------- ResolveConfig

  /** The resolver's only error: a name in `merge` with no segment. */
  datatype ResolveError = MissingSegment(name: string) {
    /** The error text: a fixed opening, the missing name, a fixed tail. */
    function Message(): (msg: string)
      ensures |msg| == |MessageHead| + |name| + |MessageTail|
      ensures msg[..|MessageHead|] == MessageHead
      ensures msg[|MessageHead|..|MessageHead| + |name|] == name
      ensures msg[|MessageHead| + |name|..] == MessageTail
    {
      MessageHead + name + MessageTail
    }
  }

  const MessageHead := "segment '"
  const MessageTail := "' referenced in merge but not defined"

  /** Distinct missing names give distinct messages, so the name can be read back from the text. */
  lemma MessageDeterminesName(a: ResolveError, b: ResolveError)
    requires a.Message() == b.Message()
    ensures a == b
  {
    var msg := a.Message();
    assert |a.name| == |b.name|;
    assert a.name == msg[|MessageHead|..|MessageHead| + |a.name|] == b.name;
  }

  /** Every name in `names` has a segment. */
  predicate AllDefined(names: seq<string>, segments: map<string, Option<CertificateSpec>>) {
    forall i | 0 <= i < |names| :: names[i] in segments
  }

  /** The segments named by `names`, in the same order. */
  function SegmentSpecs(names: seq<string>, segments: map<string, Option<CertificateSpec>>): seq<Option<CertificateSpec>>
    requires AllDefined(names, segments)
  {
    seq(|names|, i requires 0 <= i < |names| => segments[names[i]])
  }

  /** The list the resolver merges: the named segments, then the config layer if there is one. */
  function Layers(doc: ConfigDocument): seq<Option<CertificateSpec>>
    requires AllDefined(doc.merge, doc.segments)
  {
    SegmentSpecs(doc.merge, doc.segments) + if doc.config.Some? then [doc.config] else []
  }

  /**
   * ResolveConfig: with neither a config nor a merge list there is nothing to
   * resolve and no specification (not an error). Otherwise the named segments
   * are collected in merge order, failing on the first name without a segment
   * before anything is merged, the config is put last, and the list is merged.
   */
  method ResolveConfig(doc: ConfigDocument) returns (r: Result<Option<CertificateSpec>, ResolveError>)
    ensures doc.config.None? && |doc.merge| == 0 ==> r == Success(None)
    ensures r.Failure? <==> !AllDefined(doc.merge, doc.segments)
    ensures r.Failure? ==>
      exists i | 0 <= i < |doc.merge| ::
        && doc.merge[i] !in doc.segments
        && AllDefined(doc.merge[..i], doc.segments)
        && r.error == MissingSegment(doc.merge[i])
    ensures r.Success? && (doc.config.Some? || |doc.merge| > 0) ==>
      AllDefined(doc.merge, doc.segments) && r == Success(Some(Merged(Layers(doc))))
  {
    if doc.config.None? && |doc.merge| == 0 {
      return Success(doc.config);
    }
    var toMerge: seq<Option<CertificateSpec>> := [];
    for i := 0 to |doc.merge|
      invariant AllDefined(doc.merge[..i], doc.segments)
      invariant toMerge == SegmentSpecs(doc.merge[..i], doc.segments)
    {
      var name := doc.merge[i];
      if name !in doc.segments {
        return Failure(MissingSegment(name));
      }
      assert doc.merge[..i + 1] == doc.merge[..i] + [name];
      toMerge := toMerge + [doc.segments[name]];
    }
    assert doc.merge[..|doc.merge|] == doc.merge;
    if doc.config.Some? {
      toMerge := toMerge + [doc.config];
    }
    assert toMerge == Layers(doc);
    if |toMerge| == 0 {
      return Success(Some(EmptySpec));
    }
    var merged := MergeSpecs(toMerge);
    return Success(Some(merged));
  }
}
