/**
 * What the merge fold `Merger.Merged` computes, field class by field class,
 * stated against definitions that look at the whole list at once rather than
 * at one step of the fold.
 */
module MergerProperties {
  import opened Wrappers
  import opened Types
  import opened Merger

  // ------------------------------------------------------- fold structure

  /** Folding a concatenation folds the first part, then the second. */
  lemma {:induction false} MergeFromAppend(acc: CertificateSpec, a: seq<Option<CertificateSpec>>, b: seq<Option<CertificateSpec>>)
    ensures MergeFrom(acc, a + b) == MergeFrom(MergeFrom(acc, a), b)
  {
    if |b| == 0 {
      assert a + b == a;
    } else {
      var b' := b[..|b| - 1];
      assert (a + b)[..|a + b| - 1] == a + b';
      MergeFromAppend(acc, a, b');
    }
  }

  /** Folding only nil entries changes nothing. */
  lemma {:induction false} NilEntriesChangeNothing(acc: CertificateSpec, specs: seq<Option<CertificateSpec>>)
    requires forall j | 0 <= j < |specs| :: specs[j].None?
    ensures MergeFrom(acc, specs) == acc
  {
    if |specs| > 0 {
      NilEntriesChangeNothing(acc, specs[..|specs| - 1]);
    }
  }

  /** An empty or all-nil list merges to the zero specification. */
  lemma AllNilMergesToEmpty(specs: seq<Option<CertificateSpec>>)
    requires forall j | 0 <= j < |specs| :: specs[j].None?
    ensures Merged(specs) == EmptySpec
  {
    NilEntriesChangeNothing(EmptySpec, specs);
  }

  /** Inserting a nil entry anywhere does not change the merge. */
  lemma NilEntryIgnored(a: seq<Option<CertificateSpec>>, b: seq<Option<CertificateSpec>>)
    ensures Merged(a + [None] + b) == Merged(a + b)
  {
    MergeFromAppend(EmptySpec, a + [None], b);
    MergeFromAppend(EmptySpec, a, [None]);
    var nil: seq<Option<CertificateSpec>> := [None];
    assert nil[..0] == [];
    MergeFromAppend(EmptySpec, a, b);
  }

  // ---------------------------------------------------- scalar string fields

  /** The entry is present and sets the string field `f`. */
  predicate SetsText(e: Option<CertificateSpec>, f: TextField) {
    e.Some? && Text(e.value, f) != ""
  }

  lemma TextStep(acc: CertificateSpec, e: Option<CertificateSpec>, f: TextField)
    ensures Text(Step(acc, e), f) == if SetsText(e, f) then Text(e.value, f) else Text(acc, f)
  {
  }

  /**
   * A scalar string field of the merge is the value of the last entry that
   * sets it, and "" when no entry does: a later empty string never erases it.
   */
  lemma {:induction false} MergedText(specs: seq<Option<CertificateSpec>>, f: TextField)
    ensures (forall j | 0 <= j < |specs| :: !SetsText(specs[j], f)) ==> Text(Merged(specs), f) == ""
    ensures forall j | 0 <= j < |specs| && SetsText(specs[j], f) &&
                       (forall l | j < l < |specs| :: !SetsText(specs[l], f)) ::
              Text(Merged(specs), f) == Text(specs[j].value, f)
  {
    if |specs| > 0 {
      var n := |specs| - 1;
      var init := specs[..n];
      MergedText(init, f);
      TextStep(Merged(init), specs[n], f);
      assert forall j | 0 <= j < n :: init[j] == specs[j];
    }
  }

  /** The override ordering example: with A and C setting a field and B not, C's value is the result. */
  lemma LaterNonEmptyWins(a: CertificateSpec, b: CertificateSpec, c: CertificateSpec, f: TextField)
    requires Text(a, f) != "" && Text(b, f) == "" && Text(c, f) != ""
    ensures Text(Merged([Some(a), Some(b), Some(c)]), f) == Text(c, f)
  {
    MergedText([Some(a), Some(b), Some(c)], f);
    assert SetsText([Some(a), Some(b), Some(c)][2], f);
  }

  // ------------------------------------------------------- name map fields

  /** The entry is present and has a (possibly empty) map for `f`. */
  predicate HasNames(e: Option<CertificateSpec>, f: NameField) {
    e.Some? && Names(e.value, f).Some?
  }

  /** The entry's map for `f` has key `k`. */
  predicate HasKey(e: Option<CertificateSpec>, f: NameField, k: string) {
    HasNames(e, f) && k in Names(e.value, f).value
  }

  /** The value the entry gives to key `k`. */
  function ValueAt(e: Option<CertificateSpec>, f: NameField, k: string): string
    requires HasKey(e, f, k)
  {
    Names(e.value, f).value[k]
  }

  lemma NamesStep(acc: CertificateSpec, e: Option<CertificateSpec>, f: NameField)
    ensures Names(Step(acc, e), f) ==
      if HasNames(e, f) then Some(Names(acc, f).GetOr(map[]) + Names(e.value, f).value) else Names(acc, f)
  {
  }

  /**
   * Subject and Issuer of the merge are nil exactly when no entry has a map for
   * the field, and otherwise their keys are the union of the entries' keys.
   */
  lemma {:induction false} MergedNameKeys(specs: seq<Option<CertificateSpec>>, f: NameField)
    ensures Names(Merged(specs), f).None? <==> forall j | 0 <= j < |specs| :: !HasNames(specs[j], f)
    ensures Names(Merged(specs), f).Some? ==>
      forall k :: k in Names(Merged(specs), f).value <==> exists j | 0 <= j < |specs| :: HasKey(specs[j], f, k)
  {
    if |specs| > 0 {
      var n := |specs| - 1;
      var init := specs[..n];
      MergedNameKeys(init, f);
      NamesStep(Merged(init), specs[n], f);
      assert forall j | 0 <= j < n :: init[j] == specs[j];
    }
  }

  /** Each key of Subject and Issuer holds the value of the last entry that has that key. */
  lemma {:induction false} MergedNameValue(specs: seq<Option<CertificateSpec>>, f: NameField, j: nat, k: string)
    requires j < |specs| && HasKey(specs[j], f, k)
    requires forall l | j < l < |specs| :: !HasKey(specs[l], f, k)
    ensures Names(Merged(specs), f).Some? && k in Names(Merged(specs), f).value
    ensures Names(Merged(specs), f).value[k] == ValueAt(specs[j], f, k)
  {
    var n := |specs| - 1;
    var init := specs[..n];
    NamesStep(Merged(init), specs[n], f);
    if j < n {
      assert forall l | j < l < n :: init[l] == specs[l];
      MergedNameValue(init, f, j, k);
      assert !HasKey(specs[n], f, k);
    }
  }

  // ------------------------------------------------------------ list fields

  /** The entry's list for `f`; a nil entry contributes nothing. */
  function ItemsOf(e: Option<CertificateSpec>, f: ListField): seq<string> {
    if e.Some? then Items(e.value, f) else []
  }

  /** Reference concatenation of the entries' lists, front to back. */
  function Concat(specs: seq<Option<CertificateSpec>>, f: ListField): seq<string> {
    if |specs| == 0 then [] else ItemsOf(specs[0], f) + Concat(specs[1..], f)
  }

  lemma {:induction false} ConcatSnoc(specs: seq<Option<CertificateSpec>>, e: Option<CertificateSpec>, f: ListField)
    ensures Concat(specs + [e], f) == Concat(specs, f) + ItemsOf(e, f)
  {
    if |specs| == 0 {
      assert (specs + [e])[1..] == [];
    } else {
      assert (specs + [e])[1..] == specs[1..] + [e];
      ConcatSnoc(specs[1..], e, f);
    }
  }

  /**
   * Every list field of the merge is the concatenation, in list order, of the
   * entries' lists, duplicates kept.
   */
  lemma {:induction false} MergedItems(specs: seq<Option<CertificateSpec>>, f: ListField)
    ensures Items(Merged(specs), f) == Concat(specs, f)
  {
    if |specs| > 0 {
      var n := |specs| - 1;
      MergedItems(specs[..n], f);
      ConcatSnoc(specs[..n], specs[n], f);
      assert specs[..n] + [specs[n]] == specs;
    }
  }

  // ------------------------------------------------ basic-constraints fields

  /** The four fields merged by unconditional overwrite. */
  datatype Constraints = Constraints(isCA: bool, maxPathLen: int, maxPathLenZero: bool, basicConstraintsValid: bool)

  function ConstraintsOf(s: CertificateSpec): Constraints {
    Constraints(s.isCA, s.maxPathLen, s.maxPathLenZero, s.basicConstraintsValid)
  }

  lemma ConstraintsStep(acc: CertificateSpec, e: Option<CertificateSpec>)
    ensures ConstraintsOf(Step(acc, e)) == if e.Some? then ConstraintsOf(e.value) else ConstraintsOf(acc)
  {
  }

  /**
   * IsCA, MaxPathLen, MaxPathLenZero and BasicConstraintsValid of the merge
   * are those of the last non-nil entry, even when they are false or 0, and
   * the zero values when every entry is nil.
   */
  lemma {:induction false} MergedConstraints(specs: seq<Option<CertificateSpec>>)
    ensures (forall j | 0 <= j < |specs| :: specs[j].None?) ==>
      ConstraintsOf(Merged(specs)) == Constraints(false, 0, false, false)
    ensures forall j | 0 <= j < |specs| && specs[j].Some? && (forall l | j < l < |specs| :: specs[l].None?) ::
      ConstraintsOf(Merged(specs)) == ConstraintsOf(specs[j].value)
  {
    if |specs| > 0 {
      var n := |specs| - 1;
      var init := specs[..n];
      MergedConstraints(init);
      var before, after := ConstraintsOf(Merged(init)), ConstraintsOf(Merged(specs));
      ConstraintsStep(Merged(init), specs[n]);
      assert after == if specs[n].Some? then ConstraintsOf(specs[n].value) else before;
      if forall j | 0 <= j < |specs| :: specs[j].None? {
        assert forall j | 0 <= j < n :: init[j].None?;
      }
      forall j | 0 <= j < |specs| && specs[j].Some? && (forall l | j < l < |specs| :: specs[l].None?)
        ensures after == ConstraintsOf(specs[j].value)
      {
        if j < n {
          assert init[j] == specs[j];
          assert forall l | j < l < n :: init[l].None?;
        }
      }
    }
  }

  /** The unconditional-overwrite example: an unset IsCA in a later entry clears an earlier true. */
  lemma LaterUnsetFlagClears(a: CertificateSpec, b: CertificateSpec)
    requires a.isCA && !b.isCA
    ensures !Merged([Some(a), Some(b)]).isCA
  {
    MergedConstraints([Some(a), Some(b)]);
    assert [Some(a), Some(b)][1].Some?;
  }

  // ------------------------------------------------------ merging with itself

  /**
   * Merging a specification with itself keeps every scalar string field and
   * every basic-constraints field, but doubles every list field: the merge is
   * not idempotent.
   */
  lemma SelfMerge(s: CertificateSpec, f: TextField, g: ListField)
    ensures Text(Merged([Some(s), Some(s)]), f) == Text(Merged([Some(s)]), f)
    ensures ConstraintsOf(Merged([Some(s), Some(s)])) == ConstraintsOf(Merged([Some(s)]))
    ensures Items(Merged([Some(s), Some(s)]), g) == Items(s, g) + Items(s, g)
  {
    var once, twice := [Some(s)], [Some(s), Some(s)];
    assert twice[..1] == once && once[..0] == [];
    MergedItems(twice, g);
    assert twice[1..] == once && once[1..] == [];
    assert Concat(once, g) == Items(s, g);
  }

  // ---------------------------------------------------------- resolver

  /** With the config present, the config is the last layer merged, so it has the highest priority. */
  lemma ConfigIsLastLayer(doc: ConfigDocument)
    requires AllDefined(doc.merge, doc.segments) && doc.config.Some?
    ensures Merged(Layers(doc)) == Absorb(Merged(SegmentSpecs(doc.merge, doc.segments)), doc.config.value)
  {
    var segs := SegmentSpecs(doc.merge, doc.segments);
    assert Layers(doc)[..|Layers(doc)| - 1] == segs;
  }
}
