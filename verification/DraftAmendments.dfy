/** A follow-up amendment changes one field of one criterion and keeps everything else explained. */
module DraftAmendments {
  import opened Wrappers
  import opened Sequences
  import opened CoreText
  import opened YearValues
  import opened DraftSchemas
  import opened SemanticProvenance
  import opened DraftEditing
  import opened DraftInvariant
  import opened DraftPreservation

  /** `e` is `d` with `target` replaced by its amended copy and one more amendment recorded. */
  ghost predicate Steps(lex: Lexicon, d: Draft, e: Draft, target: Criterion, span: SpanId, f: FieldChange) {
    && target in Criteria(d)
    && EncodedChange(target, f).Some? && ChangeOk(EncodedChange(target, f).value) && CriterionOk(lex, ApplyField(target, f))
    && (exists id :: AmendedDraft(lex, d, target, span, f, id) == Some(e))
    && span < |d.requirements| && d.requirements[span].criterionId == Some(target.id)
  }

  /** The other criteria are untouched and the target is replaced. */
  lemma {:induction false} AmendedMembers(
      lex: Lexicon, d: Draft, e: Draft, target: Criterion, span: SpanId, f: FieldChange)
    requires Steps(lex, d, e, target, span, f) && CriteriaDistinct(lex, d)
    ensures forall c :: c in Criteria(e) <==> (c in Criteria(d) && c.id != target.id) || c == ApplyField(target, f)
  {
    var r := ApplyField(target, f);
    assert target in d.mustHave || target in d.preferred;
    forall c
      ensures c in Criteria(e) <==> (c in Criteria(d) && c.id != target.id) || c == r
    {
      assert c in Criteria(e) <==> c in e.mustHave || c in e.preferred;
      assert c in Criteria(d) <==> c in d.mustHave || c in d.preferred;
      if !f.NewType? {
        ReplacedMembers(d.mustHave, r, c);
        ReplacedMembers(d.preferred, r, c);
      }
    }
  }

  /** Every other criterion stays in its bucket; the amended one is in the bucket of its type and in no other. */
  lemma {:induction false} AmendedBuckets(
      lex: Lexicon, d: Draft, e: Draft, target: Criterion, span: SpanId, f: FieldChange)
    requires Steps(lex, d, e, target, span, f) && CriteriaDistinct(lex, d)
    ensures var r := ApplyField(target, f);
      forall c ::
        && (c in e.mustHave <==> (c in d.mustHave && c.id != target.id) || (c == r && r.modality == MustHave))
        && (c in e.preferred <==> (c in d.preferred && c.id != target.id) || (c == r && r.modality == Preferred))
  {
    var r := ApplyField(target, f);
    assert target in d.mustHave || target in d.preferred;
    forall x | x in Criteria(d) && x.id == target.id ensures x == target { SameId(lex, d, x, target); }
    assert forall x :: x in d.mustHave ==> x in Criteria(d);
    assert forall x :: x in d.preferred ==> x in Criteria(d);
    assert target.modality == MustHave <==> target in d.mustHave;
    hide CriterionOk, EncodedChange, ChangeOk;
    forall c
      ensures c in e.mustHave <==> (c in d.mustHave && c.id != target.id) || (c == r && r.modality == MustHave)
      ensures c in e.preferred <==> (c in d.preferred && c.id != target.id) || (c == r && r.modality == Preferred)
    {
      if !f.NewType? {
        ReplacedMembers(d.mustHave, r, c);
        ReplacedMembers(d.preferred, r, c);
      }
    }
  }

  lemma {:induction false} ReplacedMembers(list: seq<Criterion>, r: Criterion, c: Criterion)
    ensures c in ReplaceCriterion(list, r) <==> (c in list && c.id != r.id) || (c == r && exists x :: x in list && x.id == r.id)
  {
    var out := ReplaceCriterion(list, r);
    if c in out {
      var i :| 0 <= i < |out| && out[i] == c;
      assert list[i] in list;
    }
    if x :| x in list && x.id == r.id {
      var i :| 0 <= i < |list| && list[i] == x;
      assert out[i] == r;
    }
    if c in list && c.id != r.id {
      var i :| 0 <= i < |list| && list[i] == c;
      assert out[i] == c;
    }
  }

  lemma {:induction false} MovedApart(lex: Lexicon, d: Draft, target: Criterion, r: Criterion)
    requires CriteriaDistinct(lex, d) && target in Criteria(d)
    requires r.id == target.id && CriterionIdentity(lex, r) == CriterionIdentity(lex, target)
    ensures var must, pref := WithoutCriterion(d.mustHave, target.id), WithoutCriterion(d.preferred, target.id);
      && (forall i, j :: 0 <= i < j < |must + pref| ==> Apart(lex, (must + pref)[i], (must + pref)[j]))
      && (forall x :: x in must + pref ==> Apart(lex, x, r))
  {
    var keep := (x: Criterion) => x.id != target.id;
    var must, pref := Filter(keep, d.mustHave), Filter(keep, d.preferred);
    FilterConcat(keep, d.mustHave, d.preferred);
    assert must + pref == Filter(keep, Criteria(d));
    forall i, j | 0 <= i < j < |must + pref|
      ensures Apart(lex, (must + pref)[i], (must + pref)[j])
    {
      var i', j' := FilterPair(keep, Criteria(d), i, j);
    }
    forall x | x in must + pref
      ensures Apart(lex, x, r)
    {
      assert x in Criteria(d) && x.id != target.id;
      OthersApart(lex, d, x, target);
    }
  }

  lemma {:induction false} MovedIsApart(
      lex: Lexicon, d: Draft, e: Draft, target: Criterion, span: SpanId, f: FieldChange)
    requires Steps(lex, d, e, target, span, f) && CriteriaDistinct(lex, d) && f.NewType?
    ensures forall i, j :: 0 <= i < j < |Criteria(e)| ==> Apart(lex, Criteria(e)[i], Criteria(e)[j])
  {
    var r := ApplyField(target, f);
    var must, pref := WithoutCriterion(d.mustHave, target.id), WithoutCriterion(d.preferred, target.id);
    assert e.mustHave == (if f.modality == MustHave then must + [r] else must);
    assert e.preferred == (if f.modality == MustHave then pref else pref + [r]);
    assert target in Criteria(d) && r.id == target.id && CriterionIdentity(lex, r) == CriterionIdentity(lex, target);
    hide Steps, WithoutCriterion, Apart, CriterionIdentity, CriteriaDistinct;
    MovedApart(lex, d, target, r);
    if f.modality == MustHave {
      InsertedApart(lex, must, pref, r);
      assert Criteria(e) == (must + [r]) + pref;
    } else {
      assert (must + pref) + [] == must + pref;
      InsertedApart(lex, must + pref, [], r);
      assert Criteria(e) == ((must + pref) + [r]) + [];
    }
  }

  lemma {:induction false} ReplacedAt(
      lex: Lexicon, d: Draft, e: Draft, target: Criterion, span: SpanId, f: FieldChange, i: nat)
    requires Steps(lex, d, e, target, span, f) && CriteriaDistinct(lex, d) && !f.NewType?
    requires |Criteria(e)| == |Criteria(d)| && i < |Criteria(d)|
    ensures Criteria(e)[i].id == Criteria(d)[i].id
    ensures CriterionIdentity(lex, Criteria(e)[i]) == CriterionIdentity(lex, Criteria(d)[i])
  {
    var c, r := Criteria(d)[i], ApplyField(target, f);
    assert c in Criteria(d) && target in Criteria(d);
    assert Criteria(e)[i] == if c.id == r.id then r else c;
    hide Steps;
    if c.id == target.id {
      SameId(lex, d, c, target);
    }
  }

  lemma {:induction false} AmendedApart(
      lex: Lexicon, d: Draft, e: Draft, target: Criterion, span: SpanId, f: FieldChange)
    requires Steps(lex, d, e, target, span, f) && CriteriaDistinct(lex, d)
    ensures forall i, j :: 0 <= i < j < |Criteria(e)| ==> Apart(lex, Criteria(e)[i], Criteria(e)[j])
  {
    if f.NewType? {
      MovedIsApart(lex, d, e, target, span, f);
    } else {
      assert |Criteria(e)| == |Criteria(d)|;
      hide Steps, CriteriaDistinct, CriterionIdentity, Criteria;
      forall i, j | 0 <= i < j < |Criteria(e)|
        ensures Apart(lex, Criteria(e)[i], Criteria(e)[j])
      {
        ReplacedAt(lex, d, e, target, span, f, i);
        ReplacedAt(lex, d, e, target, span, f, j);
        PositionsApart(lex, d, i, j);
      }
    }
  }

  lemma {:induction false} PositionsApart(lex: Lexicon, d: Draft, i: nat, j: nat)
    requires CriteriaDistinct(lex, d) && i < j < |Criteria(d)|
    ensures Apart(lex, Criteria(d)[i], Criteria(d)[j])
  {
  }

  lemma {:induction false} OthersApart(lex: Lexicon, d: Draft, x: Criterion, y: Criterion)
    requires CriteriaDistinct(lex, d) && x in Criteria(d) && y in Criteria(d) && x.id != y.id
    ensures Apart(lex, x, y)
  {
    var i :| 0 <= i < |Criteria(d)| && Criteria(d)[i] == x;
    var j :| 0 <= j < |Criteria(d)| && Criteria(d)[j] == y;
  }

  lemma {:induction false} AmendedDistinct(
      lex: Lexicon, d: Draft, e: Draft, target: Criterion, span: SpanId, f: FieldChange)
    requires Steps(lex, d, e, target, span, f) && CriteriaDistinct(lex, d)
    ensures CriteriaDistinct(lex, e)
  {
    AmendedMembers(lex, d, e, target, span, f);
    AmendedApart(lex, d, e, target, span, f);
    var r := ApplyField(target, f);
    assert forall i, j :: 0 <= i < j < |Criteria(e)| ==> Apart(lex, Criteria(e)[i], Criteria(e)[j]);
    forall c | c in e.mustHave ensures c.modality == MustHave { AmendedBucket(lex, d, e, target, span, f, c); }
    forall c | c in e.preferred ensures c.modality == Preferred { AmendedBucket(lex, d, e, target, span, f, c); }
  }

  lemma {:induction false} AmendedBucket(
      lex: Lexicon, d: Draft, e: Draft, target: Criterion, span: SpanId, f: FieldChange, c: Criterion)
    requires Steps(lex, d, e, target, span, f) && CriteriaDistinct(lex, d)
    ensures c in e.mustHave ==> c.modality == MustHave
    ensures c in e.preferred ==> c.modality == Preferred
  {
    if !f.NewType? {
      ReplacedMembers(d.mustHave, ApplyField(target, f), c);
      ReplacedMembers(d.preferred, ApplyField(target, f), c);
      forall x | (x in d.mustHave || x in d.preferred) && x.id == target.id ensures x == target {
        assert x in Criteria(d);
        SameId(lex, d, x, target);
      }
    }
  }

  lemma {:induction false} AmendedSpans(
      lex: Lexicon, d: Draft, e: Draft, target: Criterion, span: SpanId, f: FieldChange)
    requires Steps(lex, d, e, target, span, f)
    ensures |e.requirements| == |d.requirements| && e.decisions == d.decisions && e.resolutions == d.resolutions
    ensures e.needsReview == d.needsReview && e.model == d.model
    ensures forall i :: 0 <= i < |d.requirements| ==>
      e.requirements[i] == if d.requirements[i].criterionId == Some(target.id)
                           then d.requirements[i].(modality := if f.NewType? then Some(f.modality) else d.requirements[i].modality)
                           else d.requirements[i]
    ensures EncodedChange(target, f).Some?
    ensures e.amendments == d.amendments + [Amendment(|d.amendments| + 1, target.id, span, EncodedChange(target, f).value)]
    ensures e.(draftId := d.draftId, mustHave := d.mustHave, preferred := d.preferred, requirements := d.requirements, amendments := d.amendments) == d
  {
  }

  lemma {:induction false} SameOrigin(units: seq<SourceUnit>, d: Draft, e: Draft, i: nat)
    requires e.decisions == d.decisions && e.resolutions == d.resolutions
    ensures SpanOrigin(units, e, i) == SpanOrigin(units, d, i)
  {
  }

  lemma {:induction false} AmendedAligned(
      lex: Lexicon, units: seq<SourceUnit>, d: Draft, e: Draft, target: Criterion, span: SpanId, f: FieldChange)
    requires Steps(lex, d, e, target, span, f) && SpansAligned(units, d)
    ensures SpansAligned(units, e)
  {
    AmendedSpans(lex, d, e, target, span, f);
    hide Steps;
  }

  lemma {:induction false} AmendedScored(
      lex: Lexicon, units: seq<SourceUnit>, d: Draft, e: Draft, target: Criterion, span: SpanId, f: FieldChange)
    requires Steps(lex, d, e, target, span, f) && CriteriaDistinct(lex, d)
    requires |d.requirements| <= |units| && SpansScored(lex, units, d)
    ensures |e.requirements| <= |units| && SpansScored(lex, units, e)
  {
    hide CriteriaDistinct, SpanOrigin;
    AmendedMembers(lex, d, e, target, span, f);
    AmendedSpans(lex, d, e, target, span, f);
    assert target in Criteria(d);
    hide Steps;
    forall i | 0 <= i < |e.requirements| && e.requirements[i].state == Scorable
      ensures SpanOrigin(units, e, i).Some? && exists c :: c in Criteria(e) && Evidence(lex, units, e, i, c)
    {
      SameOrigin(units, d, e, i);
      var c :| c in Criteria(d) && Evidence(lex, units, d, i, c);
      if c.id == target.id {
        SameId(lex, d, c, target);
        var r := ApplyField(target, f);
        assert r in Criteria(e) && Evidence(lex, units, e, i, r);
      } else {
        assert c in Criteria(e) && Evidence(lex, units, e, i, c);
      }
    }
  }

  lemma {:induction false} AmendedSupported(
      lex: Lexicon, units: seq<SourceUnit>, d: Draft, e: Draft, minted: map<string, Params>, target: Criterion,
      span: SpanId, f: FieldChange)
    requires Steps(lex, d, e, target, span, f) && CriteriaDistinct(lex, d) && CriteriaSupported(units, d, minted)
    ensures CriteriaSupported(units, e, minted)
  {
    AmendedMembers(lex, d, e, target, span, f);
    AmendedSpans(lex, d, e, target, span, f);
    hide Steps, CriteriaDistinct, SpanOrigin;
    forall c | c in Criteria(e)
      ensures exists i: nat :: MintedFrom(units, e, i, c, minted)
    {
      var c' := if c.id == target.id then target else c;
      assert c' in Criteria(d) && c'.id == c.id;
      var i: nat :| MintedFrom(units, d, i, c', minted);
      SameOrigin(units, d, e, i);
      assert MintedFrom(units, e, i, c, minted);
    }
  }

  lemma {:induction false} AmendedResolutions(
      lex: Lexicon, units: seq<SourceUnit>, d: Draft, e: Draft, target: Criterion, span: SpanId, f: FieldChange)
    requires Steps(lex, d, e, target, span, f) && CriteriaDistinct(lex, d) && ResolutionsOk(units, d)
    ensures ResolutionsOk(units, e)
  {
    hide Steps, CriteriaDistinct, Criteria, EncodedChange, ResolutionOk, OptionsAreTheSource;
    AmendedMembers(lex, d, e, target, span, f);
    AmendedSpans(lex, d, e, target, span, f);
    forall r | r in e.resolutions
      ensures ResolutionHeld(units, e, r)
    {
      assert ResolutionHeld(units, d, r);
      var c :| c in Criteria(d) && OwnedBy(d, r, c);
      var c' := if c.id == target.id then ApplyField(target, f) else c;
      assert c' in Criteria(e) && OwnedBy(e, r, c');
    }
  }

  lemma {:induction false} AmendedReviews(
      lex: Lexicon, units: seq<SourceUnit>, d: Draft, e: Draft, target: Criterion, span: SpanId, f: FieldChange)
    requires Steps(lex, d, e, target, span, f) && DecisionsOk(d) && ReviewsOk(units, d)
    ensures DecisionsOk(e) && ReviewsOk(units, e)
  {
    AmendedSpans(lex, d, e, target, span, f);
    hide Steps;
    forall x | x in e.needsReview
      ensures ReviewOk(units, e, x)
    {
      assert ReviewOk(units, d, x);
      forall t | ShapeFor(units, d, x, t) ensures ShapeFor(units, e, x, t) { }
    }
  }

  lemma {:induction false} AmendedNaming(
      lex: Lexicon, units: seq<SourceUnit>, d: Draft, e: Draft, target: Criterion, span: SpanId, f: FieldChange,
      a: Amendment)
    requires Steps(lex, d, e, target, span, f) && CriteriaDistinct(lex, d)
    requires a.criterionId in Ids(d) && a.spanId < |d.requirements| && d.requirements[a.spanId].criterionId == Some(a.criterionId)
    ensures a.criterionId in Ids(e) && a.spanId < |e.requirements| && e.requirements[a.spanId].criterionId == Some(a.criterionId)
  {
    hide Steps, CriteriaDistinct, Ids, SameSubjects, EncodedChange;
    AmendedIds(lex, d, e, target, span, f);
    AmendedSpans(lex, d, e, target, span, f);
  }

  lemma {:induction false} AmendedList(
      lex: Lexicon, units: seq<SourceUnit>, d: Draft, e: Draft, target: Criterion, span: SpanId, f: FieldChange)
    requires Steps(lex, d, e, target, span, f) && CriteriaDistinct(lex, d) && AmendmentsOk(d)
    ensures AmendmentsOk(e)
  {
    AmendedSpans(lex, d, e, target, span, f);
    var last := Amendment(|d.amendments| + 1, target.id, span, EncodedChange(target, f).value);
    assert target in Criteria(d) && ChangeOk(last.change) && target.id in Ids(d);
    assert span < |d.requirements| && d.requirements[span].criterionId == Some(target.id);
    hide Steps, CriteriaDistinct, ChangeOk, EncodedChange, Ids;
    forall a | a in e.amendments
      ensures AmendmentOk(a) && a.criterionId in Ids(e) && a.spanId < |e.requirements| && e.requirements[a.spanId].criterionId == Some(a.criterionId)
    {
      assert a in d.amendments || a == last;
      AmendedNaming(lex, units, d, e, target, span, f, a);
    }
  }

  // ------------------------------------------------------------------ the amendment chain

  /** The recorded change takes the encoded old parameters to the encoded new ones. */
  lemma {:induction false} ChangeFollows(
      lex: Lexicon, chain: seq<Amendment>, target: Criterion, f: FieldChange, a: Amendment)
    requires CriterionOk(lex, target) && LevelPresent(target.level)
    requires EncodedChange(target, f) == Some(a.change) && ChangeOk(a.change)
    ensures Amended(AsEncoded(chain, ParamsOf(target)), a.change) == Some(AsEncoded(chain + [a], ParamsOf(ApplyField(target, f))))
    ensures LevelPresent(ApplyField(target, f).level)
  {
    var longer := chain + [a];
    assert longer[|chain|] == a;
    assert HasYearsChange(longer) <==> HasYearsChange(chain) || a.change.YearsChange? by {
      assert forall i :: 0 <= i < |chain| ==> longer[i] == chain[i];
    }
    match f
    case NewLevel(l) =>
      UpperStripIdempotent(target.level.value);
      UpperStripIdempotent(l);
    case _ =>
  }

  lemma {:induction false} OtherChain(d: Draft, e: Draft, minted: map<string, Params>, a: Amendment, c: Criterion)
    requires e.amendments == d.amendments + [a] && a.criterionId != c.id && ChainReaches(d, c, minted)
    ensures ChainReaches(e, c, minted)
  {
    FilterAppend((x: Amendment) => x.criterionId == c.id, d.amendments, a);
    assert ChainOf(e.amendments, c.id) == ChainOf(d.amendments, c.id) + [] == ChainOf(d.amendments, c.id);
  }

  lemma {:induction false} TargetChain(
      lex: Lexicon, d: Draft, e: Draft, minted: map<string, Params>, a: Amendment, target: Criterion, f: FieldChange)
    requires e.amendments == d.amendments + [a] && a.criterionId == target.id && ChainReaches(d, target, minted)
    requires CriterionOk(lex, target) && LevelPresent(target.level) && EncodedChange(target, f) == Some(a.change) && ChangeOk(a.change)
    ensures ChainReaches(e, ApplyField(target, f), minted)
  {
    FilterAppend((x: Amendment) => x.criterionId == target.id, d.amendments, a);
    var chain := ChainOf(d.amendments, target.id);
    assert ChainOf(e.amendments, target.id) == chain + [a];
    ChangeFollows(lex, chain, target, f, a);
    hide CriterionOk, LevelPresent, EncodedChange, ChangeOk, Amended, AsEncoded;
    assert (chain + [a])[..|chain|] == chain;
  }

  lemma {:induction false} AmendedChains(
      lex: Lexicon, d: Draft, e: Draft, minted: map<string, Params>, target: Criterion, span: SpanId, f: FieldChange)
    requires Steps(lex, d, e, target, span, f) && CriteriaDistinct(lex, d)
    requires forall c :: c in Criteria(d) ==> ChainReaches(d, c, minted)
    ensures forall c :: c in Criteria(e) ==> ChainReaches(e, c, minted)
  {
    hide ChainReaches, CriterionOk;
    AmendedMembers(lex, d, e, target, span, f);
    AmendedSpans(lex, d, e, target, span, f);
    assert target in Criteria(d) && CriterionOk(lex, target) && LevelPresent(target.level) && ChangeOk(EncodedChange(target, f).value);
    hide Steps, CriteriaDistinct, EncodedChange, ChangeOk, LevelPresent;
    var a := Amendment(|d.amendments| + 1, target.id, span, EncodedChange(target, f).value);
    forall c | c in Criteria(e)
      ensures ChainReaches(e, c, minted)
    {
      if c == ApplyField(target, f) {
        TargetChain(lex, d, e, minted, a, target, f);
      } else {
        OtherChain(d, e, minted, a, c);
      }
    }
  }

  predicate SameSubjects(d: Draft, e: Draft) {
    forall c :: c in Criteria(e) ==> exists c' :: c' in Criteria(d) && c'.id == c.id && c'.kind == c.kind && c'.value == c.value
  }

  /** Agreement of the evidence only reads the spans, their origins and each criterion's id, kind and value. */
  lemma {:induction false} AgreementFollows(
      lex: Lexicon, units: seq<SourceUnit>, d: Draft, e: Draft, minted: map<string, Params>)
    requires |e.requirements| == |d.requirements| && SameSubjects(d, e)
    requires e.decisions == d.decisions && e.resolutions == d.resolutions
    requires forall i :: 0 <= i < |d.requirements| ==>
      e.requirements[i].state == d.requirements[i].state && e.requirements[i].criterionId == d.requirements[i].criterionId
    requires SourcesAgree(lex, units, d, minted)
    ensures SourcesAgree(lex, units, e, minted)
  {
    hide SpanOrigin;
    forall i, c | 0 <= i < |e.requirements| && c in Criteria(e) && e.requirements[i].state == Scorable && e.requirements[i].criterionId == Some(c.id)
      ensures c.id in minted && SpanOrigin(units, e, i) == Some(minted[c.id]) && i < |units| && GroundedIn(lex, c, units[i].text)
    {
      var c' :| c' in Criteria(d) && c'.id == c.id && c'.kind == c.kind && c'.value == c.value;
      SameOrigin(units, d, e, i);
    }
  }

  lemma {:induction false} AmendedIds(lex: Lexicon, d: Draft, e: Draft, target: Criterion, span: SpanId, f: FieldChange)
    requires Steps(lex, d, e, target, span, f) && CriteriaDistinct(lex, d)
    ensures SameSubjects(d, e) && SameSubjects(e, d) && Ids(e) == Ids(d)
  {
    AmendedMembers(lex, d, e, target, span, f);
    var r := ApplyField(target, f);
    assert target in Criteria(d) && r.id == target.id && r.kind == target.kind && r.value == target.value;
    forall c | c in Criteria(d) && c.id == target.id ensures c == target { SameId(lex, d, c, target); }
    hide Steps, CriteriaDistinct;
    forall c | c in Criteria(d) ensures exists c' :: c' in Criteria(e) && c'.id == c.id && c'.kind == c.kind && c'.value == c.value {
      assert (if c.id == target.id then r else c) in Criteria(e);
    }
    forall c | c in Criteria(e) ensures exists c' :: c' in Criteria(d) && c'.id == c.id && c'.kind == c.kind && c'.value == c.value {
      assert (if c == r then target else c) in Criteria(d);
    }
    SameSubjectsSameIds(d, e);
    SameSubjectsSameIds(e, d);
  }

  lemma {:induction false} SameSubjectsSameIds(d: Draft, e: Draft)
    requires SameSubjects(d, e)
    ensures Ids(e) <= Ids(d)
  {
    forall id | id in Ids(e) ensures id in Ids(d) {
      var c :| c in Criteria(e) && c.id == id;
    }
  }

  lemma {:induction false} AmendedAgreement(
      lex: Lexicon, units: seq<SourceUnit>, d: Draft, e: Draft, minted: map<string, Params>, target: Criterion,
      span: SpanId, f: FieldChange)
    requires Steps(lex, d, e, target, span, f) && CriteriaDistinct(lex, d)
    ensures SourcesAgree(lex, units, e, minted) <==> SourcesAgree(lex, units, d, minted)
  {
    hide SourcesAgree, CriteriaDistinct, Ids, SameSubjects;
    AmendedIds(lex, d, e, target, span, f);
    AmendedSpans(lex, d, e, target, span, f);
    hide Steps;
    if SourcesAgree(lex, units, d, minted) { AgreementFollows(lex, units, d, e, minted); }
    if SourcesAgree(lex, units, e, minted) { AgreementFollows(lex, units, e, d, minted); }
  }

  lemma {:induction false} LengthBound(units: seq<SourceUnit>, d: Draft)
    requires SpansAligned(units, d)
    ensures |d.requirements| <= |units|
  {
  }

  lemma {:induction false} StepsKeepInv(
      lex: Lexicon, units: seq<SourceUnit>, d: Draft, e: Draft, minted: map<string, Params>, target: Criterion,
      span: SpanId, f: FieldChange)
    requires Inv(lex, units, d, minted) && Steps(lex, d, e, target, span, f)
    ensures Inv(lex, units, e, minted)
    ensures SourcesAgree(lex, units, e, minted) <==> SourcesAgree(lex, units, d, minted)
  {
    hide SpansAligned, SpansScored, CriteriaSupported, ReviewsOk, DecisionsOk, ResolutionsOk, AmendmentsOk,
         ChainReaches, CriteriaDistinct, Steps, SourcesAgree;
    AmendedDistinct(lex, d, e, target, span, f);
    AmendedAligned(lex, units, d, e, target, span, f);
    assert |d.requirements| <= |units| && |e.requirements| <= |units| by { LengthBound(units, d); LengthBound(units, e); }
    AmendedScored(lex, units, d, e, target, span, f);
    AmendedSupported(lex, units, d, e, minted, target, span, f);
    AmendedResolutions(lex, units, d, e, target, span, f);
    AmendedReviews(lex, units, d, e, target, span, f);
    AmendedList(lex, units, d, e, target, span, f);
    AmendedChains(lex, d, e, minted, target, span, f);
    AmendedAgreement(lex, units, d, e, minted, target, span, f);
  }

  // ------------------------------------------------------------------ whole follow-up messages

  lemma {:induction false} TargetsAreCriteria(d: Draft, m: Reading, c: Criterion)
    requires c in Targets(d, m)
    ensures c in Criteria(d)
  {
  }

  lemma {:induction false} FollowUpSteps(
      lex: Lexicon, units: seq<SourceUnit>, d: Draft, e: Draft, m: Reading, freshId: nat)
      returns (target: Criterion, span: SpanId, f: FieldChange)
    requires SpansAligned(units, d) && FollowUp(lex, d, m, freshId) == Some(e) && !(|m.integers| >= 2 && m.hasResultNoun)
    ensures Steps(lex, d, e, target, span, f)
  {
    target := Targets(d, m)[0];
    assert target in Targets(d, m);
    TargetsAreCriteria(d, m, target);
    var spans := Filter(Naming(target.id), d.requirements);
    assert spans[0] in spans;
    assert spans[0] in d.requirements;
    span, f := spans[0].spanId, RequestedChange(target, m).value;
    assert AmendedDraft(lex, d, target, span, f, freshId) == Some(e);
  }

  lemma {:induction false} ResultLimitKeepsInv(
      lex: Lexicon, units: seq<SourceUnit>, d: Draft, minted: map<string, Params>, freshId: nat, limit: int)
    requires Inv(lex, units, d, minted)
    ensures var e := d.(draftId := freshId, resultLimit := limit);
      Inv(lex, units, e, minted) && (SourcesAgree(lex, units, e, minted) <==> SourcesAgree(lex, units, d, minted))
  {
    hide SpansScored, CriteriaSupported, ReviewsOk, ResolutionsOk, ChainReaches, CriteriaDistinct, SourcesAgree,
         SpanOrigin;
    var e := d.(draftId := freshId, resultLimit := limit);
    assert Criteria(e) == Criteria(d) && Ids(e) == Ids(d);
    forall i: nat ensures SpanOrigin(units, e, i) == SpanOrigin(units, d, i) { SameOrigin(units, d, e, i); }
    assert CriteriaDistinct(lex, e) by { SameBuckets(lex, d, e); }
    SameScored(lex, units, d, e);
    SameSupported(units, d, e, minted);
    SameResolutions(units, d, e);
    SameReviews(units, d, e);
    SameChains(d, e, minted);
    SameAgreement(lex, units, d, e, minted);
  }

  lemma {:induction false} SameReviews(units: seq<SourceUnit>, d: Draft, e: Draft)
    requires ReviewsOk(units, d) && e.needsReview == d.needsReview && e.requirements == d.requirements && e.decisions == d.decisions && e.model == d.model
    ensures ReviewsOk(units, e)
  {
    forall x | x in e.needsReview
      ensures ReviewOk(units, e, x)
    {
      assert ReviewOk(units, d, x);
      forall t | ShapeFor(units, d, x, t) ensures ShapeFor(units, e, x, t) { }
    }
  }

  /** A follow-up keeps the invariant with the same minted parameters, and cannot make evidence disagree. */
  lemma {:induction false} FollowUpKeepsInv(
      lex: Lexicon, units: seq<SourceUnit>, d: Draft, e: Draft, minted: map<string, Params>, m: Reading, freshId: nat)
    requires Inv(lex, units, d, minted) && FollowUp(lex, d, m, freshId) == Some(e)
    ensures Inv(lex, units, e, minted)
    ensures SourcesAgree(lex, units, e, minted) <==> SourcesAgree(lex, units, d, minted)
  {
    hide SpansAligned, SpansScored, CriteriaSupported, ReviewsOk, DecisionsOk, ResolutionsOk, AmendmentsOk,
         ChainReaches, CriteriaDistinct, Steps, SourcesAgree;
    if |m.integers| >= 2 && m.hasResultNoun {
      ResultLimitKeepsInv(lex, units, d, minted, freshId, Clamp(m.integers[|m.integers| - 1]));
    } else {
      var target, span, f := FollowUpSteps(lex, units, d, e, m, freshId);
      StepsKeepInv(lex, units, d, e, minted, target, span, f);
    }
  }
}
