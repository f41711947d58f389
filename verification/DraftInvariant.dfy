/**
 What every reachable draft satisfies, part by part, and that the edits keep it.

 `minted` remembers, for each criterion id, the parameters the criterion was created with. The source
 keeps no such table: it is the yardstick the amendment chains are measured against.
 */
module DraftInvariant {
  import opened Wrappers
  import opened Sequences
  import opened CoreText
  import opened YearValues
  import opened DraftSchemas
  import opened SemanticProvenance
  import opened DraftEditing

  // ------------------------------------------------------------------ hypotheses

  predicate LevelPresent(level: Option<string>) {
    level.Some? ==> level.value != "" && UpperStrip(level.value) != ""
  }

  /** What the segmentation guarantees of the units it returns. */
  predicate SourceOk(units: seq<SourceUnit>) {
    && |units| <= MAX_SPANS
    && forall u :: u in units ==>
      && u.start < u.end && |u.text| == u.end - u.start && |u.text| <= MAX_TEXT
      && LevelPresent(u.level)
      && (u.state == Scorable ==> u.family.Some? && u.family.value != Other && u.modality.Some?)
  }

  // ------------------------------------------------------------------ the invariant

  /** The span list is the source's, in order; only scorable spans name a criterion. */
  ghost predicate SpansAligned(units: seq<SourceUnit>, d: Draft) {
    && |d.requirements| <= |units|
    && forall i :: 0 <= i < |d.requirements| ==>
      var r, u := d.requirements[i], units[i];
      && r.spanId == i && r.start == u.start && r.end == u.end
      && r.text == (if r.state == Prohibited then None else Some(u.text))
      && (r.state == Scorable <==> r.criterionId.Some?)
  }

  /** Ids and canonical identities are distinct, and the bucket is the type. */
  ghost predicate CriteriaDistinct(lex: Lexicon, d: Draft) {
    && (forall i, j :: 0 <= i < j < |Criteria(d)| ==>
          Criteria(d)[i].id != Criteria(d)[j].id
          && CriterionIdentity(lex, Criteria(d)[i]) != CriterionIdentity(lex, Criteria(d)[j]))
    && (forall c :: c in Criteria(d) ==> CriterionOk(lex, c) && IsCriterionId(c.id) && LevelPresent(c.level))
    && (forall c :: c in d.mustHave ==> c.modality == MustHave)
    && (forall c :: c in d.preferred ==> c.modality == Preferred)
  }

  ghost predicate Evidence(lex: Lexicon, units: seq<SourceUnit>, d: Draft, i: nat, c: Criterion)
    requires i < |d.requirements| <= |units|
  {
    var r := d.requirements[i];
    && r.criterionId == Some(c.id)
    && r.modality == Some(c.modality)
    && units[i].family == Some(c.kind)
    && r.source.Some? && (r.source.value == ModelValidated ==> d.model.Some?)
  }

  /** Every scorable span is evidence of one criterion of the draft, and has an origin. */
  ghost predicate SpansScored(lex: Lexicon, units: seq<SourceUnit>, d: Draft)
    requires |d.requirements| <= |units|
  {
    forall i :: 0 <= i < |d.requirements| && d.requirements[i].state == Scorable ==>
      SpanOrigin(units, d, i).Some? && exists c :: c in Criteria(d) && Evidence(lex, units, d, i, c)
  }

  /** Span `i` supports `c` and contributes exactly the parameters `c` was minted with. */
  ghost predicate MintedFrom(units: seq<SourceUnit>, d: Draft, i: nat, c: Criterion, minted: map<string, Params>) {
    && c.id in minted
    && i < |d.requirements| && d.requirements[i].state == Scorable && d.requirements[i].criterionId == Some(c.id)
    && SpanOrigin(units, d, i) == Some(minted[c.id])
  }

  ghost predicate CriteriaSupported(units: seq<SourceUnit>, d: Draft, minted: map<string, Params>) {
    forall c :: c in Criteria(d) ==> exists i: nat :: MintedFrom(units, d, i, c, minted)
  }

  ghost predicate DecisionsOk(d: Draft) {
    && DecisionsOnce(d.decisions)
    && forall x :: x in d.decisions ==>
      && x.spanId < |d.requirements|
      && (if x.verdict == ExcludedByReviewer
          then d.requirements[x.spanId].state == NeedsReview
               && exists item :: item in d.needsReview && item.excluded && item.spanId == Some(x.spanId)
          else d.requirements[x.spanId].state == Scorable)
  }

  ghost predicate OwnedBy(d: Draft, r: Resolution, c: Criterion) {
    forall s :: s in r.spans ==> s < |d.requirements| && d.requirements[s].criterionId == Some(c.id)
  }

  ghost predicate ResolutionHeld(units: seq<SourceUnit>, d: Draft, r: Resolution) {
    && ResolutionOk(r) && OptionsAreTheSource(units, r)
    && exists c :: c in Criteria(d) && OwnedBy(d, r, c)
  }

  ghost predicate ResolutionsOk(units: seq<SourceUnit>, d: Draft) {
    && ResolutionsOnce(d.resolutions)
    && forall r :: r in d.resolutions ==> ResolutionHeld(units, d, r)
  }

  /** The spans a review item speaks for. */
  function Claims(x: ReviewItem): set<SpanId> {
    if x.conflictSpans != [] then set s | s in x.conflictSpans
    else if x.spanId.Some? then {x.spanId.value}
    else {}
  }

  predicate IsConflict(x: ReviewItem) {
    x.conflictSpans != [] || x.conflictOptions != []
  }

  /** A canonical shape on offer for span `s`: its kind is the span's family and it has an authority. */
  ghost predicate ShapeFor(units: seq<SourceUnit>, d: Draft, x: ReviewItem, s: SpanId) {
    && x.kind.Some?
    && s < |units| && units[s].family == x.kind
    && (s < |d.requirements| ==> d.requirements[s].source.Some? && (d.requirements[s].source.value == ModelValidated ==> d.model.Some?))
  }

  ghost predicate ReviewOk(units: seq<SourceUnit>, d: Draft, x: ReviewItem) {
    && (forall s :: s in Claims(x) ==> s < |units| && (s < |d.requirements| ==> d.requirements[s].state == NeedsReview))
    && (x.kind.Some? <==> x.subject.Some?)
    && (x.excluded ==> x.blocking && x.spanId.Some? && Decision(x.spanId.value, ExcludedByReviewer) in d.decisions)
    && (x.blocking ==> x.spanId.Some?)
    && (x.allowed != [] ==>
          && x.spanId.Some? && !x.blocking && !IsConflict(x)
          && ShapeFor(units, d, x, x.spanId.value)
          && units[x.spanId.value].modality.None?
          && x.years == units[x.spanId.value].years && x.level == units[x.spanId.value].level)
    && (IsConflict(x) ==>
          && ResolutionOk(Resolution(x.conflictSpans, x.conflictOptions, 0))
          && OptionsAreTheSource(units, Resolution(x.conflictSpans, x.conflictOptions, 0))
          && x.spanId == Some(x.conflictSpans[0])
          && x.blocking
          && forall s :: s in x.conflictSpans ==> ShapeFor(units, d, x, s))
  }

  ghost predicate ReviewsOk(units: seq<SourceUnit>, d: Draft) {
    && (forall i, j :: 0 <= i < j < |d.needsReview| ==> Claims(d.needsReview[i]) !! Claims(d.needsReview[j]))
    && forall x :: x in d.needsReview ==> ReviewOk(units, d, x)
  }

  predicate HasYearsChange(chain: seq<Amendment>) {
    exists i :: 0 <= i < |chain| && chain[i].change.YearsChange?
  }

  /** What a chain of encoded values can reach: the years it amended, as six digits write them. */
  function AsEncoded(chain: seq<Amendment>, p: Params): Params {
    if HasYearsChange(chain) && p.years.Some? then p.(years := Some(ToSixDigits(p.years.value))) else p
  }

  /** The criterion's own amendments lead from its minted parameters to its current ones. */
  ghost predicate ChainReaches(d: Draft, c: Criterion, minted: map<string, Params>) {
    && c.id in minted
    && var chain := ChainOf(d.amendments, c.id);
       Replay(minted[c.id], chain) == Some(AsEncoded(chain, ParamsOf(c)))
  }

  ghost predicate AmendmentsOk(d: Draft) {
    && GapFree(d.amendments)
    && forall a :: a in d.amendments ==>
      && AmendmentOk(a) && a.criterionId in Ids(d)
      && a.spanId < |d.requirements| && d.requirements[a.spanId].criterionId == Some(a.criterionId)
  }

  ghost predicate Inv(lex: Lexicon, units: seq<SourceUnit>, d: Draft, minted: map<string, Params>) {
    && SpansAligned(units, d)
    && CriteriaDistinct(lex, d)
    && SpansScored(lex, units, d)
    && CriteriaSupported(units, d, minted)
    && DecisionsOk(d)
    && ResolutionsOk(units, d)
    && ReviewsOk(units, d)
    && AmendmentsOk(d)
    && (forall c :: c in Criteria(d) ==> ChainReaches(d, c, minted))
  }

  /** The source is still the one the draft was analysed from. */
  ghost predicate Sourced(lex: Lexicon, units: seq<SourceUnit>, d: Draft) {
    && d.policyVersion != "" && d.sourceText.Some? && d.sourceDigest.Some?
    && d.sourceDigest.value == lex.sha256(d.sourceText.value)
    && units == lex.analyze(d.sourceText.value)
  }

  /** All the evidence of each criterion grounds it and contributes the parameters it was minted with. */
  ghost predicate SourcesAgree(lex: Lexicon, units: seq<SourceUnit>, d: Draft, minted: map<string, Params>) {
    forall i, c ::
      0 <= i < |d.requirements| && c in Criteria(d) && d.requirements[i].state == Scorable && d.requirements[i].criterionId == Some(c.id) ==>
        && c.id in minted && SpanOrigin(units, d, i) == Some(minted[c.id])
        && i < |units| && GroundedIn(lex, c, units[i].text)
  }

  // ------------------------------------------------------------------ frames

  /** A span's origin only reads the decisions and resolutions about that span. */
  lemma {:induction false} SpanOriginFrame(units: seq<SourceUnit>, d: Draft, e: Draft, s: SpanId)
    requires DecisionsOnce(d.decisions) && DecisionsOnce(e.decisions)
    requires ResolutionsOnce(d.resolutions) && ResolutionsOnce(e.resolutions)
    requires forall x: Decision :: x.spanId == s ==> (x in d.decisions <==> x in e.decisions)
    requires forall r: Resolution :: s in r.spans ==> (r in d.resolutions <==> r in e.resolutions)
    ensures SpanOrigin(units, d, s) == SpanOrigin(units, e, s)
  {
    if k :| 0 <= k < |d.decisions| && d.decisions[k].spanId == s {
      DecisionForAt(d.decisions, k);
      assert d.decisions[k] in e.decisions;
      var k' :| 0 <= k' < |e.decisions| && e.decisions[k'] == d.decisions[k];
      DecisionForAt(e.decisions, k');
    }
    if k :| 0 <= k < |d.resolutions| && s in d.resolutions[k].spans {
      ResolutionForAt(d.resolutions, k, s);
      assert d.resolutions[k] in e.resolutions;
      var k' :| 0 <= k' < |e.resolutions| && e.resolutions[k'] == d.resolutions[k];
      ResolutionForAt(e.resolutions, k', s);
    }
  }

  lemma {:induction false} EveryIdIsNamed(
      units: seq<SourceUnit>, d: Draft, minted: map<string, Params>) returns (named: seq<string>)
    requires CriteriaSupported(units, d, minted)
    ensures |named| == |d.requirements| && forall c :: c in Criteria(d) ==> c.id in named
  {
    named := seq(|d.requirements|, i requires 0 <= i < |d.requirements| =>
      if d.requirements[i].criterionId.Some? then d.requirements[i].criterionId.value else "");
    forall c | c in Criteria(d)
      ensures c.id in named
    {
      var i: nat :| MintedFrom(units, d, i, c, minted);
      assert named[i] == c.id;
    }
  }

  /** There are at most as many criteria as spans, so an id is always free. */
  lemma {:induction false} IdsBounded(lex: Lexicon, units: seq<SourceUnit>, d: Draft, minted: map<string, Params>)
    requires CriteriaSupported(units, d, minted) && |d.requirements| <= MAX_SPANS
    ensures |Ids(d)| <= MAX_SPANS
  {
    var named := EveryIdIsNamed(units, d, minted);
    DistinctBound(named, Ids(d));
  }

  lemma {:induction false} CriteriaBounded(lex: Lexicon, units: seq<SourceUnit>, d: Draft, minted: map<string, Params>)
    requires CriteriaSupported(units, d, minted) && CriteriaDistinct(lex, d) && |d.requirements| <= MAX_SPANS
    ensures |Criteria(d)| <= MAX_SPANS
  {
    var named := EveryIdIsNamed(units, d, minted);
    var ids := CriterionIds(Criteria(d));
    DistinctSize(ids);
    DistinctBound(named, set x | x in ids);
  }
}
