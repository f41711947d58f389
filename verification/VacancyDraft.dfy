/**
 The vacancy draft from source text to confirmation: canonicalization, building, any run of edits, and
 the boundary that re-derives everything from the source.
 */
module VacancyDraft {
  import opened Wrappers
  import opened Sequences
  import opened CoreText
  import opened YearValues
  import opened DraftSchemas
  import opened SemanticProvenance
  import opened DraftEditing
  import opened DraftInvariant
  import opened DraftPreservation
  import opened DraftAcceptance
  import opened DraftLifecycle
  import opened CanonicalRequirements
  import opened DraftBuilding
  import opened DraftBuilt

  /** The draft a vacancy text becomes, before anybody has edited it. */
  ghost predicate BuiltFrom(lex: Lexicon, text: string, proposals: seq<Proposal>, blank: Draft, d: Draft) {
    && IsBlank(blank) && blank.policyVersion != "" && blank.sourceText == Some(text) && blank.sourceDigest == Some(lex.sha256(text))
    && (proposals != [] ==> blank.model.Some?)
    && var units := lex.analyze(text);
       SourceOk(units) && Build(lex, units, Canonicalize(lex, units, proposals), blank) == Ok(d)
  }

  lemma {:induction false} BuiltIsSound(
      lex: Lexicon, text: string, proposals: seq<Proposal>, blank: Draft, d: Draft)
      returns (minted: map<string, Params>, b: Building)
    requires VocabularyOk(lex) && BuiltFrom(lex, text, proposals, blank, d)
    ensures var units := lex.analyze(text);
      BuiltTo(lex, units, Canonicalize(lex, units, proposals), b, |units|, minted) && b.d == d && SameOrigins(blank, d)
  {
    hide VocabularyOk, SourceOk, IsBlank, Canonicalize, CanonicalOk, BuiltTo;
    var units := lex.analyze(text);
    CanonicalizeIsOk(lex, units, proposals, blank.model.Some?);
    minted := BuildKeepsInvariant(lex, units, Canonicalize(lex, units, proposals), blank, |units|);
    b := BuildTo(lex, units, Canonicalize(lex, units, proposals), blank, |units|).value;
  }

  lemma {:induction false} BuiltParts(
      lex: Lexicon, units: seq<SourceUnit>, canonical: seq<Canonical>, b: Building, n: nat, minted: map<string, Params>)
    requires BuiltTo(lex, units, canonical, b, n, minted)
    ensures Inv(lex, units, b.d, MintedOf(b.d)) && Unedited(b.d) && |b.d.requirements| == n
    ensures SourcesAgree(lex, units, b.d, MintedOf(b.d)) <==> EvidenceGrounded(lex, units, b.d)
  {
    hide SpansAligned, CriteriaDistinct, SpansScored, CriteriaSupported, ReviewsOk, AsMinted, MintedOf, KeysOk, ClaimsFollow, ParametersFromSource,
         SourcesAgree, EvidenceGrounded, ChainReaches, DecisionsOk, ResolutionsOk, AmendmentsOk;
    UneditedInv(lex, units, b.d, minted);
    MintedOfIs(lex, b.d);
    UneditedSourcesAgree(lex, units, b.d, MintedOf(b.d));
  }

  /** A built draft is where every editing session starts; its evidence agrees exactly when it is grounded. */
  lemma {:induction false} BuiltStartsTheLifecycle(
      lex: Lexicon, text: string, proposals: seq<Proposal>, blank: Draft, d: Draft)
    requires VocabularyOk(lex) && BuiltFrom(lex, text, proposals, blank, d)
    ensures JustBuilt(lex, lex.analyze(text), d, MintedOf(d))
    ensures SourcesAgree(lex, lex.analyze(text), d, MintedOf(d)) <==> EvidenceGrounded(lex, lex.analyze(text), d)
  {
    hide VocabularyOk, SourceOk, IsBlank, Canonicalize, BuiltTo, EvidenceGrounded, Inv, SourcesAgree, MintedOf;
    var units := lex.analyze(text);
    var minted, b := BuiltIsSound(lex, text, proposals, blank, d);
    BuiltParts(lex, units, Canonicalize(lex, units, proposals), b, |units|, minted);
  }

  /**
   From source text to confirmation. Build a draft and edit it in any way: the confirmation boundary
   accepts the result if and only if the built subjects are grounded in their spans, every merge was
   grounded and into a criterion still at its built or minted parameters, six digits hold every amended
   year value, and there are at most 256 amendments.
   */
  lemma {:induction false} EditedVacancyAcceptedIff(
      lex: Lexicon, text: string, proposals: seq<Proposal>, blank: Draft, d: Draft, edits: seq<Edit>)
    requires VocabularyOk(lex) && BuiltFrom(lex, text, proposals, blank, d)
    ensures var e := Run(lex, d, edits);
      WellTyped(e) &&
      (Provable(lex, e, Criteria(e)) <==>
       && EvidenceGrounded(lex, lex.analyze(text), d) && MergesHarmless(lex, lex.analyze(text), d, MintedOf(d), edits)
       && YearsExact(e) && |e.amendments| <= MAX_AMENDMENTS)
  {
    hide VocabularyOk, BuiltFrom, EvidenceGrounded, SourcesAgree, JustBuilt, MintedOf, Provable, WellTyped,
         MergesHarmless, YearsExact, Apply;
    BuiltStartsTheLifecycle(lex, text, proposals, blank, d);
    RunAcceptedIff(lex, lex.analyze(text), d, MintedOf(d), edits);
  }

  /** Review first, then amend: with grounded evidence and six-digit years the boundary accepts every such session. */
  lemma {:induction false} ReviewedThenAmendedVacancyIsAccepted(
      lex: Lexicon, text: string, proposals: seq<Proposal>, blank: Draft, d: Draft, edits: seq<Edit>)
    requires VocabularyOk(lex) && BuiltFrom(lex, text, proposals, blank, d) && EvidenceGrounded(lex, lex.analyze(text), d)
    requires ResolvesFirst(edits) && MergesGrounded(lex, lex.analyze(text), d, edits)
    requires YearsExact(Run(lex, d, edits)) && |Run(lex, d, edits).amendments| <= MAX_AMENDMENTS
    ensures var e := Run(lex, d, edits); WellTyped(e) && Provable(lex, e, Criteria(e))
  {
    hide VocabularyOk, BuiltFrom, EvidenceGrounded, SourcesAgree, JustBuilt, MintedOf, Provable, WellTyped,
         MergesGrounded, YearsExact, Apply, ResolvesFirst;
    BuiltStartsTheLifecycle(lex, text, proposals, blank, d);
    ResolvedThenAmendedIsAccepted(lex, lex.analyze(text), d, MintedOf(d), edits);
  }

  // ------------------------------------------------------------------ no requirement is lost

  predicate Disclosed(d: Draft, u: SourceUnit, x: ReviewItem, i: SpanId) {
    x in d.needsReview && (i in Claims(x) || (x.spanId.None? && x.requirement == u.text))
  }

  /** What the reader of a draft sees of span `i`. */
  ghost predicate Represented(d: Draft, u: SourceUnit, i: nat)
    requires i < |d.requirements|
  {
    match d.requirements[i].state
    case Scorable => exists c :: c in Criteria(d) && d.requirements[i].criterionId == Some(c.id)
    case NeedsReview => exists x :: Disclosed(d, u, x, i)
    case Unsupported => (exists m :: (u.text, m) in d.unsupported) || exists x :: Disclosed(d, u, x, i)
    case Prohibited => d.requirements[i].text.None? && d.prohibitedCount > 0
  }

  ghost predicate ListsGrow(d: Draft, e: Draft) {
    && |d.requirements| <= |e.requirements| && e.requirements[..|d.requirements|] == d.requirements
    && (forall c :: c in Criteria(d) ==> c in Criteria(e))
    && (forall x :: x in d.needsReview ==> x in e.needsReview)
    && (forall x :: x in d.unsupported ==> x in e.unsupported)
    && d.prohibitedCount <= e.prohibitedCount
  }

  lemma {:induction false} RepresentedStays(d: Draft, e: Draft, u: SourceUnit, i: nat)
    requires ListsGrow(d, e) && i < |d.requirements| && Represented(d, u, i)
    ensures Represented(e, u, i)
  {
    assert e.requirements[i] == e.requirements[..|d.requirements|][i] == d.requirements[i];
    forall x | Disclosed(d, u, x, i) ensures Disclosed(e, u, x, i) { }
  }

  lemma {:induction false} AsideRepresents(
      lex: Lexicon, b: Building, c: Canonical, u: SourceUnit, i: nat, state: SpanState, shape: bool)
    requires |b.d.requirements| == i && state != Scorable
    ensures var r := StepAside(b, c, u, i, state, shape);
      r.Ok? ==> ListsGrow(b.d, r.value.d) && |r.value.d.requirements| == i + 1 && Represented(r.value.d, u, i)
  {
    var r := StepAside(b, c, u, i, state, shape);
    if r.Ok? {
      assert Criteria(r.value.d) == Criteria(b.d);
      var x := OrdinaryItem(c, u, i, state, shape);
      if x in r.value.d.needsReview { assert Disclosed(r.value.d, u, x, i); }
    }
  }

  lemma {:induction false} ScoredRepresents(
      b: Building, c: Canonical, u: SourceUnit, i: nat, x: Criterion, key: RequirementKey, isNew: bool)
    requires |b.d.requirements| == i && (!isNew ==> x in Criteria(b.d))
    ensures var e := StepScored(b, c, u, i, x, key, isNew).d;
      ListsGrow(b.d, e) && |e.requirements| == i + 1 && Represented(e, u, i)
  {
    var e := StepScored(b, c, u, i, x, key, isNew).d;
    AddedCriteria(b.d, e, x, isNew);
  }

  lemma {:induction false} ScorableRepresents(
      lex: Lexicon, canonical: seq<Canonical>, b: Building, c: Canonical, u: SourceUnit, i: nat)
    requires |b.d.requirements| == i <= |canonical| && KeysOk(lex, canonical, b, i)
    ensures var r := StepScorable(lex, b, c, u, i);
      r.Ok? ==> ListsGrow(b.d, r.value.d) && |r.value.d.requirements| == i + 1 && Represented(r.value.d, u, i)
  {
    hide ListsGrow, Represented, StepScored, StepAside, CriterionOk, Materialized, ReadAs, CriterionIdentity;
    if Ready(c) {
      var key := IdentityOf(lex, c);
      if key in b.byKey {
        ScoredRepresents(b, c, u, i, b.byKey[key], key, false);
      } else {
        var x := Materialized(lex, c, u, b.used);
        ScoredRepresents(b, c, u, i, x, key, true);
        AsideRepresents(lex, b.(used := b.used + {x.id}), c, u, i, NeedsReview, false);
      }
    }
  }

  predicate SpeaksFor(canonical: seq<Canonical>, x: ReviewItem, g: nat) {
    x.conflictSpans == Members(canonical, g)
  }

  /** Every span so far is shown, and every conflict met so far has its one item. */
  ghost predicate ShownTo(units: seq<SourceUnit>, canonical: seq<Canonical>, d: Draft, n: nat) {
    && |d.requirements| == n <= |units| == |canonical|
    && forall j: nat :: j < n ==>
      && Represented(d, units[j], j)
      && (InConflictGroup(canonical[j]) ==> exists x :: x in d.needsReview && SpeaksFor(canonical, x, canonical[j].conflict.value))
  }

  lemma {:induction false} ShownStays(units: seq<SourceUnit>, canonical: seq<Canonical>, d: Draft, e: Draft, n: nat)
    requires ShownTo(units, canonical, d, n) && n < |units| && ListsGrow(d, e) && |e.requirements| == n + 1
    requires Represented(e, units[n], n)
    requires InConflictGroup(canonical[n]) ==> exists x :: x in e.needsReview && SpeaksFor(canonical, x, canonical[n].conflict.value)
    ensures ShownTo(units, canonical, e, n + 1)
  {
    hide SpeaksFor;
    forall j: nat | j < n
      ensures Represented(e, units[j], j)
      ensures InConflictGroup(canonical[j]) ==> exists x :: x in e.needsReview && SpeaksFor(canonical, x, canonical[j].conflict.value)
    {
      RepresentedStays(d, e, units[j], j);
    }
  }

  lemma {:induction false} ConflictGrows(
      lex: Lexicon, units: seq<SourceUnit>, canonical: seq<Canonical>, b: Building, i: nat)
    requires |b.d.requirements| == i < |units| == |canonical| && InConflictGroup(canonical[i])
    ensures var r := StepConflict(lex, units, canonical, b, i);
      r.Ok? ==>
        var e := r.value.d;
        var members := Members(canonical, canonical[i].conflict.value);
        && ListsGrow(b.d, e) && |e.requirements| == i + 1 && e.requirements[i].state == NeedsReview
        && (members != [] && members[0] == i ==> exists x :: x in e.needsReview && SpeaksFor(canonical, x, canonical[i].conflict.value))
  {
    var r := StepConflict(lex, units, canonical, b, i);
    var members := Members(canonical, canonical[i].conflict.value);
    hide Members;
    if r.Ok? {
      assert Criteria(r.value.d) == Criteria(b.d);
      if members != [] && members[0] == i {
        var x := ConflictItem(lex, units, canonical, i, members);
        assert x in r.value.d.needsReview && SpeaksFor(canonical, x, canonical[i].conflict.value);
      }
    }
  }

  lemma {:induction false} FirstMember(canonical: seq<Canonical>, i: nat)
    requires i < |canonical| && InConflictGroup(canonical[i])
    ensures var members := Members(canonical, canonical[i].conflict.value);
      && members != [] && i in members && members[0] <= i
      && InConflictGroup(canonical[members[0]]) && canonical[members[0]].conflict == canonical[i].conflict
  {
    var members := Members(canonical, canonical[i].conflict.value);
    MembersIs(canonical, canonical[i].conflict.value);
    hide Members;
    assert i in members;
    var k :| 0 <= k < |members| && members[k] == i;
    assert k > 0 ==> members[0] < members[k];
    assert members[0] in members;
  }

  /** A conflict is disclosed once, by the item its first span raises. */
  lemma {:induction false} ConflictRepresents(
      lex: Lexicon, units: seq<SourceUnit>, canonical: seq<Canonical>, b: Building, i: nat)
    requires ShownTo(units, canonical, b.d, i) && i < |units| && InConflictGroup(canonical[i])
    ensures var r := StepConflict(lex, units, canonical, b, i);
      r.Ok? ==>
        && ListsGrow(b.d, r.value.d) && |r.value.d.requirements| == i + 1 && Represented(r.value.d, units[i], i)
        && exists x :: x in r.value.d.needsReview && SpeaksFor(canonical, x, canonical[i].conflict.value)
  {
    var r := StepConflict(lex, units, canonical, b, i);
    ConflictGrows(lex, units, canonical, b, i);
    FirstMember(canonical, i);
    hide Members, StepConflict;
    if r.Ok? {
      var g := canonical[i].conflict.value;
      var e := r.value.d;
      var leader := Members(canonical, g)[0];
      if leader < i {
        var x :| x in b.d.needsReview && SpeaksFor(canonical, x, canonical[leader].conflict.value);
        assert x in e.needsReview && SpeaksFor(canonical, x, g);
      }
      var x :| x in e.needsReview && SpeaksFor(canonical, x, g);
      hide ShownTo, ListsGrow;
      assert i in x.conflictSpans;
      assert Disclosed(e, units[i], x, i);
    }
  }

  lemma {:induction false} ShownAfterBuilding(
      lex: Lexicon, units: seq<SourceUnit>, canonical: seq<Canonical>, blank: Draft, n: nat)
    requires VocabularyOk(lex) && SourceOk(units) && CanonicalOk(lex, units, canonical, blank.model.Some?) && IsBlank(blank)
    requires n <= |units| == |canonical| && BuildTo(lex, units, canonical, blank, n).Ok?
    ensures ShownTo(units, canonical, BuildTo(lex, units, canonical, blank, n).value.d, n)
  {
    hide VocabularyOk, SourceOk, CanonicalOk, BuiltTo, StepScorable, StepConflict, StepAside, ListsGrow, Represented,
         SpeaksFor, KeysOk, ShownTo;
    if n == 0 {
      assert ShownTo(units, canonical, blank, 0) by { NothingToShow(units, canonical, blank); }
    } else {
      var i := n - 1;
      ShownAfterBuilding(lex, units, canonical, blank, i);
      var minted := BuildKeepsInvariant(lex, units, canonical, blank, i);
      var b := BuildTo(lex, units, canonical, blank, i).value;
      var e := BuildTo(lex, units, canonical, blank, n).value.d;
      BuiltLength(lex, units, canonical, b, i, minted);
      SpanFacts(lex, units, canonical, blank.model.Some?, i);
      if canonical[i].state == Scorable {
        ScorableRepresents(lex, canonical, b, canonical[i], units[i], i);
      } else if InConflictGroup(canonical[i]) {
        ConflictRepresents(lex, units, canonical, b, i);
      } else {
        AsideRepresents(lex, b, canonical[i], units[i], i, canonical[i].state, canonical[i].shape);
      }
      ShownStays(units, canonical, b.d, e, i);
    }
  }

  lemma {:induction false} NothingToShow(units: seq<SourceUnit>, canonical: seq<Canonical>, blank: Draft)
    requires IsBlank(blank) && |units| == |canonical|
    ensures ShownTo(units, canonical, blank, 0)
  {
  }

  /**
   No requirement is lost: every span of the source is scored, put up for review, disclosed as
   unsupported, or counted and redacted as prohibited.
   */
  lemma {:induction false} NothingIsDropped(
      lex: Lexicon, text: string, proposals: seq<Proposal>, blank: Draft, d: Draft, i: nat)
    requires VocabularyOk(lex) && BuiltFrom(lex, text, proposals, blank, d) && i < |lex.analyze(text)|
    ensures |d.requirements| == |lex.analyze(text)| && Represented(d, lex.analyze(text)[i], i)
  {
    hide VocabularyOk, SourceOk, IsBlank, Canonicalize, CanonicalOk, Represented, InConflictGroup;
    var units := lex.analyze(text);
    CanonicalizeIsOk(lex, units, proposals, blank.model.Some?);
    ShownAfterBuilding(lex, units, Canonicalize(lex, units, proposals), blank, |units|);
  }

  // ------------------------------------------------------------------ every criterion stays well shaped

  /** What each kind of criterion has and has not. */
  predicate WellShaped(c: Criterion) {
    && c.kind != Other
    && (c.kind == Experience ==> c.years.Some? && c.value.None?)
    && (c.kind != Experience ==> c.value.Some? && c.value.value != "")
    && (c.kind == SkillExperience ==> c.years.Some?)
    && (c.years.Some? ==> 0.0 <= c.years.value <= 60.0 && (c.kind == Experience || c.kind == SkillExperience || c.kind == DomainExperience))
    && (c.level.Some? ==> c.kind == Language)
  }

  /** Whatever the text, the proposals and the edits: no criterion of the draft is ever out of shape. */
  lemma {:induction false} CriteriaStayWellShaped(
      lex: Lexicon, text: string, proposals: seq<Proposal>, blank: Draft, d: Draft, edits: seq<Edit>, c: Criterion)
    requires VocabularyOk(lex) && BuiltFrom(lex, text, proposals, blank, d) && c in Criteria(Run(lex, d, edits))
    ensures WellShaped(c) && IsCriterionId(c.id)
  {
    hide VocabularyOk, BuiltFrom, EvidenceGrounded, MintedOf, Inv, Covers, Sourced, SourcesAgree, MergesHarmless, Run,
         IsCriterionId;
    var units := lex.analyze(text);
    BuiltStartsTheLifecycle(lex, text, proposals, blank, d);
    RunKept(lex, units, d, MintedOf(d), edits);
    CriterionIsOk(lex, units, Run(lex, d, edits), MintedRun(lex, d, MintedOf(d), edits), c);
  }

  lemma {:induction false} CriterionIsOk(
      lex: Lexicon, units: seq<SourceUnit>, d: Draft, minted: map<string, Params>, c: Criterion)
    requires Inv(lex, units, d, minted) && c in Criteria(d)
    ensures CriterionOk(lex, c) && IsCriterionId(c.id)
  {
    hide SpansAligned, SpansScored, CriteriaSupported, DecisionsOk, ResolutionsOk, ReviewsOk, AmendmentsOk,
         ChainReaches, CriterionOk;
  }
}
