/**
 Whole editing sessions: what every run of edits keeps, and exactly which runs the confirmation
 boundary accepts.
 */
module DraftLifecycle {
  import opened Wrappers
  import opened Sequences
  import opened CoreText
  import opened YearValues
  import opened DraftSchemas
  import opened SemanticProvenance
  import opened DraftEditing
  import opened DraftInvariant
  import opened DraftPreservation
  import opened DraftAmendments
  import opened DraftAcceptance

  // ------------------------------------------------------------------ one edit

  ghost predicate IsMint(d: Draft, e: Draft, c: Criterion) {
    c in Criteria(e) && c.id !in Ids(d)
  }

  /** The table of minted parameters after an edit from `d` to `e`. */
  ghost function MintedAfter(d: Draft, e: Draft, minted: map<string, Params>): map<string, Params> {
    if exists c :: IsMint(d, e, c) then
      var c :| IsMint(d, e, c);
      minted[c.id := ParamsOf(c)]
    else minted
  }

  /** Between `d` and `e` span `i` became evidence of the already existing criterion `c`. */
  predicate Merged(d: Draft, e: Draft, i: nat, c: Criterion) {
    && i < |d.requirements| && i < |e.requirements| && d.requirements[i].state == NeedsReview
    && c in Criteria(d) && e.requirements[i].state == Scorable && e.requirements[i].criterionId == Some(c.id)
  }

  /** Evidence is only merged into criteria that it grounds and that stand where they were minted. */
  ghost predicate MergesAgree(lex: Lexicon, units: seq<SourceUnit>, d: Draft, e: Draft, minted: map<string, Params>) {
    forall i: nat, c :: Merged(d, e, i, c) ==>
      c.id in minted && minted[c.id] == ParamsOf(c) && i < |units| && GroundedIn(lex, c, units[i].text)
  }

  lemma {:induction false} AttachedMint(
      lex: Lexicon, d: Draft, e: Draft, minted: map<string, Params>, s: SpanId, spans: set<SpanId>, c: Criterion,
      isNew: bool)
    requires Attached(d, e, s, spans, c, isNew) && (isNew ==> c.id !in Ids(d))
    ensures MintedAfter(d, e, minted) == if isNew then minted[c.id := ParamsOf(c)] else minted
  {
    AddedCriteria(d, e, c, isNew);
    assert forall x :: x in Criteria(d) ==> x.id in Ids(d);
    if isNew {
      assert IsMint(d, e, c);
      assert forall x :: IsMint(d, e, x) ==> x == c;
    }
  }

  lemma {:induction false} MergedOnlyThere(
      lex: Lexicon, d: Draft, e: Draft, s: SpanId, spans: set<SpanId>, c: Criterion, isNew: bool, i: nat, x: Criterion)
    requires Attached(d, e, s, spans, c, isNew) && (isNew ==> c.id !in Ids(d)) && CriteriaDistinct(lex, d)
    requires forall i :: 0 <= i < |d.requirements| ==> d.requirements[i].spanId == i
    requires Merged(d, e, i, x)
    ensures i in spans && !isNew && x == c
  {
    hide CriteriaDistinct;
    assert x in Criteria(d) && x.id in Ids(d);
    assert i in spans && x.id == c.id;
    if !isNew { SameId(lex, d, x, c); }
  }

  lemma {:induction false} AttachedMerges(
      lex: Lexicon, units: seq<SourceUnit>, d: Draft, e: Draft, minted: map<string, Params>, s: SpanId,
      spans: set<SpanId>, c: Criterion, isNew: bool)
    requires Attached(d, e, s, spans, c, isNew) && (isNew ==> c.id !in Ids(d)) && s in spans
    requires forall i :: 0 <= i < |d.requirements| ==> d.requirements[i].spanId == i
    requires forall i :: i in spans ==> i < |d.requirements| && d.requirements[i].state == NeedsReview
    requires CriteriaDistinct(lex, d) && (!isNew ==> c.id in minted)
    ensures MergesAgree(lex, units, d, e, minted) <==> isNew || MergeAgrees(lex, units, minted, c, spans)
  {
    assert !isNew ==> forall i :: i in spans ==> Merged(d, e, i, c);
    hide CriteriaDistinct, GroundedIn;
    forall i: nat, x | Merged(d, e, i, x)
      ensures i in spans && !isNew && x == c
    {
      MergedOnlyThere(lex, d, e, s, spans, c, isNew, i, x);
    }
    hide Attached, Merged;
  }

  /** An edit that adds no criterion and scores no span changes neither table nor agreement. */
  lemma {:induction false} NothingMerged(
      lex: Lexicon, units: seq<SourceUnit>, d: Draft, e: Draft, minted: map<string, Params>)
    requires Ids(e) <= Ids(d)
    requires forall i :: 0 <= i < |d.requirements| && i < |e.requirements| ==> e.requirements[i].state == d.requirements[i].state
    ensures MintedAfter(d, e, minted) == minted && MergesAgree(lex, units, d, e, minted)
  {
    assert forall x :: x in Criteria(e) ==> x.id in Ids(e);
  }

  lemma {:induction false} LimitFrame(lex: Lexicon, d: Draft, e: Draft, m: Reading, freshId: nat)
    requires FollowUp(lex, d, m, freshId) == Some(e) && |m.integers| >= 2 && m.hasResultNoun
    ensures Ids(e) == Ids(d) && e.requirements == d.requirements && SameSource(d, e)
  {
    hide Targets, RequestedChange, AmendedDraft;
    assert Criteria(e) == Criteria(d);
  }

  lemma {:induction false} StepFrame(lex: Lexicon, d: Draft, e: Draft, target: Criterion, span: SpanId, f: FieldChange)
    requires Steps(lex, d, e, target, span, f)
    ensures |e.requirements| == |d.requirements| && SameSource(d, e)
    ensures forall i :: 0 <= i < |d.requirements| ==> SameSpan(d.requirements[i], e.requirements[i]) && e.requirements[i].state == d.requirements[i].state
  {
    AmendedSpans(lex, d, e, target, span, f);
    hide Steps;
  }

  lemma {:induction false} FollowUpFrame(
      lex: Lexicon, units: seq<SourceUnit>, d: Draft, e: Draft, m: Reading, freshId: nat)
    requires SpansAligned(units, d) && CriteriaDistinct(lex, d) && FollowUp(lex, d, m, freshId) == Some(e)
    ensures Ids(e) == Ids(d) && |e.requirements| == |d.requirements|
    ensures forall i :: 0 <= i < |d.requirements| ==> SameSpan(d.requirements[i], e.requirements[i]) && e.requirements[i].state == d.requirements[i].state
    ensures SameSource(d, e)
  {
    hide FollowUp, CriteriaDistinct, SpansAligned, Ids, SameSource, Steps, SameSubjects;
    if |m.integers| >= 2 && m.hasResultNoun {
      LimitFrame(lex, d, e, m, freshId);
    } else {
      var target, span, f := FollowUpSteps(lex, units, d, e, m, freshId);
      AmendedIds(lex, d, e, target, span, f);
      StepFrame(lex, d, e, target, span, f);
    }
  }

  /** A span keeps its range, text and authority, and once it names a criterion it keeps naming it. */
  predicate SameSpan(a: SpanResult, b: SpanResult) {
    && b.spanId == a.spanId && b.start == a.start && b.end == a.end && b.text == a.text && b.source == a.source
    && (b.state == a.state || (a.state == NeedsReview && b.state == Scorable))
    && (a.state == Scorable || a.state == b.state ==> b.criterionId == a.criterionId)
  }

  predicate SameSource(d: Draft, e: Draft) {
    && e.policyVersion == d.policyVersion && e.sourceDigest == d.sourceDigest && e.sourceText == d.sourceText && e.model == d.model
    && e.unsupported == d.unsupported && e.prohibitedCount == d.prohibitedCount
  }

  lemma {:induction false} AttachedFrame(
      units: seq<SourceUnit>, d: Draft, e: Draft, s: SpanId, spans: set<SpanId>, c: Criterion, isNew: bool)
    requires SpansAligned(units, d) && Attached(d, e, s, spans, c, isNew)
    requires forall i :: i in spans ==> i < |d.requirements| && d.requirements[i].state == NeedsReview
    ensures |e.requirements| == |d.requirements|
    ensures forall i :: 0 <= i < |d.requirements| ==> SameSpan(d.requirements[i], e.requirements[i])
  {
  }

  /** The guarantees of one edit. */
  ghost predicate Kept(lex: Lexicon, units: seq<SourceUnit>, d: Draft, e: Draft, minted: map<string, Params>) {
    var minted' := MintedAfter(d, e, minted);
    && Inv(lex, units, e, minted')
    && (SourcesAgree(lex, units, e, minted') <==> SourcesAgree(lex, units, d, minted) && MergesAgree(lex, units, d, e, minted))
    && SameSource(d, e)
    && |e.requirements| == |d.requirements|
    && forall i :: 0 <= i < |d.requirements| ==> SameSpan(d.requirements[i], e.requirements[i])
  }

  lemma {:induction false} IndicesAndIdentities(
      lex: Lexicon, units: seq<SourceUnit>, d: Draft, minted: map<string, Params>)
    requires Inv(lex, units, d, minted)
    ensures forall i :: 0 <= i < |d.requirements| ==> d.requirements[i].spanId == i
    ensures forall c :: c in Criteria(d) ==> c.id in minted
  {
    hide SpansScored, CriteriaSupported, ReviewsOk, DecisionsOk, ResolutionsOk, AmendmentsOk, ChainReaches,
         CriteriaDistinct;
    MintedHasEveryId(d, minted);
  }

  /** Only a follow-up records amendments, and no edit touches what the draft says of its source. */
  lemma {:induction false} ModalityFrame(lex: Lexicon, d: Draft, e: Draft, s: SpanId, m: Modality)
    requires ResolveModality(lex, d, s, m) == Ok(e)
    ensures SameSource(d, e) && e.amendments == d.amendments
  {
    hide ShapeRevalidates, CriterionOk, MintedCriterion, WithDecision, WithoutReview, Scored;
  }

  lemma {:induction false} ConflictFrame(lex: Lexicon, d: Draft, e: Draft, s: SpanId, k: int)
    requires ResolveConflict(lex, d, s, k) == Ok(e)
    ensures SameSource(d, e) && e.amendments == d.amendments
  {
    hide CriterionOk, MintedCriterion, WithoutReview, Scored;
  }

  lemma {:induction false} ExcludeFrame(d: Draft, e: Draft, s: SpanId)
    requires Exclude(d, s) == Ok(e)
    ensures SameSource(d, e) && e.amendments == d.amendments && e.requirements == d.requirements && Ids(e) == Ids(d)
  {
    assert Criteria(e) == Criteria(d);
  }

  lemma {:induction false} CoversAll(units: seq<SourceUnit>, d: Draft)
    requires Covers(units, d)
    ensures |d.requirements| == |units|
  {
  }

  lemma {:induction false} ModalityKept(
      lex: Lexicon, units: seq<SourceUnit>, d: Draft, e: Draft, minted: map<string, Params>, s: SpanId, m: Modality)
    requires Covers(units, d) && Inv(lex, units, d, minted)
    requires ResolveModality(lex, d, s, m) == Ok(e)
    ensures Kept(lex, units, d, e, minted)
  {
    hide SpansAligned, SpansScored, CriteriaSupported, ReviewsOk, DecisionsOk, ResolutionsOk, AmendmentsOk, ChainReaches, CriteriaDistinct,
         Attached, Covers, ResolveModality, SourcesAgree, MintedAfter, MergesAgree, SameSpan, SameSource;
    ModalityFrame(lex, d, e, s, m);
    var c, isNew := ModalityKeepsInv(lex, units, d, e, minted, s, m);
    IndicesAndIdentities(lex, units, d, minted);
    AttachedMint(lex, d, e, minted, s, {s}, c, isNew);
    AttachedMerges(lex, units, d, e, minted, s, {s}, c, isNew);
    AttachedFrame(units, d, e, s, {s}, c, isNew);
  }

  lemma {:induction false} ConflictKept(
      lex: Lexicon, units: seq<SourceUnit>, d: Draft, e: Draft, minted: map<string, Params>, s: SpanId, k: int)
    requires Covers(units, d) && Inv(lex, units, d, minted)
    requires ResolveConflict(lex, d, s, k) == Ok(e)
    ensures Kept(lex, units, d, e, minted)
  {
    hide SpansAligned, SpansScored, CriteriaSupported, ReviewsOk, DecisionsOk, ResolutionsOk, AmendmentsOk, ChainReaches, CriteriaDistinct,
         Attached, Covers, ResolveConflict, SourcesAgree, MintedAfter, MergesAgree, SameSpan, SameSource, Claims;
    ConflictFrame(lex, d, e, s, k);
    var x, c := ConflictKeepsInv(lex, units, d, e, minted, s, k);
    IndicesAndIdentities(lex, units, d, minted);
    AttachedMint(lex, d, e, minted, s, Claims(x), c, true);
    AttachedMerges(lex, units, d, e, minted, s, Claims(x), c, true);
    AttachedFrame(units, d, e, s, Claims(x), c, true);
  }

  lemma {:induction false} ExcludeKept(
      lex: Lexicon, units: seq<SourceUnit>, d: Draft, e: Draft, minted: map<string, Params>, s: SpanId)
    requires Covers(units, d) && Inv(lex, units, d, minted) && Exclude(d, s) == Ok(e)
    ensures Kept(lex, units, d, e, minted)
  {
    hide Exclude, Covers, SpansAligned, SpansScored, CriteriaSupported, ReviewsOk, DecisionsOk, ResolutionsOk,
         AmendmentsOk, ChainReaches, CriteriaDistinct, SourcesAgree;
    ExcludeFrame(d, e, s);
    assert |d.requirements| == |units| by { CoversAll(units, d); }
    ExcludeKeepsInv(lex, units, d, e, minted, s);
    NothingMerged(lex, units, d, e, minted);
  }

  lemma {:induction false} FollowUpKept(
      lex: Lexicon, units: seq<SourceUnit>, d: Draft, e: Draft, minted: map<string, Params>, m: Reading, freshId: nat)
    requires Inv(lex, units, d, minted) && FollowUp(lex, d, m, freshId) == Some(e)
    ensures Kept(lex, units, d, e, minted)
  {
    hide SpansAligned, SpansScored, CriteriaSupported, ReviewsOk, DecisionsOk, ResolutionsOk, AmendmentsOk, ChainReaches, CriteriaDistinct,
         FollowUp, SourcesAgree, SameSpan, SameSource;
    FollowUpKeepsInv(lex, units, d, e, minted, m, freshId);
    FollowUpFrame(lex, units, d, e, m, freshId);
    NothingMerged(lex, units, d, e, minted);
  }

  lemma {:induction false} RefusedKept(lex: Lexicon, units: seq<SourceUnit>, d: Draft, minted: map<string, Params>)
    requires Inv(lex, units, d, minted)
    ensures Kept(lex, units, d, d, minted)
  {
    hide SpansAligned, SpansScored, CriteriaSupported, ReviewsOk, DecisionsOk, ResolutionsOk, AmendmentsOk,
         ChainReaches, CriteriaDistinct, SourcesAgree;
    NothingMerged(lex, units, d, d, minted);
  }

  /**
   Every edit, accepted or refused, keeps the invariant and the span list; a span only moves from
   needing review to scorable; and the evidence still agrees afterwards exactly when it agreed before
   and nothing was merged into a criterion that had moved away from its minted parameters.
   */
  lemma {:induction false} EditKept(
      lex: Lexicon, units: seq<SourceUnit>, d: Draft, minted: map<string, Params>, edit: Edit)
    requires Covers(units, d) && Inv(lex, units, d, minted)
    ensures Kept(lex, units, d, Apply(lex, d, edit), minted)
  {
    hide Inv, Covers, Kept, ResolveModality, ResolveConflict, Exclude, FollowUp;
    RefusedKept(lex, units, d, minted);
    match edit
    case ModalityClick(s, m) =>
      var r := ResolveModality(lex, d, s, m);
      if r.Ok? { ModalityKept(lex, units, d, r.value, minted, s, m); }
    case ConflictChoice(s, k) =>
      var r := ResolveConflict(lex, d, s, k);
      if r.Ok? { ConflictKept(lex, units, d, r.value, minted, s, k); }
    case ExcludeClick(s) =>
      var r := Exclude(d, s);
      if r.Ok? { ExcludeKept(lex, units, d, r.value, minted, s); }
    case Message(m, freshId) =>
      var r := FollowUp(lex, d, m, freshId);
      if r.Some? { FollowUpKept(lex, units, d, r.value, minted, m, freshId); }
  }

  // ------------------------------------------------------------------ runs

  ghost function MintedRun(lex: Lexicon, d: Draft, minted: map<string, Params>, edits: seq<Edit>): map<string, Params> {
    if edits == [] then minted
    else
      var before := edits[..|edits| - 1];
      MintedAfter(Run(lex, d, before), Run(lex, d, edits), MintedRun(lex, d, minted, before))
  }

  /** No step of the run merges evidence into a criterion that has moved away from its minted parameters. */
  ghost predicate MergesHarmless(
      lex: Lexicon, units: seq<SourceUnit>, d: Draft, minted: map<string, Params>, edits: seq<Edit>)
  {
    edits == [] ||
    var before := edits[..|edits| - 1];
    MergesHarmless(lex, units, d, minted, before) && MergesAgree(lex, units, Run(lex, d, before), Run(lex, d, edits), MintedRun(lex, d, minted, before))
  }

  lemma {:induction false} SourcedKept(lex: Lexicon, units: seq<SourceUnit>, d: Draft, e: Draft)
    requires SameSource(d, e) && |e.requirements| == |d.requirements|
    ensures Sourced(lex, units, d) ==> Sourced(lex, units, e)
    ensures Covers(units, d) ==> Covers(units, e)
  {
  }

  /** The edit invariant holds after every run, and agreement of the evidence is decided by its merges. */
  lemma {:induction false} RunKept(
      lex: Lexicon, units: seq<SourceUnit>, d: Draft, minted: map<string, Params>, edits: seq<Edit>)
    requires Covers(units, d) && Sourced(lex, units, d) && Inv(lex, units, d, minted)
    ensures var e, minted' := Run(lex, d, edits), MintedRun(lex, d, minted, edits);
      && Covers(units, e) && Sourced(lex, units, e) && Inv(lex, units, e, minted')
      && (SourcesAgree(lex, units, e, minted') <==> SourcesAgree(lex, units, d, minted) && MergesHarmless(lex, units, d, minted, edits))
  {
    hide Inv, Covers, Sourced, SourcesAgree, MergesAgree, Apply;
    if edits != [] {
      var before := edits[..|edits| - 1];
      RunKept(lex, units, d, minted, before);
      var here := Run(lex, d, before);
      EditKept(lex, units, here, MintedRun(lex, d, minted, before), edits[|edits| - 1]);
      SourcedKept(lex, units, here, Run(lex, d, edits));
    }
  }

  /** A draft just built: it covers its source and nothing has been amended. */
  ghost predicate JustBuilt(lex: Lexicon, units: seq<SourceUnit>, d: Draft, minted: map<string, Params>) {
    && Covers(units, d) && Sourced(lex, units, d) && Inv(lex, units, d, minted)
    && d.amendments == []
  }

  /**
   Completeness over runs, exactly. After any sequence of edits of a built draft the confirmation
   boundary accepts it if and only if the built draft's own evidence agreed, every merge was grounded and
   hit a criterion still at its minted parameters, six digits hold every amended year value, and there
   are at most 256 amendments.
   */
  lemma {:induction false} RunAcceptedIff(
      lex: Lexicon, units: seq<SourceUnit>, d: Draft, minted: map<string, Params>, edits: seq<Edit>)
    requires JustBuilt(lex, units, d, minted)
    ensures var e := Run(lex, d, edits);
      WellTyped(e) &&
      (Provable(lex, e, Criteria(e)) <==>
       SourcesAgree(lex, units, d, minted) && MergesHarmless(lex, units, d, minted, edits) && YearsExact(e) && |e.amendments| <= MAX_AMENDMENTS)
  {
    hide Inv, Sourced, SourcesAgree, MergesHarmless, YearsExact, WellTyped, Provable, Apply;
    RunKept(lex, units, d, minted, edits);
    AcceptedIff(lex, units, Run(lex, d, edits), MintedRun(lex, d, minted, edits));
  }

  // ------------------------------------------------------------------ resolutions before amendments

  predicate ResolvesFirst(edits: seq<Edit>) {
    forall i, j :: 0 <= i < j < |edits| && edits[i].Message? ==> edits[j].Message?
  }

  lemma {:induction false} ResolvingKeepsAmendments(lex: Lexicon, d: Draft, edit: Edit)
    requires !edit.Message?
    ensures Apply(lex, d, edit).amendments == d.amendments
  {
    hide ResolveModality, ResolveConflict, Exclude, FollowUp;
    match edit
    case ModalityClick(s, m) =>
      var r := ResolveModality(lex, d, s, m);
      if r.Ok? { ModalityFrame(lex, d, r.value, s, m); }
    case ConflictChoice(s, k) =>
      var r := ResolveConflict(lex, d, s, k);
      if r.Ok? { ConflictFrame(lex, d, r.value, s, k); }
    case ExcludeClick(s) =>
      var r := Exclude(d, s);
      if r.Ok? { ExcludeFrame(d, r.value, s); }
  }

  lemma {:induction false} NoMessageNoAmendment(lex: Lexicon, d: Draft, edits: seq<Edit>)
    requires forall i :: 0 <= i < |edits| ==> !edits[i].Message?
    ensures Run(lex, d, edits).amendments == d.amendments
  {
    hide Apply;
    if edits != [] {
      NoMessageNoAmendment(lex, d, edits[..|edits| - 1]);
      ResolvingKeepsAmendments(lex, Run(lex, d, edits[..|edits| - 1]), edits[|edits| - 1]);
    }
  }

  /** Every criterion that gains evidence during the run is grounded in it. */
  ghost predicate MergesGrounded(lex: Lexicon, units: seq<SourceUnit>, d: Draft, edits: seq<Edit>) {
    edits == [] ||
    var before := edits[..|edits| - 1];
    MergesGrounded(lex, units, d, before)
    && forall i: nat, c :: Merged(Run(lex, d, before), Run(lex, d, edits), i, c) ==> i < |units| && GroundedIn(lex, c, units[i].text)
  }

  lemma {:induction false} UnamendedMergesAgree(
      lex: Lexicon, units: seq<SourceUnit>, d: Draft, e: Draft, minted: map<string, Params>)
    requires Inv(lex, units, d, minted) && d.amendments == []
    requires forall i: nat, c :: Merged(d, e, i, c) ==> i < |units| && GroundedIn(lex, c, units[i].text)
    ensures MergesAgree(lex, units, d, e, minted)
  {
    hide SpansAligned, SpansScored, CriteriaSupported, ReviewsOk, DecisionsOk, ResolutionsOk, AmendmentsOk,
         CriteriaDistinct;
    forall i: nat, c | Merged(d, e, i, c)
      ensures c.id in minted && minted[c.id] == ParamsOf(c)
    {
      assert ChainReaches(d, c, minted);
      assert ChainOf(d.amendments, c.id) == [];
    }
  }

  lemma {:induction false} MessageMergesAgree(
      lex: Lexicon, units: seq<SourceUnit>, d: Draft, minted: map<string, Params>, edit: Edit)
    requires Inv(lex, units, d, minted) && edit.Message?
    ensures MergesAgree(lex, units, d, Apply(lex, d, edit), minted)
  {
    hide SpansAligned, SpansScored, CriteriaSupported, ReviewsOk, DecisionsOk, ResolutionsOk, AmendmentsOk,
         CriteriaDistinct, FollowUp;
    var r := FollowUp(lex, d, edit.reading, edit.freshId);
    if r.Some? {
      FollowUpFrame(lex, units, d, r.value, edit.reading, edit.freshId);
      NothingMerged(lex, units, d, r.value, minted);
    } else {
      NothingMerged(lex, units, d, d, minted);
    }
  }

  /** When the review is finished before the first follow-up, every grounded merge is harmless. */
  lemma {:induction false} ResolvingFirstMergesHarmless(
      lex: Lexicon, units: seq<SourceUnit>, d: Draft, minted: map<string, Params>, edits: seq<Edit>)
    requires JustBuilt(lex, units, d, minted) && ResolvesFirst(edits) && MergesGrounded(lex, units, d, edits)
    ensures MergesHarmless(lex, units, d, minted, edits)
  {
    hide Inv, Sourced, SourcesAgree, Covers, MergesAgree;
    if edits != [] {
      var before, last := edits[..|edits| - 1], edits[|edits| - 1];
      ResolvingFirstMergesHarmless(lex, units, d, minted, before);
      RunKept(lex, units, d, minted, before);
      var here, minted' := Run(lex, d, before), MintedRun(lex, d, minted, before);
      if last.Message? {
        MessageMergesAgree(lex, units, here, minted', last);
      } else {
        assert forall i :: 0 <= i < |before| ==> before[i] == edits[i] && !before[i].Message?;
        NoMessageNoAmendment(lex, d, before);
        UnamendedMergesAgree(lex, units, here, Run(lex, d, edits), minted');
      }
    }
  }

  /** Completeness: review first, then amend with six-digit years, and the boundary accepts the draft. */
  lemma {:induction false} ResolvedThenAmendedIsAccepted(
      lex: Lexicon, units: seq<SourceUnit>, d: Draft, minted: map<string, Params>, edits: seq<Edit>)
    requires JustBuilt(lex, units, d, minted) && ResolvesFirst(edits) && MergesGrounded(lex, units, d, edits)
    requires SourcesAgree(lex, units, d, minted)
    requires YearsExact(Run(lex, d, edits)) && |Run(lex, d, edits).amendments| <= MAX_AMENDMENTS
    ensures var e := Run(lex, d, edits); WellTyped(e) && Provable(lex, e, Criteria(e))
  {
    ResolvingFirstMergesHarmless(lex, units, d, minted, edits);
    hide JustBuilt, SourcesAgree, Provable, WellTyped, YearsExact, MergesHarmless, Apply;
    RunAcceptedIff(lex, units, d, minted, edits);
  }
}
