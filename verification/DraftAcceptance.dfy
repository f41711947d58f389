/** Exactly when the confirmation boundary accepts a draft that the editor can reach. */
module DraftAcceptance {
  import opened Wrappers
  import opened Sequences
  import opened CoreText
  import opened YearValues
  import opened DraftSchemas
  import opened SemanticProvenance
  import opened DraftEditing
  import opened DraftInvariant
  import opened DraftPreservation

  /** Six significant digits hold every year value that a follow-up changed. */
  ghost predicate YearsExact(d: Draft) {
    forall c :: c in Criteria(d) && c.years.Some? && HasYearsChange(ChainOf(d.amendments, c.id)) ==> HasSixDigits(c.years.value)
  }

  lemma {:induction false} InvIsWellTyped(lex: Lexicon, units: seq<SourceUnit>, d: Draft, minted: map<string, Params>)
    requires Inv(lex, units, d, minted)
    ensures WellTyped(d)
  {
    forall r | r in d.resolutions ensures ResolutionOk(r) { assert ResolutionHeld(units, d, r); }
    forall x | x in d.needsReview && x.excluded ensures x.spanId.Some? { assert ReviewOk(units, d, x); }
  }

  // ------------------------------------------------------------------ the draft is explained

  ghost predicate Supports(d: Draft, i: SpanId, id: string) {
    i < |d.requirements| && d.requirements[i].state == Scorable && d.requirements[i].criterionId == Some(id)
  }

  lemma {:induction false} SupportingIs(units: seq<SourceUnit>, d: Draft, id: string)
    requires SpansAligned(units, d)
    ensures forall r :: r in Supporting(d, id) ==> Supports(d, r.spanId, id) && r == d.requirements[r.spanId]
    ensures forall i: nat :: Supports(d, i, id) ==> d.requirements[i] in Supporting(d, id)
  {
    forall r | r in Supporting(d, id)
      ensures Supports(d, r.spanId, id) && r == d.requirements[r.spanId]
    {
      assert r in d.requirements;
    }
  }

  lemma {:induction false} ScoredIdsAreNamed(lex: Lexicon, units: seq<SourceUnit>, d: Draft)
    requires |d.requirements| <= |units| && SpansScored(lex, units, d)
    ensures ScoredIds(d) <= NamedIds(Criteria(d))
  {
    hide SpanOrigin, Criteria, GroundedIn;
    forall r | r in d.requirements && r.state == Scorable
      ensures r.criterionId in NamedIds(Criteria(d))
    {
      var i :| 0 <= i < |d.requirements| && d.requirements[i] == r;
      var c :| c in Criteria(d) && Evidence(lex, units, d, i, c);
    }
  }

  lemma {:induction false} NamedIdsAreScored(units: seq<SourceUnit>, d: Draft, minted: map<string, Params>)
    requires CriteriaSupported(units, d, minted)
    ensures NamedIds(Criteria(d)) <= ScoredIds(d)
  {
    hide SpanOrigin, Criteria;
    forall c | c in Criteria(d)
      ensures Some(c.id) in ScoredIds(d)
    {
      var i: nat :| MintedFrom(units, d, i, c, minted);
      assert d.requirements[i] in d.requirements;
    }
  }

  lemma {:induction false} ReachableIsCoherent(
      lex: Lexicon, units: seq<SourceUnit>, d: Draft, minted: map<string, Params>)
    requires Sourced(lex, units, d) && SpansAligned(units, d) && CriteriaDistinct(lex, d) && SpansScored(lex, units, d) && CriteriaSupported(units, d, minted)
    ensures DraftCoherent(lex, d, Criteria(d))
  {
    hide SpansScored, CriteriaSupported, ScoredIds, NamedIds;
    ScoredIdsAreNamed(lex, units, d);
    NamedIdsAreScored(units, d, minted);
  }

  lemma {:induction false} ReachableActionsCoherent(lex: Lexicon, units: seq<SourceUnit>, d: Draft)
    requires SpansAligned(units, d) && DecisionsOk(d) && ResolutionsOk(units, d) && AmendmentsOk(d)
    ensures ActionsCoherent(d)
  {
    forall s: nat | s < |d.requirements|
      ensures KnownSpan(d, s)
    {
      assert d.requirements[s].spanId == s;
    }
    ResolvedSpansAreScored(units, d);
  }

  lemma {:induction false} EvidenceIsSource(lex: Lexicon, units: seq<SourceUnit>, d: Draft, c: Criterion, i: nat)
    requires SourceOk(units) && SpansAligned(units, d) && CriteriaDistinct(lex, d) && SpansScored(lex, units, d)
    requires c in Criteria(d) && Supports(d, i, c.id)
    ensures SpanIsSource(lex, units, c, d.requirements[i]) <==> GroundedIn(lex, c, units[i].text)
    ensures SpanOrigin(units, d, i).Some?
    ensures d.requirements[i].source.Some? && SpanRecordOk(SpanRecordOf(units, d.requirements[i]))
    ensures d.requirements[i].source == Some(ModelValidated) ==> d.model.Some?
  {
    hide SpanOrigin, CriteriaDistinct, GroundedIn;
    var c' :| c' in Criteria(d) && Evidence(lex, units, d, i, c');
    SameId(lex, d, c, c');
    assert units[i] in units;
  }

  /** With exact years the chain ends in the criterion's own parameters. */
  lemma {:induction false} ChainEndsExactly(lex: Lexicon, d: Draft, minted: map<string, Params>, c: Criterion)
    requires CriteriaDistinct(lex, d) && c in Criteria(d) && ChainReaches(d, c, minted) && YearsExact(d)
    ensures Replay(minted[c.id], ChainOf(d.amendments, c.id)) == Some(ParamsOf(c))
  {
    assert CriterionOk(lex, c);
    var chain := ChainOf(d.amendments, c.id);
    hide CriteriaDistinct;
    if HasYearsChange(chain) && c.years.Some? {
      EncodingRoundTripsIff(c.years.value);
    }
    assert AsEncoded(chain, ParamsOf(c)) == ParamsOf(c);
  }

  lemma {:induction false} ChainAmendsEvidence(lex: Lexicon, units: seq<SourceUnit>, d: Draft, c: Criterion)
    requires SpansAligned(units, d) && AmendmentsOk(d)
    ensures forall a :: a in ChainOf(d.amendments, c.id) ==> exists r :: r in Supporting(d, c.id) && r.spanId == a.spanId
  {
    SupportingIs(units, d, c.id);
    hide Supporting;
    forall a | a in ChainOf(d.amendments, c.id)
      ensures exists r :: r in Supporting(d, c.id) && r.spanId == a.spanId
    {
      assert a in d.amendments;
      assert d.requirements[a.spanId].state == Scorable;
      assert Supports(d, a.spanId, c.id);
      assert d.requirements[a.spanId].spanId == a.spanId;
    }
  }

  lemma {:induction false} EvidenceAgrees(
      lex: Lexicon, units: seq<SourceUnit>, d: Draft, minted: map<string, Params>, c: Criterion, r: SpanResult)
    requires SourceOk(units) && SpansAligned(units, d) && CriteriaDistinct(lex, d) && SpansScored(lex, units, d)
    requires c in Criteria(d) && r in Supporting(d, c.id) && SourcesAgree(lex, units, d, minted)
    ensures SpanIsSource(lex, units, c, r) && c.id in minted && SpanOrigin(units, d, r.spanId) == Some(minted[c.id])
  {
    SupportingIs(units, d, c.id);
    EvidenceIsSource(lex, units, d, c, r.spanId);
    hide SpanOrigin, SpanIsSource, SpansScored, CriteriaDistinct, GroundedIn, Supporting;
  }

  lemma {:induction false} ReachableCriterionIsProvable(
      lex: Lexicon, units: seq<SourceUnit>, d: Draft, minted: map<string, Params>, c: Criterion)
    requires SourceOk(units) && SpansAligned(units, d) && CriteriaDistinct(lex, d) && SpansScored(lex, units, d)
    requires CriteriaSupported(units, d, minted) && AmendmentsOk(d) && ChainReaches(d, c, minted)
    requires c in Criteria(d) && SourcesAgree(lex, units, d, minted) && YearsExact(d)
    ensures CriterionProvable(lex, units, d, c)
    ensures OriginOf(lex, units, d, c) == minted[c.id]
  {
    hide SpansAligned, CriteriaDistinct, SpansScored, AmendmentsOk, ChainReaches, SourcesAgree, YearsExact, SourceOk,
         SpanOrigin, SpanIsSource, Supporting, Replay;
    var supporting := Supporting(d, c.id);
    SupportingIs(units, d, c.id);
    var i: nat :| MintedFrom(units, d, i, c, minted);
    assert Supports(d, i, c.id);
    hide CriteriaSupported, Supports;
    assert supporting[0] in supporting;
    forall r | r in supporting
      ensures SpanIsSource(lex, units, c, r) && SpanOrigin(units, d, r.spanId) == Some(minted[c.id])
    {
      EvidenceAgrees(lex, units, d, minted, c, r);
    }
    ChainAmendsEvidence(lex, units, d, c);
    ChainEndsExactly(lex, d, minted, c);
  }

  lemma {:induction false} ReachableLeftOutIsSource(lex: Lexicon, units: seq<SourceUnit>, d: Draft, r: SpanResult)
    requires SourceOk(units) && SpansAligned(units, d) && DecisionsOk(d) && r in LeftOut(d)
    ensures LeftOutIsSource(units, d, r)
  {
    var i :| 0 <= i < |d.requirements| && d.requirements[i] == r;
    assert units[i] in units;
  }

  lemma {:induction false} ReachableExclusions(lex: Lexicon, units: seq<SourceUnit>, d: Draft)
    requires WellTyped(d) && DecisionsOk(d) && ReviewsOk(units, d)
    ensures ExcludedItems(d) == ExcludedSpans(d.decisions)
  {
    forall s | s in ExcludedItems(d)
      ensures s in ExcludedSpans(d.decisions)
    {
      var x :| x in d.needsReview && x.excluded && x.spanId.value == s;
      assert ReviewOk(units, d, x);
    }
    forall s | s in ExcludedSpans(d.decisions)
      ensures s in ExcludedItems(d)
    {
      var y :| y in d.decisions && y.verdict == ExcludedByReviewer && y.spanId == s;
      var x :| x in d.needsReview && x.excluded && x.spanId == Some(s);
    }
  }

  lemma {:induction false} ReachableIsExplained(
      lex: Lexicon, units: seq<SourceUnit>, d: Draft, minted: map<string, Params>)
    requires SourceOk(units) && Sourced(lex, units, d) && Inv(lex, units, d, minted)
    requires SourcesAgree(lex, units, d, minted) && YearsExact(d)
    ensures WellTyped(d) && Explained(lex, units, d, Criteria(d))
    ensures forall c :: c in Criteria(d) ==> c.id in minted && OriginOf(lex, units, d, c) == minted[c.id]
  {
    hide SpansAligned, SpansScored, CriteriaSupported, ReviewsOk, DecisionsOk, ResolutionsOk, AmendmentsOk, ChainReaches, CriteriaDistinct,
         SourceOk, Sourced, SourcesAgree, YearsExact, CriterionProvable, LeftOutIsSource, DraftCoherent, ActionsCoherent, SpanOrigin, WellTyped;
    InvIsWellTyped(lex, units, d, minted);
    ReachableIsCoherent(lex, units, d, minted);
    ReachableActionsCoherent(lex, units, d);
    ReachableExclusions(lex, units, d);
    MintedHasEveryId(d, minted);
    forall c | c in Criteria(d)
      ensures CriterionProvable(lex, units, d, c) && OriginOf(lex, units, d, c) == minted[c.id]
    {
      ReachableCriterionIsProvable(lex, units, d, minted, c);
    }
    forall r | r in LeftOut(d)
      ensures LeftOutIsSource(units, d, r)
    {
      ReachableLeftOutIsSource(lex, units, d, r);
    }
  }

  // ------------------------------------------------------------------ its record is valid

  /** Distinct numbers below a bound: there are no more of them than the bound. */
  lemma {:induction false} NumbersBounded(s: seq<nat>, n: nat)
    requires forall i, j :: 0 <= i < j < |s| ==> s[i] != s[j]
    requires forall i :: 0 <= i < |s| ==> s[i] < n
    ensures |s| <= n
  {
    DistinctSize<nat>(s);
    var below: seq<nat> := seq(n, i requires 0 <= i < n => i);
    var all := set x: nat | x in s;
    forall x | x in all
      ensures x in below
    {
      assert below[x] == x;
    }
    DistinctBound(below, all);
    assert |below| == n;
  }

  lemma {:induction false} ActionsBounded(units: seq<SourceUnit>, d: Draft)
    requires SpansAligned(units, d) && DecisionsOk(d) && ResolutionsOk(units, d) && |d.requirements| <= MAX_SPANS
    ensures |d.decisions| <= MAX_SPANS && |d.resolutions| <= MAX_SPANS
  {
    var n := |d.requirements|;
    var decided := seq(|d.decisions|, i requires 0 <= i < |d.decisions| => d.decisions[i].spanId);
    forall i | 0 <= i < |decided| ensures decided[i] < n { assert d.decisions[i] in d.decisions; }
    NumbersBounded(decided, n);
    ResolvedSpansAreScored(units, d);
    forall i | 0 <= i < |d.resolutions|
      ensures |d.resolutions[i].spans| >= 2 && d.resolutions[i].spans[0] < n
    {
      assert d.resolutions[i] in d.resolutions && ResolutionHeld(units, d, d.resolutions[i]);
      assert d.resolutions[i].spans[0] in d.resolutions[i].spans;
    }
    var firsts := seq(|d.resolutions|, i requires 0 <= i < |d.resolutions| => d.resolutions[i].spans[0]);
    forall i, j | 0 <= i < j < |firsts|
      ensures firsts[i] != firsts[j]
    {
      assert firsts[i] in d.resolutions[i].spans && firsts[j] in d.resolutions[j].spans;
      assert !ShareSpan(d.resolutions[i], d.resolutions[j]);
    }
    NumbersBounded(firsts, n);
  }

  lemma {:induction false} RecordSpans(lex: Lexicon, units: seq<SourceUnit>, d: Draft, c: Criterion)
    requires SpansAligned(units, d) && CriterionProvable(lex, units, d, c)
    ensures var cr := CriterionRecordOf(lex, units, d, c);
      && cr.criterionId == c.id
      && |cr.spans| == |Supporting(d, c.id)|
      && (forall s: nat :: s in SpanSet(cr) <==> Supports(d, s, c.id))
      && (forall x :: x in cr.spans ==> Supports(d, x.spanId, c.id) && x == SpanRecordOf(units, d.requirements[x.spanId]))
      && Distinct(SpanIds(cr))
  {
    var cr := CriterionRecordOf(lex, units, d, c);
    var supporting := Supporting(d, c.id);
    SupportingIs(units, d, c.id);
    hide SpansAligned, CriterionProvable, SpanIsSource, SpanOrigin;
    forall k | 0 <= k < |supporting|
      ensures Supports(d, supporting[k].spanId, c.id) && supporting[k] == d.requirements[supporting[k].spanId]
    {
      assert supporting[k] in supporting;
    }
    forall s: nat | Supports(d, s, c.id)
      ensures s in SpanSet(cr)
    {
      assert d.requirements[s] in supporting;
      var k :| 0 <= k < |supporting| && supporting[k] == d.requirements[s];
      assert AlignedAt(units, d, s);
      assert cr.spans[k] in cr.spans;
    }
    forall i, j | 0 <= i < j < |cr.spans|
      ensures SpanIds(cr)[i] != SpanIds(cr)[j]
    {
      var i', j' := FilterPair((r: SpanResult) => r.state == Scorable && r.criterionId == Some(c.id), d.requirements, i, j);
      assert AlignedAt(units, d, i') && AlignedAt(units, d, j');
    }
  }

  ghost predicate AlignedAt(units: seq<SourceUnit>, d: Draft, i: nat) {
    i < |d.requirements| && d.requirements[i].spanId == i
  }

  // ------------------------------------------------------------------ validity, clause by clause

  /** The record's k-th criterion, in terms of the draft. */
  ghost predicate RecordsDraft(
      lex: Lexicon, units: seq<SourceUnit>, d: Draft, minted: map<string, Params>, rec: Record)
  {
    && rec.decisions == d.decisions && rec.resolutions == d.resolutions && rec.amendments == d.amendments && rec.model == d.model
    && |rec.criteria| == |Criteria(d)|
    && (forall k :: 0 <= k < |rec.criteria| ==>
          && rec.criteria[k].criterionId == Criteria(d)[k].id
          && rec.criteria[k].final == ParamsOf(Criteria(d)[k])
          && Criteria(d)[k].id in minted && rec.criteria[k].origin == minted[Criteria(d)[k].id]
          && forall s: nat :: s in SpanSet(rec.criteria[k]) <==> Supports(d, s, Criteria(d)[k].id))
    && |rec.nonScorable| == |LeftOut(d)|
    && forall k :: 0 <= k < |rec.nonScorable| ==>
         LeftOut(d)[k].spanId < |units| && rec.nonScorable[k] == NonScorableOf(units, d, LeftOut(d)[k])
  }

  lemma {:induction false} RecordIs(lex: Lexicon, units: seq<SourceUnit>, d: Draft, minted: map<string, Params>)
    requires SpansAligned(units, d) && WellTyped(d) && Explained(lex, units, d, Criteria(d))
    requires forall c :: c in Criteria(d) ==> c.id in minted && OriginOf(lex, units, d, c) == minted[c.id]
    ensures RecordsDraft(lex, units, d, minted, RecordOf(lex, units, d, Criteria(d)))
  {
    hide SpansAligned, CriterionProvable, DraftCoherent, ActionsCoherent, OriginOf, WellTyped, Supporting;
    var rec := RecordOf(lex, units, d, Criteria(d));
    forall k | 0 <= k < |Criteria(d)|
      ensures rec.criteria[k].criterionId == Criteria(d)[k].id && rec.criteria[k].final == ParamsOf(Criteria(d)[k])
      ensures Criteria(d)[k].id in minted && rec.criteria[k].origin == minted[Criteria(d)[k].id]
      ensures forall s: nat :: s in SpanSet(rec.criteria[k]) <==> Supports(d, s, Criteria(d)[k].id)
    {
      var c := Criteria(d)[k];
      assert c in Criteria(d);
      RecordSpans(lex, units, d, c);
    }
    forall k | 0 <= k < |LeftOut(d)|
      ensures LeftOut(d)[k].spanId < |units|
    {
      assert LeftOut(d)[k] in LeftOut(d);
    }
  }

  lemma {:induction false} CriteriaRecordsApart(
      lex: Lexicon, units: seq<SourceUnit>, d: Draft, minted: map<string, Params>, rec: Record)
    requires CriteriaDistinct(lex, d) && RecordsDraft(lex, units, d, minted, rec)
    ensures forall i, j :: 0 <= i < j < |rec.criteria| ==>
      rec.criteria[i].criterionId != rec.criteria[j].criterionId && SpanSet(rec.criteria[i]) !! SpanSet(rec.criteria[j])
  {
  }

  lemma {:induction false} CriterionRecordsOk(
      lex: Lexicon, units: seq<SourceUnit>, d: Draft, minted: map<string, Params>, c: Criterion)
    requires SourceOk(units) && SpansAligned(units, d) && CriteriaDistinct(lex, d) && SpansScored(lex, units, d) && DecisionsOk(d)
    requires WellTyped(d) && Explained(lex, units, d, Criteria(d)) && c in Criteria(d)
    ensures CriterionRecordOk(RecordOf(lex, units, d, Criteria(d)), CriterionRecordOf(lex, units, d, c))
  {
    hide DraftCoherent, ActionsCoherent, WellTyped, SpansScored, CriteriaDistinct;
    var cr := CriterionRecordOf(lex, units, d, c);
    RecordSpans(lex, units, d, c);
    hide SpanOrigin;
    forall x | x in cr.spans
      ensures SpanRecordOk(x) && (x.source == ModelValidated ==> d.model.Some?)
    {
      EvidenceIsSource(lex, units, d, c, x.spanId);
    }
    forall s | s in SpanSet(cr)
      ensures s !in ExcludedSpans(d.decisions)
    {
      assert Supports(d, s, c.id);
    }
  }

  lemma {:induction false} NonScorableRecordsOk(
      lex: Lexicon, units: seq<SourceUnit>, d: Draft, minted: map<string, Params>, rec: Record)
    requires SourceOk(units) && SpansAligned(units, d) && DecisionsOk(d) && RecordsDraft(lex, units, d, minted, rec)
    ensures forall i, j :: 0 <= i < j < |rec.nonScorable| ==> rec.nonScorable[i].spanId != rec.nonScorable[j].spanId
    ensures forall n :: n in rec.nonScorable ==> NonScorableOk(n) && forall c :: c in rec.criteria ==> n.spanId !in SpanSet(c)
  {
    var keep := (r: SpanResult) => r.state != Scorable;
    forall i, j | 0 <= i < j < |rec.nonScorable|
      ensures rec.nonScorable[i].spanId != rec.nonScorable[j].spanId
    {
      var i', j' := FilterPair(keep, d.requirements, i, j);
    }
    forall n | n in rec.nonScorable
      ensures NonScorableOk(n) && forall c :: c in rec.criteria ==> n.spanId !in SpanSet(c)
    {
      var k :| 0 <= k < |rec.nonScorable| && rec.nonScorable[k] == n;
      assert LeftOut(d)[k] in LeftOut(d);
      ReachableLeftOutIsSource(lex, units, d, LeftOut(d)[k]);
      assert d.requirements[n.spanId].state != Scorable;
    }
  }

  lemma {:induction false} RecordedExclusionsAreDecisions(
      lex: Lexicon, units: seq<SourceUnit>, d: Draft, minted: map<string, Params>, rec: Record)
    requires SpansAligned(units, d) && DecisionsOk(d) && RecordsDraft(lex, units, d, minted, rec)
    ensures RecordedExclusions(rec.nonScorable) == ExcludedSpans(rec.decisions)
  {
    forall s | s in ExcludedSpans(d.decisions)
      ensures s in RecordedExclusions(rec.nonScorable)
    {
      var y :| y in d.decisions && y.verdict == ExcludedByReviewer && y.spanId == s;
      assert y == Decision(s, ExcludedByReviewer);
      var r := d.requirements[s];
      assert r in LeftOut(d);
      var k :| 0 <= k < |LeftOut(d)| && LeftOut(d)[k] == r;
      assert rec.nonScorable[k] in rec.nonScorable;
    }
    forall s | s in RecordedExclusions(rec.nonScorable)
      ensures s in ExcludedSpans(d.decisions)
    {
      var n :| n in rec.nonScorable && n.excluded && n.spanId == s;
      assert IsExcluded(d, s);
    }
  }

  lemma {:induction false} ResolutionOwner(
      lex: Lexicon, units: seq<SourceUnit>, d: Draft, minted: map<string, Params>, r: Resolution) returns (c: Criterion)
    requires SpansAligned(units, d) && ResolutionsOk(units, d) && SourcesAgree(lex, units, d, minted) && r in d.resolutions
    ensures c in Criteria(d) && ResolutionOk(r) && c.id in minted && minted[c.id] == Chosen(r)
    ensures forall t :: t in r.spans ==> Supports(d, t, c.id)
  {
    hide GroundedIn;
    assert ResolutionHeld(units, d, r);
    c :| c in Criteria(d) && OwnedBy(d, r, c);
    var s := r.spans[0];
    assert s in r.spans && Supports(d, s, c.id);
    var j :| 0 <= j < |d.resolutions| && d.resolutions[j] == r;
    ResolutionForAt(d.resolutions, j, s);
    assert SpanOrigin(units, d, s) == Some(Chosen(r));
  }

  lemma {:induction false} ResolutionsAreExplained(
      lex: Lexicon, units: seq<SourceUnit>, d: Draft, minted: map<string, Params>, rec: Record, r: Resolution)
    requires SpansAligned(units, d) && ResolutionsOk(units, d) && CriteriaDistinct(lex, d) && SourcesAgree(lex, units, d, minted)
    requires RecordsDraft(lex, units, d, minted, rec) && r in d.resolutions
    ensures ResolutionExplains(rec.criteria, r)
  {
    var c := ResolutionOwner(lex, units, d, minted, r);
    hide SpansAligned, ResolutionsOk, SourcesAgree, Chosen, Supports;
    var k :| 0 <= k < |Criteria(d)| && Criteria(d)[k] == c;
    var s := r.spans[0];
    assert s in r.spans;
    forall k' | 0 <= k' < |rec.criteria| && k' != k
      ensures s !in SpanSet(rec.criteria[k'])
    {
      assert Criteria(d)[k'].id != c.id;
      OneOwner(d, s, c.id, Criteria(d)[k'].id);
    }
  }

  lemma {:induction false} OneOwner(d: Draft, s: SpanId, a: string, b: string)
    ensures Supports(d, s, a) && Supports(d, s, b) ==> a == b
  {
  }

  lemma {:induction false} AmendmentsAreMatched(
      lex: Lexicon, units: seq<SourceUnit>, d: Draft, minted: map<string, Params>, rec: Record, a: Amendment)
    requires SpansAligned(units, d) && AmendmentsOk(d) && RecordsDraft(lex, units, d, minted, rec) && a in d.amendments
    ensures AmendmentMatches(rec.criteria, a)
  {
    var c :| c in Criteria(d) && c.id == a.criterionId;
    var k :| 0 <= k < |Criteria(d)| && Criteria(d)[k] == c;
    assert d.requirements[a.spanId].state == Scorable;
    assert Supports(d, a.spanId, c.id);
  }

  lemma {:induction false} ReachableRecordIsValid(
      lex: Lexicon, units: seq<SourceUnit>, d: Draft, minted: map<string, Params>)
    requires SourceOk(units) && Sourced(lex, units, d) && Inv(lex, units, d, minted)
    requires SourcesAgree(lex, units, d, minted) && YearsExact(d) && |d.amendments| <= MAX_AMENDMENTS
    ensures Provable(lex, d, Criteria(d))
  {
    hide SpansAligned, SpansScored, CriteriaSupported, ReviewsOk, DecisionsOk, ResolutionsOk, AmendmentsOk, ChainReaches, CriteriaDistinct,
         SourcesAgree, YearsExact, CriterionProvable, LeftOutIsSource, DraftCoherent, ActionsCoherent, SpanOrigin, WellTyped, Explained,
         RecordsDraft, CriterionRecordOf, CriterionRecordOk, ResolutionExplains, AmendmentMatches, NonScorableOk, RecordedExclusions, ExcludedSpans;
    ReachableIsExplained(lex, units, d, minted);
    var rec := RecordOf(lex, units, d, Criteria(d));
    RecordIs(lex, units, d, minted);
    LengthsBounded(lex, units, d, minted, rec);
    CriteriaRecordsApart(lex, units, d, minted, rec);
    NonScorableRecordsOk(lex, units, d, minted, rec);
    RecordedExclusionsAreDecisions(lex, units, d, minted, rec);
    forall cr | cr in rec.criteria
      ensures CriterionRecordOk(rec, cr)
    {
      CriterionRecordIn(lex, units, d, minted, cr);
    }
    forall r | r in rec.resolutions
      ensures ResolutionExplains(rec.criteria, r)
    {
      ResolutionsAreExplained(lex, units, d, minted, rec, r);
    }
    forall a | a in rec.amendments
      ensures AmendmentMatches(rec.criteria, a)
    {
      AmendmentsAreMatched(lex, units, d, minted, rec, a);
    }
  }

  lemma {:induction false} CriterionRecordIn(
      lex: Lexicon, units: seq<SourceUnit>, d: Draft, minted: map<string, Params>, cr: CriterionRecord)
    requires SourceOk(units) && SpansAligned(units, d) && CriteriaDistinct(lex, d) && SpansScored(lex, units, d) && DecisionsOk(d)
    requires WellTyped(d) && Explained(lex, units, d, Criteria(d))
    requires cr in RecordOf(lex, units, d, Criteria(d)).criteria
    ensures CriterionRecordOk(RecordOf(lex, units, d, Criteria(d)), cr)
  {
    hide SpansAligned, CriteriaDistinct, SpansScored, DecisionsOk, WellTyped, CriterionRecordOf, CriterionRecordOk,
         CriterionProvable, DraftCoherent, ActionsCoherent;
    var rec := RecordOf(lex, units, d, Criteria(d));
    var k :| 0 <= k < |rec.criteria| && rec.criteria[k] == cr;
    var c := Criteria(d)[k];
    assert c in Criteria(d);
    CriterionRecordsOk(lex, units, d, minted, c);
  }

  lemma {:induction false} LengthsBounded(
      lex: Lexicon, units: seq<SourceUnit>, d: Draft, minted: map<string, Params>, rec: Record)
    requires SourceOk(units) && SpansAligned(units, d) && DecisionsOk(d) && ResolutionsOk(units, d) && AmendmentsOk(d)
    requires CriteriaSupported(units, d, minted) && CriteriaDistinct(lex, d) && RecordsDraft(lex, units, d, minted, rec)
    ensures |rec.criteria| <= MAX_SPANS && |rec.decisions| <= MAX_SPANS && |rec.resolutions| <= MAX_SPANS && |rec.nonScorable| <= MAX_SPANS
    ensures rec.amendments == d.amendments && rec.resolutions == d.resolutions && rec.decisions == d.decisions
    ensures DecisionsOnce(rec.decisions) && ResolutionsOnce(rec.resolutions) && GapFree(rec.amendments)
  {
    ActionsBounded(units, d);
    CriteriaBounded(lex, units, d, minted);
  }

  // ------------------------------------------------------------------ and nothing else is accepted

  lemma {:induction false} ProvableSourcesAgree(
      lex: Lexicon, units: seq<SourceUnit>, d: Draft, minted: map<string, Params>, c: Criterion)
    requires SpansAligned(units, d) && CriteriaSupported(units, d, minted) && c in Criteria(d)
    requires CriterionProvable(lex, units, d, c)
    ensures c.id in minted && OriginOf(lex, units, d, c) == minted[c.id]
    ensures forall i: nat :: Supports(d, i, c.id) ==> SpanOrigin(units, d, i) == Some(minted[c.id]) && i < |units| && GroundedIn(lex, c, units[i].text)
  {
    SupportingIs(units, d, c.id);
    var i: nat :| MintedFrom(units, d, i, c, minted);
    assert Supports(d, i, c.id);
    hide SpanOrigin;
    forall j: nat | Supports(d, j, c.id)
      ensures SpanOrigin(units, d, j) == SpanOrigin(units, d, i) && GroundedIn(lex, c, units[j].text)
    {
      assert d.requirements[j] in Supporting(d, c.id) && d.requirements[i] in Supporting(d, c.id);
      assert AlignedAt(units, d, j) && AlignedAt(units, d, i);
    }
  }

  lemma {:induction false} ProvableYearsExact(
      lex: Lexicon, units: seq<SourceUnit>, d: Draft, minted: map<string, Params>, c: Criterion)
    requires CriterionProvable(lex, units, d, c) && c.id in minted && OriginOf(lex, units, d, c) == minted[c.id]
    requires ChainReaches(d, c, minted) && CriterionOk(lex, c) && c.years.Some? && HasYearsChange(ChainOf(d.amendments, c.id))
    ensures HasSixDigits(c.years.value)
  {
    var chain := ChainOf(d.amendments, c.id);
    assert AsEncoded(chain, ParamsOf(c)) == ParamsOf(c);
    EncodingRoundTripsIff(c.years.value);
  }

  lemma {:induction false} ProvableIsExact(lex: Lexicon, units: seq<SourceUnit>, d: Draft, minted: map<string, Params>)
    requires Sourced(lex, units, d) && Inv(lex, units, d, minted) && WellTyped(d)
    requires Provable(lex, d, Criteria(d))
    ensures SourcesAgree(lex, units, d, minted) && YearsExact(d) && |d.amendments| <= MAX_AMENDMENTS
  {
    hide SpansAligned, SpansScored, CriteriaSupported, ReviewsOk, DecisionsOk, ResolutionsOk, AmendmentsOk, ChainReaches,
         CriterionProvable, LeftOutIsSource, DraftCoherent, ActionsCoherent, SpanOrigin, CriterionRecordOf, CriterionRecordOk, OriginOf,
         CriterionOk, HasSixDigits;
    MintedHasEveryId(d, minted);
    forall c | c in Criteria(d)
      ensures c.id in minted
      ensures forall i: nat :: Supports(d, i, c.id) ==> SpanOrigin(units, d, i) == Some(minted[c.id]) && i < |units| && GroundedIn(lex, c, units[i].text)
      ensures c.years.Some? && HasYearsChange(ChainOf(d.amendments, c.id)) ==> HasSixDigits(c.years.value)
    {
      ProvableSourcesAgree(lex, units, d, minted, c);
      if c.years.Some? && HasYearsChange(ChainOf(d.amendments, c.id)) {
        ProvableYearsExact(lex, units, d, minted, c);
      }
    }
    forall i, c | 0 <= i < |d.requirements| && c in Criteria(d) && d.requirements[i].state == Scorable && d.requirements[i].criterionId == Some(c.id)
      ensures c.id in minted && SpanOrigin(units, d, i) == Some(minted[c.id]) && i < |units| && GroundedIn(lex, c, units[i].text)
    {
      assert Supports(d, i, c.id);
    }
  }

  /** The acceptance condition, on any draft that satisfies the edit invariant. */
  lemma {:induction false} AcceptedIff(lex: Lexicon, units: seq<SourceUnit>, d: Draft, minted: map<string, Params>)
    requires SourceOk(units) && Sourced(lex, units, d) && Inv(lex, units, d, minted)
    ensures WellTyped(d)
    ensures Provable(lex, d, Criteria(d)) <==>
            SourcesAgree(lex, units, d, minted) && YearsExact(d) && |d.amendments| <= MAX_AMENDMENTS
  {
    hide Inv, Provable, SourceOk, Sourced, WellTyped, SourcesAgree, YearsExact;
    InvIsWellTyped(lex, units, d, minted);
    if Provable(lex, d, Criteria(d)) {
      ProvableIsExact(lex, units, d, minted);
    }
    if SourcesAgree(lex, units, d, minted) && YearsExact(d) && |d.amendments| <= MAX_AMENDMENTS {
      ReachableRecordIsValid(lex, units, d, minted);
    }
  }
}
