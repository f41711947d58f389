/** Every edit keeps the draft invariant, and exactly one of them can make the evidence disagree. */
module DraftPreservation {
  import opened Wrappers
  import opened Sequences
  import opened CoreText
  import opened YearValues
  import opened DraftSchemas
  import opened SemanticProvenance
  import opened DraftEditing
  import opened DraftInvariant

  // ------------------------------------------------------------------ small facts about the copies

  lemma {:induction false} WithDecisionFacts(decisions: seq<Decision>, s: SpanId, v: Verdict)
    requires DecisionsOnce(decisions)
    ensures DecisionsOnce(WithDecision(decisions, s, v))
    ensures forall x :: x in WithDecision(decisions, s, v) <==> (x in decisions && x.spanId != s) || x == Decision(s, v)
  {
    var keep := (x: Decision) => x.spanId != s;
    var kept := Filter(keep, decisions);
    var all := WithDecision(decisions, s, v);
    assert all == kept + [Decision(s, v)];
    forall i, j | 0 <= i < j < |all|
      ensures all[i].spanId != all[j].spanId
    {
      if j < |kept| {
        var i', j' := FilterPair(keep, decisions, i, j);
      } else {
        assert kept[i] in kept;
      }
    }
  }

  lemma {:induction false} WithoutReviewFacts(items: seq<ReviewItem>, s: SpanId)
    requires forall i, j :: 0 <= i < j < |items| ==> Claims(items[i]) !! Claims(items[j])
    ensures var kept := WithoutReview(items, s);
      forall i, j :: 0 <= i < j < |kept| ==> Claims(kept[i]) !! Claims(kept[j])
  {
    var keep := (x: ReviewItem) => x.spanId != Some(s);
    var kept := Filter(keep, items);
    forall i, j | 0 <= i < j < |kept|
      ensures Claims(kept[i]) !! Claims(kept[j])
    {
      var i', j' := FilterPair(keep, items, i, j);
    }
  }

  /** Items that claim a common span are the same item. */
  lemma {:induction false} SameClaim(items: seq<ReviewItem>, x: ReviewItem, y: ReviewItem, s: SpanId)
    requires forall i, j :: 0 <= i < j < |items| ==> Claims(items[i]) !! Claims(items[j])
    requires x in items && y in items && s in Claims(x) && s in Claims(y)
    ensures x == y
  {
    var i :| 0 <= i < |items| && items[i] == x;
    var j :| 0 <= j < |items| && items[j] == y;
    assert i == j by {
      assert !(Claims(items[i]) !! Claims(items[j]));
    }
  }

  lemma {:induction false} NamedSpanIsClaimed(units: seq<SourceUnit>, d: Draft, x: ReviewItem)
    requires ReviewOk(units, d, x) && x.spanId.Some?
    ensures x.spanId.value in Claims(x)
  {
  }

  predicate Apart(lex: Lexicon, a: Criterion, b: Criterion) {
    a.id != b.id && CriterionIdentity(lex, a) != CriterionIdentity(lex, b)
  }

  lemma {:induction false} InsertedApart(lex: Lexicon, a: seq<Criterion>, b: seq<Criterion>, c: Criterion)
    requires forall i, j :: 0 <= i < j < |a + b| ==> Apart(lex, (a + b)[i], (a + b)[j])
    requires forall x :: x in a + b ==> Apart(lex, x, c)
    ensures forall i, j :: 0 <= i < j < |(a + [c]) + b| ==> Apart(lex, ((a + [c]) + b)[i], ((a + [c]) + b)[j])
  {
    var n := (a + [c]) + b;
    forall i, j | 0 <= i < j < |n|
      ensures Apart(lex, n[i], n[j])
    {
      var i' := if i <= |a| then i else i - 1;
      var j' := if j <= |a| then j else j - 1;
      if i == |a| {
        assert n[j] == (a + b)[j'];
        assert n[j] in a + b;
      } else if j == |a| {
        assert n[i] == (a + b)[i'];
        assert n[i] in a + b;
      } else {
        assert n[i] == (a + b)[i'] && n[j] == (a + b)[j'];
      }
    }
  }

  // ------------------------------------------------------------------ excluding a blocking item

  /** What the guard of an exclusion establishes: one unresolved blocking item, and no decision about its span yet. */
  lemma {:induction false} ExcludeGuard(
      lex: Lexicon, units: seq<SourceUnit>, d: Draft, minted: map<string, Params>, s: SpanId) returns (x: ReviewItem)
    requires Inv(lex, units, d, minted) && |d.requirements| == |units|
    requires Exclude(d, s).Ok?
    ensures x in d.needsReview && x.spanId == Some(s) && x.blocking && s in Claims(x)
    ensures s < |d.requirements| && d.requirements[s].state == NeedsReview
    ensures forall y :: y in d.decisions ==> y.spanId != s
  {
    var matches := Filter(ItemOf(s), d.needsReview);
    x := matches[0];
    assert x in matches;
    assert ReviewOk(units, d, x);
    NamedSpanIsClaimed(units, d, x);
    forall y | y in d.decisions
      ensures y.spanId != s
    {
      if y.spanId == s {
        var item :| item in d.needsReview && item.excluded && item.spanId == Some(s);
        assert ReviewOk(units, d, item);
        NamedSpanIsClaimed(units, d, item);
        SameClaim(d.needsReview, x, item, s);
      }
    }
  }

  // ------------------------------------------------------------------ edits that leave the evidence alone

  /** Same criteria, spans and amendments, and the scored spans keep their origins. */
  ghost predicate SameEvidence(units: seq<SourceUnit>, d: Draft, e: Draft) {
    && e.mustHave == d.mustHave && e.preferred == d.preferred && e.requirements == d.requirements
    && e.amendments == d.amendments && e.model == d.model
    && |d.requirements| <= |units|
    && forall i :: 0 <= i < |d.requirements| && d.requirements[i].state == Scorable ==>
         SpanOrigin(units, e, i) == SpanOrigin(units, d, i)
  }

  lemma {:induction false} SameBuckets(lex: Lexicon, d: Draft, e: Draft)
    requires e.mustHave == d.mustHave && e.preferred == d.preferred && CriteriaDistinct(lex, d)
    ensures CriteriaDistinct(lex, e)
  {
    assert Criteria(e) == Criteria(d);
  }

  lemma {:induction false} SameScored(lex: Lexicon, units: seq<SourceUnit>, d: Draft, e: Draft)
    requires SameEvidence(units, d, e) && SpansScored(lex, units, d)
    ensures SpansScored(lex, units, e)
  {
    forall i | 0 <= i < |e.requirements| && e.requirements[i].state == Scorable
      ensures SpanOrigin(units, e, i).Some? && exists c :: c in Criteria(e) && Evidence(lex, units, e, i, c)
    {
      var c :| c in Criteria(d) && Evidence(lex, units, d, i, c);
      assert Evidence(lex, units, e, i, c);
    }
  }

  lemma {:induction false} SameSupported(units: seq<SourceUnit>, d: Draft, e: Draft, minted: map<string, Params>)
    requires SameEvidence(units, d, e) && CriteriaSupported(units, d, minted)
    ensures CriteriaSupported(units, e, minted)
  {
    forall c | c in Criteria(e)
      ensures exists i: nat :: MintedFrom(units, e, i, c, minted)
    {
      assert c in Criteria(d);
      var i: nat :| MintedFrom(units, d, i, c, minted);
      assert d.requirements[i].criterionId == Some(c.id);
      assert MintedFrom(units, e, i, c, minted);
    }
  }

  lemma {:induction false} SameChains(d: Draft, e: Draft, minted: map<string, Params>)
    requires Criteria(e) == Criteria(d) && e.amendments == d.amendments
    requires forall c :: c in Criteria(d) ==> ChainReaches(d, c, minted)
    ensures forall c :: c in Criteria(e) ==> ChainReaches(e, c, minted)
  {
    forall c | c in Criteria(e)
      ensures ChainReaches(e, c, minted)
    {
      assert ChainReaches(d, c, minted);
    }
  }

  lemma {:induction false} SameAgreement(
      lex: Lexicon, units: seq<SourceUnit>, d: Draft, e: Draft, minted: map<string, Params>)
    requires SameEvidence(units, d, e)
    ensures SourcesAgree(lex, units, d, minted) <==> SourcesAgree(lex, units, e, minted)
  {
  }

  lemma {:induction false} SameResolutions(units: seq<SourceUnit>, d: Draft, e: Draft)
    requires SameEvidence(units, d, e) && ResolutionsOk(units, d) && e.resolutions == d.resolutions
    ensures ResolutionsOk(units, e)
  {
    forall r | r in e.resolutions
      ensures ResolutionHeld(units, e, r)
    {
      assert ResolutionHeld(units, d, r);
      var c :| c in Criteria(d) && OwnedBy(d, r, c);
      assert c in Criteria(e) && OwnedBy(e, r, c);
    }
  }

  lemma {:induction false} ExcludeKeepsInv(
      lex: Lexicon, units: seq<SourceUnit>, d: Draft, e: Draft, minted: map<string, Params>, s: SpanId)
    requires Inv(lex, units, d, minted) && |d.requirements| == |units|
    requires Exclude(d, s) == Ok(e)
    ensures Inv(lex, units, e, minted)
    ensures SourcesAgree(lex, units, d, minted) <==> SourcesAgree(lex, units, e, minted)
    ensures e.requirements == d.requirements && e.mustHave == d.mustHave && e.preferred == d.preferred && e.amendments == d.amendments
    ensures forall y :: y in d.decisions ==> y.spanId != s
    ensures forall y :: y in e.decisions <==> y in d.decisions || y == Decision(s, ExcludedByReviewer)
  {
    var x := ExcludeGuard(lex, units, d, minted, s);
    WithDecisionFacts(d.decisions, s, ExcludedByReviewer);
    ExcludedKeepsInv(lex, units, d, e, minted, s, x);
  }

  lemma {:induction false} ExcludedKeepsInv(
      lex: Lexicon, units: seq<SourceUnit>, d: Draft, e: Draft, minted: map<string, Params>, s: SpanId, x: ReviewItem)
    requires Inv(lex, units, d, minted)
    requires e == d.(needsReview := Acknowledged(d.needsReview, s), decisions := WithDecision(d.decisions, s, ExcludedByReviewer))
    requires x in d.needsReview && x.spanId == Some(s) && x.blocking && s in Claims(x)
    requires s < |d.requirements| && d.requirements[s].state == NeedsReview
    requires forall y :: y in d.decisions ==> y.spanId != s
    ensures Inv(lex, units, e, minted)
    ensures SourcesAgree(lex, units, d, minted) <==> SourcesAgree(lex, units, e, minted)
  {
    hide SpansScored, CriteriaSupported, ReviewsOk, ChainReaches, CriteriaDistinct, SourcesAgree, SpanOrigin, Claims,
         Acknowledged, ResolutionHeld;
    WithDecisionFacts(d.decisions, s, ExcludedByReviewer);
    OriginsKept(units, d, e);
    ExcludeKeepsReviews(units, d, e, s, x);
    SameBuckets(lex, d, e);
    SameScored(lex, units, d, e);
    SameSupported(units, d, e, minted);
    assert Criteria(e) == Criteria(d) && Ids(e) == Ids(d);
    SameChains(d, e, minted);
    SameResolutions(units, d, e);
    SameAgreement(lex, units, d, e, minted);
  }

  lemma {:induction false} ExcludeKeepsReviews(units: seq<SourceUnit>, d: Draft, e: Draft, s: SpanId, x: ReviewItem)
    requires ReviewsOk(units, d) && DecisionsOk(d) && x in d.needsReview && x.spanId == Some(s) && x.blocking && s in Claims(x)
    requires s < |d.requirements| && d.requirements[s].state == NeedsReview
    requires e == d.(needsReview := Acknowledged(d.needsReview, s), decisions := WithDecision(d.decisions, s, ExcludedByReviewer))
    requires forall y :: y in d.decisions ==> y.spanId != s
    requires DecisionsOnce(e.decisions) && forall y :: y in e.decisions <==> (y in d.decisions && y.spanId != s) || y == Decision(s, ExcludedByReviewer)
    ensures ReviewsOk(units, e) && DecisionsOk(e)
  {
    ExcludeKeepsDecisions(units, d, e, s, x);
    hide DecisionsOk, DecisionsOnce, WithDecision;
    forall i | 0 <= i < |e.needsReview|
      ensures ReviewOk(units, e, e.needsReview[i]) && Claims(e.needsReview[i]) == Claims(d.needsReview[i])
    {
      var y := d.needsReview[i];
      assert y in d.needsReview && ReviewOk(units, d, y);
      if y.spanId == Some(s) {
        NamedSpanIsClaimed(units, d, y);
        SameClaim(d.needsReview, x, y, s);
      }
      forall t | ShapeFor(units, d, y, t) ensures ShapeFor(units, e, e.needsReview[i], t) { }
    }
  }

  lemma {:induction false} ExcludeKeepsDecisions(units: seq<SourceUnit>, d: Draft, e: Draft, s: SpanId, x: ReviewItem)
    requires DecisionsOk(d) && x in d.needsReview && x.spanId == Some(s)
    requires s < |d.requirements| && d.requirements[s].state == NeedsReview
    requires e == d.(needsReview := Acknowledged(d.needsReview, s), decisions := WithDecision(d.decisions, s, ExcludedByReviewer))
    requires DecisionsOnce(e.decisions) && forall y :: y in e.decisions <==> (y in d.decisions && y.spanId != s) || y == Decision(s, ExcludedByReviewer)
    ensures DecisionsOk(e)
  {
    forall y | y in e.decisions && y.verdict == ExcludedByReviewer
      ensures exists item :: item in e.needsReview && item.excluded && item.spanId == Some(y.spanId)
    {
      var item: ReviewItem :| item in d.needsReview && item.spanId == Some(y.spanId) && (y.spanId == s || item.excluded);
      var k :| 0 <= k < |d.needsReview| && d.needsReview[k] == item;
      assert e.needsReview[k] in e.needsReview;
    }
  }

  /** Origins of the spans already scored survive an edit that decides nothing more about them. */
  lemma {:induction false} OriginsKept(units: seq<SourceUnit>, d: Draft, e: Draft)
    requires DecisionsOnce(d.decisions) && DecisionsOnce(e.decisions)
    requires ResolutionsOnce(d.resolutions) && ResolutionsOnce(e.resolutions)
    requires forall i, x: Decision :: 0 <= i < |d.requirements| && d.requirements[i].state == Scorable && x.spanId == i ==>
      (x in d.decisions <==> x in e.decisions)
    requires forall i, r: Resolution :: 0 <= i < |d.requirements| && d.requirements[i].state == Scorable && i in r.spans ==>
      (r in d.resolutions <==> r in e.resolutions)
    ensures forall i :: 0 <= i < |d.requirements| && d.requirements[i].state == Scorable ==>
      SpanOrigin(units, e, i) == SpanOrigin(units, d, i)
  {
    forall i | 0 <= i < |d.requirements| && d.requirements[i].state == Scorable
      ensures SpanOrigin(units, e, i) == SpanOrigin(units, d, i)
    {
      SpanOriginFrame(units, d, e, i);
    }
  }

  // ------------------------------------------------------------------ scoring the spans of a review item

  /** The spans of review item `x` are about to become evidence of `c`. */
  ghost predicate Attachable(
      units: seq<SourceUnit>, d: Draft, x: ReviewItem, s: SpanId, spans: set<SpanId>, c: Criterion)
  {
    && |d.requirements| <= |units|
    && x in d.needsReview && x.spanId == Some(s) && Claims(x) == spans && !x.excluded && s in spans
    && forall i :: i in spans ==>
      && i < |d.requirements| && d.requirements[i].state == NeedsReview
      && units[i].family == Some(c.kind)
      && d.requirements[i].source.Some? && (d.requirements[i].source.value == ModelValidated ==> d.model.Some?)
  }

  /** The criteria of `e` are those of `d`, with `c` appended to its bucket when it is new. */
  ghost predicate Added(d: Draft, e: Draft, c: Criterion, isNew: bool) {
    && e.mustHave == (if isNew && c.modality == MustHave then d.mustHave + [c] else d.mustHave)
    && e.preferred == (if isNew && c.modality == Preferred then d.preferred + [c] else d.preferred)
    && (!isNew ==> c in Criteria(d))
  }

  /** Draft `e` is `d` with those spans scored for `c`, a criterion of `d` or a new one. */
  ghost predicate Attached(d: Draft, e: Draft, s: SpanId, spans: set<SpanId>, c: Criterion, isNew: bool) {
    && e.requirements == Scored(d.requirements, spans, c.modality, c.id)
    && e.needsReview == WithoutReview(d.needsReview, s)
    && e.amendments == d.amendments && e.model == d.model
    && Added(d, e, c, isNew)
  }

  /** The human action recorded with it: a modality for the one span, or one option of the conflict. */
  ghost predicate Recorded(units: seq<SourceUnit>, d: Draft, e: Draft, s: SpanId, spans: set<SpanId>, c: Criterion) {
    DecidedFor(units, d, e, s, spans, c) || ChosenFor(units, d, e, s, spans, c)
  }

  ghost predicate NewCriterion(lex: Lexicon, d: Draft, c: Criterion) {
    && CriterionOk(lex, c) && IsCriterionId(c.id) && LevelPresent(c.level)
    && forall x :: x in Criteria(d) ==> Apart(lex, x, c)
  }

  lemma {:induction false} AddedCriteria(d: Draft, e: Draft, c: Criterion, isNew: bool)
    requires Added(d, e, c, isNew)
    ensures forall x :: x in Criteria(e) <==> x in Criteria(d) || x == c
  {
    forall x
      ensures x in Criteria(e) <==> x in Criteria(d) || x == c
    {
      assert x in Criteria(e) <==> x in e.mustHave || x in e.preferred;
      assert x in Criteria(d) <==> x in d.mustHave || x in d.preferred;
    }
  }

  lemma {:induction false} AddedDistinct(lex: Lexicon, d: Draft, e: Draft, c: Criterion, isNew: bool)
    requires Added(d, e, c, isNew) && CriteriaDistinct(lex, d)
    requires isNew ==> NewCriterion(lex, d, c)
    ensures CriteriaDistinct(lex, e)
  {
    AddedCriteria(d, e, c, isNew);
    if isNew {
      assert forall i, j :: 0 <= i < j < |Criteria(d)| ==> Apart(lex, Criteria(d)[i], Criteria(d)[j]);
      if c.modality == MustHave {
        InsertedApart(lex, d.mustHave, d.preferred, c);
      } else {
        assert d.mustHave + (d.preferred + [c]) == (Criteria(d) + [c]) + [];
        assert Criteria(d) + [] == Criteria(d);
        InsertedApart(lex, Criteria(d), [], c);
      }
      assert forall i, j :: 0 <= i < j < |Criteria(e)| ==> Apart(lex, Criteria(e)[i], Criteria(e)[j]);
    } else {
      assert Criteria(e) == Criteria(d);
    }
  }

  ghost predicate DecidedFor(units: seq<SourceUnit>, d: Draft, e: Draft, s: SpanId, spans: set<SpanId>, c: Criterion) {
    && spans == {s} && s < |units| && units[s].modality.None?
    && e.decisions == WithDecision(d.decisions, s, VerdictOf(c.modality)) && e.resolutions == d.resolutions
    && ParamsOf(c) == SemanticParameters(c.modality, units[s].years, units[s].level)
  }

  ghost predicate ChosenFor(units: seq<SourceUnit>, d: Draft, e: Draft, s: SpanId, spans: set<SpanId>, c: Criterion) {
    && e.decisions == d.decisions && |e.resolutions| == |d.resolutions| + 1
    && e.resolutions[..|d.resolutions|] == d.resolutions
    && var r := e.resolutions[|d.resolutions|];
       && ResolutionOk(r) && OptionsAreTheSource(units, r) && (set i | i in r.spans) == spans && Chosen(r) == ParamsOf(c)
  }

  lemma {:induction false} DecidedOrigins(
      units: seq<SourceUnit>, d: Draft, e: Draft, s: SpanId, spans: set<SpanId>, c: Criterion)
    requires SpansAligned(units, d) && DecisionsOk(d) && ResolutionsOk(units, d)
    requires forall i :: i in spans ==> i < |d.requirements| && d.requirements[i].state == NeedsReview
    requires DecidedFor(units, d, e, s, spans, c)
    ensures DecisionsOnce(e.decisions) && ResolutionsOnce(e.resolutions)
    ensures SpanOrigin(units, e, s) == Some(ParamsOf(c))
    ensures forall i :: 0 <= i < |d.requirements| && d.requirements[i].state == Scorable ==>
      SpanOrigin(units, e, i) == SpanOrigin(units, d, i)
  {
    ResolvedSpansAreScored(units, d);
    assert DecisionsOnce(d.decisions) && ResolutionsOnce(d.resolutions);
    hide SpansAligned, DecisionsOk, ResolutionsOk;
    WithDecisionFacts(d.decisions, s, VerdictOf(c.modality));
    DecidedOrigin(units, e, s, c);
    hide SpanOrigin, DecisionsOnce, ResolutionsOnce, WithDecision;
    OriginsKept(units, d, e);
  }

  lemma {:induction false} DecidedOrigin(units: seq<SourceUnit>, e: Draft, s: SpanId, c: Criterion)
    requires s < |units| && units[s].modality.None? && ParamsOf(c) == SemanticParameters(c.modality, units[s].years, units[s].level)
    requires DecisionsOnce(e.decisions) && Decision(s, VerdictOf(c.modality)) in e.decisions
    requires forall r :: r in e.resolutions ==> s !in r.spans
    ensures SpanOrigin(units, e, s) == Some(ParamsOf(c))
  {
    var k :| 0 <= k < |e.decisions| && e.decisions[k] == Decision(s, VerdictOf(c.modality));
    DecisionForAt(e.decisions, k);
    assert ResolutionFor(e.resolutions, s) == None;
  }

  lemma {:induction false} ChosenOrigins(
      units: seq<SourceUnit>, d: Draft, e: Draft, s: SpanId, spans: set<SpanId>, c: Criterion)
    requires SpansAligned(units, d) && DecisionsOk(d) && ResolutionsOk(units, d)
    requires forall i :: i in spans ==> i < |d.requirements| && d.requirements[i].state == NeedsReview
    requires ChosenFor(units, d, e, s, spans, c)
    ensures DecisionsOnce(e.decisions) && ResolutionsOnce(e.resolutions)
    ensures forall i :: i in spans ==> SpanOrigin(units, e, i) == Some(ParamsOf(c))
    ensures forall i :: 0 <= i < |d.requirements| && d.requirements[i].state == Scorable ==>
      SpanOrigin(units, e, i) == SpanOrigin(units, d, i)
  {
    ResolvedSpansAreScored(units, d);
    assert DecisionsOnce(d.decisions) && ResolutionsOnce(d.resolutions);
    hide SpansAligned, DecisionsOk, ResolutionsOk, ResolutionOk, OptionsAreTheSource;
    var n := |d.resolutions|;
    var r := e.resolutions[n];
    assert e.resolutions == d.resolutions + [r];
    assert forall i :: i in r.spans <==> i in spans;
    forall i, j | 0 <= i < j < |e.resolutions|
      ensures !ShareSpan(e.resolutions[i], e.resolutions[j])
    {
      assert i < n && e.resolutions[i] == d.resolutions[i];
      if j == n {
        assert d.resolutions[i] in d.resolutions;
      } else {
        assert e.resolutions[j] == d.resolutions[j];
      }
    }
    OriginsKept(units, d, e);
    forall i | i in spans
      ensures SpanOrigin(units, e, i) == Some(ParamsOf(c))
    {
      ResolutionForAt(e.resolutions, n, i);
    }
  }

  /** The recorded action gives the new evidence the criterion's parameters and leaves the old origins alone. */
  lemma {:induction false} AttachedOrigins(
      lex: Lexicon, units: seq<SourceUnit>, d: Draft, e: Draft, minted: map<string, Params>, s: SpanId,
      spans: set<SpanId>, c: Criterion)
    requires SpansAligned(units, d) && DecisionsOk(d) && ResolutionsOk(units, d)
    requires forall i :: i in spans ==> i < |d.requirements| && d.requirements[i].state == NeedsReview
    requires Recorded(units, d, e, s, spans, c)
    ensures DecisionsOnce(e.decisions) && ResolutionsOnce(e.resolutions)
    ensures forall i :: i in spans ==> SpanOrigin(units, e, i) == Some(ParamsOf(c))
    ensures forall i :: 0 <= i < |d.requirements| && d.requirements[i].state == Scorable ==>
      SpanOrigin(units, e, i) == SpanOrigin(units, d, i)
  {
    hide SpansAligned, DecisionsOk, ResolutionsOk, SpanOrigin, ChosenFor;
    if ChosenFor(units, d, e, s, spans, c) {
      ChosenOrigins(units, d, e, s, spans, c);
    } else {
      DecidedOrigins(units, d, e, s, spans, c);
    }
  }

  lemma {:induction false} ResolvedSpansAreScored(units: seq<SourceUnit>, d: Draft)
    requires SpansAligned(units, d) && ResolutionsOk(units, d)
    ensures forall r, i :: r in d.resolutions && i in r.spans ==> i < |d.requirements| && d.requirements[i].state == Scorable
  {
    forall r, i | r in d.resolutions && i in r.spans
      ensures i < |d.requirements| && d.requirements[i].state == Scorable
    {
      assert ResolutionHeld(units, d, r);
      var c :| c in Criteria(d) && OwnedBy(d, r, c);
    }
  }

  lemma {:induction false} AttachedScored(
      lex: Lexicon, units: seq<SourceUnit>, d: Draft, e: Draft, x: ReviewItem, s: SpanId, spans: set<SpanId>,
      c: Criterion, isNew: bool)
    requires SpansAligned(units, d) && SpansScored(lex, units, d)
    requires Attachable(units, d, x, s, spans, c) && Attached(d, e, s, spans, c, isNew)
    requires forall i :: i in spans ==> SpanOrigin(units, e, i) == Some(ParamsOf(c))
    requires forall i :: 0 <= i < |d.requirements| && d.requirements[i].state == Scorable ==>
      SpanOrigin(units, e, i) == SpanOrigin(units, d, i)
    ensures SpansScored(lex, units, e)
  {
    AddedCriteria(d, e, c, isNew);
    forall i | 0 <= i < |e.requirements| && e.requirements[i].state == Scorable
      ensures SpanOrigin(units, e, i).Some? && exists y :: y in Criteria(e) && Evidence(lex, units, e, i, y)
    {
      if i in spans {
        assert c in Criteria(e) && Evidence(lex, units, e, i, c);
      } else {
        assert e.requirements[i] == d.requirements[i];
        var y :| y in Criteria(d) && Evidence(lex, units, d, i, y);
        assert y in Criteria(e) && Evidence(lex, units, e, i, y);
      }
    }
  }

  lemma {:induction false} AttachedSupported(
      units: seq<SourceUnit>, d: Draft, e: Draft, minted: map<string, Params>, s: SpanId, spans: set<SpanId>,
      c: Criterion, isNew: bool)
    requires SpansAligned(units, d) && CriteriaSupported(units, d, minted)
    requires Attached(d, e, s, spans, c, isNew) && s in spans && s < |d.requirements|
    requires forall i :: i in spans ==> SpanOrigin(units, e, i) == Some(ParamsOf(c))
    requires forall i :: i in spans ==> i < |d.requirements| && d.requirements[i].state == NeedsReview
    requires forall i :: 0 <= i < |d.requirements| && d.requirements[i].state == Scorable ==>
      SpanOrigin(units, e, i) == SpanOrigin(units, d, i)
    requires isNew ==> c.id !in Ids(d)
    ensures CriteriaSupported(units, e, if isNew then minted[c.id := ParamsOf(c)] else minted)
  {
    var minted' := if isNew then minted[c.id := ParamsOf(c)] else minted;
    AddedCriteria(d, e, c, isNew);
    forall y | y in Criteria(e)
      ensures exists i: nat :: MintedFrom(units, e, i, y, minted')
    {
      if y in Criteria(d) {
        var i: nat :| MintedFrom(units, d, i, y, minted);
        assert e.requirements[i] == d.requirements[i];
        assert y.id in Ids(d);
        assert MintedFrom(units, e, i, y, minted');
      } else {
        assert MintedFrom(units, e, s, c, minted');
      }
    }
  }

  lemma {:induction false} AttachedReviews(
      lex: Lexicon, units: seq<SourceUnit>, d: Draft, e: Draft, x: ReviewItem, s: SpanId, spans: set<SpanId>,
      c: Criterion, isNew: bool)
    requires SpansAligned(units, d) && ReviewsOk(units, d) && DecisionsOk(d)
    requires Attachable(units, d, x, s, spans, c) && Attached(d, e, s, spans, c, isNew) && Recorded(units, d, e, s, spans, c)
    ensures ReviewsOk(units, e)
  {
    WithoutReviewFacts(d.needsReview, s);
    forall y | y in e.needsReview
      ensures ReviewOk(units, e, y)
    {
      assert y in d.needsReview && y.spanId != Some(s) && ReviewOk(units, d, y);
      forall t | t in Claims(y)
        ensures t !in spans
      {
        if t in spans {
          SameClaim(d.needsReview, x, y, t);
        }
      }
      assert Claims(y) !! spans;
      forall t | t in Claims(y) && ShapeFor(units, d, y, t) ensures ShapeFor(units, e, y, t) { }
      if y.excluded {
        KeptDecision(units, d, e, s, spans, c, Decision(y.spanId.value, ExcludedByReviewer));
      }
    }
  }

  lemma {:induction false} KeptDecision(
      units: seq<SourceUnit>, d: Draft, e: Draft, s: SpanId, spans: set<SpanId>, c: Criterion, y: Decision)
    requires Recorded(units, d, e, s, spans, c) && DecisionsOnce(d.decisions) && y in d.decisions && y.spanId != s
    ensures y in e.decisions
  {
    WithDecisionFacts(d.decisions, s, VerdictOf(c.modality));
  }

  lemma {:induction false} AttachedDecisions(
      lex: Lexicon, units: seq<SourceUnit>, d: Draft, e: Draft, x: ReviewItem, s: SpanId, spans: set<SpanId>,
      c: Criterion, isNew: bool)
    requires SpansAligned(units, d) && ReviewsOk(units, d) && DecisionsOk(d)
    requires Attachable(units, d, x, s, spans, c) && Attached(d, e, s, spans, c, isNew) && Recorded(units, d, e, s, spans, c)
    requires DecisionsOnce(e.decisions)
    ensures DecisionsOk(e)
  {
    WithDecisionFacts(d.decisions, s, VerdictOf(c.modality));
    forall y | y in e.decisions
      ensures y.spanId < |e.requirements|
      ensures if y.verdict == ExcludedByReviewer
              then e.requirements[y.spanId].state == NeedsReview
                   && exists item :: item in e.needsReview && item.excluded && item.spanId == Some(y.spanId)
              else e.requirements[y.spanId].state == Scorable
    {
      if y in d.decisions && y.verdict == ExcludedByReviewer {
        var item :| item in d.needsReview && item.excluded && item.spanId == Some(y.spanId);
        assert ReviewOk(units, d, item);
        NamedSpanIsClaimed(units, d, item);
        if y.spanId in spans {
          SameClaim(d.needsReview, x, item, y.spanId);
        }
        assert item in e.needsReview;
      }
    }
  }

  lemma {:induction false} AttachedResolutions(
      lex: Lexicon, units: seq<SourceUnit>, d: Draft, e: Draft, s: SpanId, spans: set<SpanId>, c: Criterion, isNew: bool)
    requires SpansAligned(units, d) && ResolutionsOk(units, d)
    requires forall i :: i in spans ==> i < |d.requirements| && d.requirements[i].state == NeedsReview
    requires Attached(d, e, s, spans, c, isNew) && Recorded(units, d, e, s, spans, c) && ResolutionsOnce(e.resolutions)
    ensures ResolutionsOk(units, e)
  {
    AddedCriteria(d, e, c, isNew);
    forall r | r in e.resolutions
      ensures ResolutionHeld(units, e, r)
    {
      if r in d.resolutions {
        assert ResolutionHeld(units, d, r);
        var y :| y in Criteria(d) && OwnedBy(d, r, y);
        assert y in Criteria(e) && OwnedBy(e, r, y);
      } else {
        var k :| 0 <= k < |e.resolutions| && e.resolutions[k] == r;
        assert k < |d.resolutions| ==> e.resolutions[..|d.resolutions|][k] == d.resolutions[k];
        assert forall i :: i in r.spans <==> i in spans;
        assert c in Criteria(e) && OwnedBy(e, r, c);
      }
    }
  }

  lemma {:induction false} AttachedAmendments(
      units: seq<SourceUnit>, d: Draft, e: Draft, s: SpanId, spans: set<SpanId>, c: Criterion, isNew: bool)
    requires SpansAligned(units, d) && AmendmentsOk(d) && Attached(d, e, s, spans, c, isNew)
    requires forall i :: i in spans ==> i < |d.requirements| && d.requirements[i].state == NeedsReview
    ensures AmendmentsOk(e)
  {
    AddedCriteria(d, e, c, isNew);
    forall a | a in e.amendments
      ensures a.criterionId in Ids(e) && a.spanId < |e.requirements| && e.requirements[a.spanId].criterionId == Some(a.criterionId)
    {
      assert a.criterionId in Ids(d);
      assert e.requirements[a.spanId] == d.requirements[a.spanId];
    }
  }

  lemma {:induction false} AttachedChains(
      lex: Lexicon, d: Draft, e: Draft, minted: map<string, Params>, s: SpanId, spans: set<SpanId>, c: Criterion,
      isNew: bool)
    requires Attached(d, e, s, spans, c, isNew) && AmendmentsOk(d)
    requires forall y :: y in Criteria(d) ==> ChainReaches(d, y, minted)
    requires isNew ==> c.id !in Ids(d)
    ensures var minted' := if isNew then minted[c.id := ParamsOf(c)] else minted;
      forall y :: y in Criteria(e) ==> ChainReaches(e, y, minted')
  {
    var minted' := if isNew then minted[c.id := ParamsOf(c)] else minted;
    AddedCriteria(d, e, c, isNew);
    forall y | y in Criteria(e)
      ensures ChainReaches(e, y, minted')
    {
      if y in Criteria(d) {
        assert y.id in Ids(d) && ChainReaches(d, y, minted);
      } else {
        FilterNone((a: Amendment) => a.criterionId == c.id, e.amendments);
        assert ChainOf(e.amendments, c.id) == [];
      }
    }
  }

  predicate Grounds(lex: Lexicon, units: seq<SourceUnit>, c: Criterion, spans: set<SpanId>) {
    forall i :: i in spans ==> i < |units| && GroundedIn(lex, c, units[i].text)
  }

  /** Merging spans into `c` is harmless: they ground it, and it still is what it was minted as. */
  predicate MergeAgrees(
      lex: Lexicon, units: seq<SourceUnit>, minted: map<string, Params>, c: Criterion, spans: set<SpanId>)
  {
    c.id in minted && minted[c.id] == ParamsOf(c) && Grounds(lex, units, c, spans)
  }

  /** The evidence still agrees afterwards exactly when it did before and the criterion is unamended or new. */
  lemma {:induction false} AttachedAgreement(
      lex: Lexicon, units: seq<SourceUnit>, d: Draft, e: Draft, minted: map<string, Params>, s: SpanId,
      spans: set<SpanId>, c: Criterion, isNew: bool)
    requires SpansAligned(units, d) && CriteriaDistinct(lex, e)
    requires Attached(d, e, s, spans, c, isNew) && s in spans
    requires forall y :: y in Criteria(d) ==> y.id in minted
    requires forall i :: i in spans ==> i < |d.requirements| && d.requirements[i].state == NeedsReview
    requires forall i :: i in spans ==> SpanOrigin(units, e, i) == Some(ParamsOf(c))
    requires forall i :: 0 <= i < |d.requirements| && d.requirements[i].state == Scorable ==>
      SpanOrigin(units, e, i) == SpanOrigin(units, d, i)
    requires isNew ==> c.id !in Ids(d) && Grounds(lex, units, c, spans)
    requires SpansScored(lex, units, d)
    ensures var minted' := if isNew then minted[c.id := ParamsOf(c)] else minted;
      SourcesAgree(lex, units, e, minted') <==> SourcesAgree(lex, units, d, minted) && (isNew || MergeAgrees(lex, units, minted, c, spans))
  {
    hide SpanOrigin, GroundedIn, CriteriaDistinct, SpansScored, MergeAgrees, SourcesAgree;
    if SourcesAgree(lex, units, d, minted) && (isNew || MergeAgrees(lex, units, minted, c, spans)) {
      AgreementGained(lex, units, d, e, minted, s, spans, c, isNew);
    }
    if SourcesAgree(lex, units, e, if isNew then minted[c.id := ParamsOf(c)] else minted) {
      AgreementWasThere(lex, units, d, e, minted, s, spans, c, isNew);
    }
  }

  lemma {:induction false} AgreementGained(
      lex: Lexicon, units: seq<SourceUnit>, d: Draft, e: Draft, minted: map<string, Params>, s: SpanId,
      spans: set<SpanId>, c: Criterion, isNew: bool)
    requires SpansAligned(units, d) && CriteriaDistinct(lex, e) && SpansScored(lex, units, d)
    requires Attached(d, e, s, spans, c, isNew)
    requires forall i :: i in spans ==> SpanOrigin(units, e, i) == Some(ParamsOf(c))
    requires forall i :: 0 <= i < |d.requirements| && d.requirements[i].state == Scorable ==>
      SpanOrigin(units, e, i) == SpanOrigin(units, d, i)
    requires SourcesAgree(lex, units, d, minted)
    requires if isNew then c.id !in Ids(d) && Grounds(lex, units, c, spans) else MergeAgrees(lex, units, minted, c, spans)
    ensures SourcesAgree(lex, units, e, if isNew then minted[c.id := ParamsOf(c)] else minted)
  {
    var minted' := if isNew then minted[c.id := ParamsOf(c)] else minted;
    AddedCriteria(d, e, c, isNew);
    hide SpanOrigin, GroundedIn, CriteriaDistinct, Added;
    forall i, y | 0 <= i < |e.requirements| && y in Criteria(e) && e.requirements[i].state == Scorable && e.requirements[i].criterionId == Some(y.id)
      ensures y.id in minted' && SpanOrigin(units, e, i) == Some(minted'[y.id]) && i < |units| && GroundedIn(lex, y, units[i].text)
    {
      if i in spans {
        assert y.id == c.id;
        SameId(lex, e, c, y);
      } else {
        assert e.requirements[i] == d.requirements[i];
        var z :| z in Criteria(d) && Evidence(lex, units, d, i, z);
        assert z.id in Ids(d);
        SameId(lex, e, y, z);
      }
    }
  }

  lemma {:induction false} AgreementWasThere(
      lex: Lexicon, units: seq<SourceUnit>, d: Draft, e: Draft, minted: map<string, Params>, s: SpanId,
      spans: set<SpanId>, c: Criterion, isNew: bool)
    requires SpansAligned(units, d) && Attached(d, e, s, spans, c, isNew)
    requires forall y :: y in Criteria(d) ==> y.id in minted
    requires forall i :: i in spans ==> i < |d.requirements| && d.requirements[i].state == NeedsReview
    requires s in spans && forall i :: i in spans ==> SpanOrigin(units, e, i) == Some(ParamsOf(c))
    requires forall i :: 0 <= i < |d.requirements| && d.requirements[i].state == Scorable ==>
      SpanOrigin(units, e, i) == SpanOrigin(units, d, i)
    requires isNew ==> c.id !in Ids(d)
    requires SourcesAgree(lex, units, e, if isNew then minted[c.id := ParamsOf(c)] else minted)
    ensures SourcesAgree(lex, units, d, minted) && (isNew || MergeAgrees(lex, units, minted, c, spans))
  {
    AddedCriteria(d, e, c, isNew);
    assert c in Criteria(e);
    hide SpanOrigin, GroundedIn, Added;
    forall i, y | 0 <= i < |d.requirements| && y in Criteria(d) && d.requirements[i].state == Scorable && d.requirements[i].criterionId == Some(y.id)
      ensures y.id in minted && SpanOrigin(units, d, i) == Some(minted[y.id]) && i < |units| && GroundedIn(lex, y, units[i].text)
    {
      assert y.id in Ids(d) && y in Criteria(e) && e.requirements[i] == d.requirements[i];
    }
    forall i | i in spans
      ensures !isNew ==> minted[c.id] == ParamsOf(c) && i < |units| && GroundedIn(lex, c, units[i].text)
    {
      assert e.requirements[i].state == Scorable && e.requirements[i].criterionId == Some(c.id);
    }
  }

  lemma {:induction false} SameId(lex: Lexicon, d: Draft, a: Criterion, b: Criterion)
    requires CriteriaDistinct(lex, d) && a in Criteria(d) && b in Criteria(d) && a.id == b.id
    ensures a == b
  {
    var i :| 0 <= i < |Criteria(d)| && Criteria(d)[i] == a;
    var j :| 0 <= j < |Criteria(d)| && Criteria(d)[j] == b;
  }

  lemma {:induction false} MintedHasEveryId(d: Draft, minted: map<string, Params>)
    requires forall c :: c in Criteria(d) ==> ChainReaches(d, c, minted)
    ensures forall c :: c in Criteria(d) ==> c.id in minted
  {
    forall c | c in Criteria(d)
      ensures c.id in minted
    {
      assert ChainReaches(d, c, minted);
    }
  }

  /** Scoring a review item's spans, for a criterion of the draft or a new one, keeps the invariant. */
  lemma {:induction false} AttachKeepsInv(
      lex: Lexicon, units: seq<SourceUnit>, d: Draft, e: Draft, minted: map<string, Params>, x: ReviewItem, s: SpanId,
      spans: set<SpanId>, c: Criterion, isNew: bool)
    requires Inv(lex, units, d, minted)
    requires Attachable(units, d, x, s, spans, c) && Attached(d, e, s, spans, c, isNew) && Recorded(units, d, e, s, spans, c)
    requires isNew ==> NewCriterion(lex, d, c) && c.id !in Ids(d) && Grounds(lex, units, c, spans)
    ensures var minted' := if isNew then minted[c.id := ParamsOf(c)] else minted;
      && Inv(lex, units, e, minted')
      && c.id in minted'
      && (SourcesAgree(lex, units, e, minted') <==> SourcesAgree(lex, units, d, minted) && (isNew || MergeAgrees(lex, units, minted, c, spans)))
  {
    hide SpansScored, CriteriaSupported, ReviewsOk, DecisionsOk, ResolutionsOk, AmendmentsOk, ChainReaches,
         CriteriaDistinct, Recorded, NewCriterion;
    MintedHasEveryId(d, minted);
    AddedDistinct(lex, d, e, c, isNew);
    AttachedOrigins(lex, units, d, e, minted, s, spans, c);
    var minted' := if isNew then minted[c.id := ParamsOf(c)] else minted;
    assert forall i :: i in spans ==> i < |d.requirements| && d.requirements[i].state == NeedsReview;
    assert SpansAligned(units, e);
    assert SpansScored(lex, units, e) by { AttachedScored(lex, units, d, e, x, s, spans, c, isNew); }
    assert CriteriaSupported(units, e, minted') by { AttachedSupported(units, d, e, minted, s, spans, c, isNew); }
    assert ReviewsOk(units, e) by { AttachedReviews(lex, units, d, e, x, s, spans, c, isNew); }
    assert DecisionsOk(e) by { AttachedDecisions(lex, units, d, e, x, s, spans, c, isNew); }
    assert ResolutionsOk(units, e) by { AttachedResolutions(lex, units, d, e, s, spans, c, isNew); }
    assert AmendmentsOk(e) by { AttachedAmendments(units, d, e, s, spans, c, isNew); }
    assert forall y :: y in Criteria(e) ==> ChainReaches(e, y, minted') by { AttachedChains(lex, d, e, minted, s, spans, c, isNew); }
    assert SourcesAgree(lex, units, e, minted') <==> SourcesAgree(lex, units, d, minted) && (isNew || MergeAgrees(lex, units, minted, c, spans)) by {
      AttachedAgreement(lex, units, d, e, minted, s, spans, c, isNew);
    }
  }

  // ------------------------------------------------------------------ the two resolutions

  /** The draft covers its whole source. */
  ghost predicate Covers(units: seq<SourceUnit>, d: Draft) {
    SourceOk(units) && |d.requirements| == |units|
  }

  lemma {:induction false} SameKind(lex: Lexicon, c: Criterion, kind: Kind, subject: Option<string>)
    requires CriterionIdentity(lex, c) == Identity(lex, kind, subject)
    ensures c.kind == kind
  {
  }

  lemma {:induction false} CoversBounded(units: seq<SourceUnit>, d: Draft)
    requires Covers(units, d)
    ensures |d.requirements| == |units| <= MAX_SPANS && SourceOk(units)
  {
  }

  lemma {:induction false} MintedIsNew(
      lex: Lexicon, units: seq<SourceUnit>, d: Draft, minted: map<string, Params>, kind: Kind, subject: string,
      p: Params, level: Option<string>)
    requires CriteriaSupported(units, d, minted) && |d.requirements| <= MAX_SPANS
    requires CriterionWithIdentity(lex, d, kind, Some(subject)).None?
    requires CriterionOk(lex, MintedCriterion(lex, d, kind, subject, p, level)) && LevelPresent(level)
    ensures var c := MintedCriterion(lex, d, kind, subject, p, level);
      NewCriterion(lex, d, c) && c.id !in Ids(d)
  {
    var c := MintedCriterion(lex, d, kind, subject, p, level);
    IdsBounded(lex, units, d, minted);
    SlugIsFresh(lex.foldedLabel(subject), Ids(d));
    assert CriterionIdentity(lex, c) == Identity(lex, kind, Some(subject));
    forall x | x in Criteria(d)
      ensures Apart(lex, x, c)
    {
      assert x.id in Ids(d);
    }
  }

  lemma {:induction false} OneResult(units: seq<SourceUnit>, d: Draft, s: SpanId)
    requires SpansAligned(units, d)
    ensures var results := Filter(ResultOf(s), d.requirements);
      |results| == 1 ==> s < |d.requirements| && results[0] == d.requirements[s]
  {
    var results := Filter(ResultOf(s), d.requirements);
    if |results| == 1 {
      assert results[0] in results;
      assert results[0] in d.requirements;
    }
  }

  /** What the guards of a modality resolution establish. */
  lemma {:induction false} ModalityGuard(
      lex: Lexicon, units: seq<SourceUnit>, d: Draft, e: Draft, s: SpanId, m: Modality) returns (x: ReviewItem)
    requires SpansAligned(units, d) && ReviewsOk(units, d)
    requires ResolveModality(lex, d, s, m) == Ok(e)
    ensures x in d.needsReview && x.spanId == Some(s) && m in x.allowed && x.kind.Some? && x.subject.Some?
    ensures ReviewOk(units, d, x) && Claims(x) == {s} && !x.excluded
    ensures s < |d.requirements| && d.requirements[s].state == NeedsReview
    ensures ShapeRevalidates(lex, x.kind.value, x.subject.value, units[s].text)
    ensures ModalityResult(lex, d, e, x, s, m)
  {
    hide ShapeRevalidates, CriterionOk, CriterionWithIdentity, MintedCriterion, WithDecision, WithoutReview, Scored;
    var matches := Filter(ItemOf(s), d.needsReview);
    x := matches[0];
    assert x in matches;
    assert ReviewOk(units, d, x);
    OneResult(units, d, s);
  }

  /** The draft a modality resolution of item `x` returns. */
  ghost predicate ModalityResult(lex: Lexicon, d: Draft, e: Draft, x: ReviewItem, s: SpanId, m: Modality)
    requires x.kind.Some? && x.subject.Some?
  {
    var kind, subject := x.kind.value, x.subject.value;
    var existing := CriterionWithIdentity(lex, d, kind, Some(subject));
    var decided := d.(needsReview := WithoutReview(d.needsReview, s), decisions := WithDecision(d.decisions, s, VerdictOf(m)));
    if existing.Some? then
      && ParamsOf(existing.value) == SemanticParameters(m, x.years, x.level)
      && e == decided.(requirements := Scored(d.requirements, {s}, m, existing.value.id))
    else
      var c := MintedCriterion(lex, d, kind, subject, Params(m, x.years, x.level), x.level);
      CriterionOk(lex, c) && e == WithCriterion(decided.(requirements := Scored(d.requirements, {s}, m, c.id)), c)
  }

  /** A modality resolution scores its one span for the criterion it names, old or minted. */
  lemma {:induction false} ModalityAttaches(
      lex: Lexicon, units: seq<SourceUnit>, d: Draft, e: Draft, minted: map<string, Params>, s: SpanId, m: Modality)
      returns (x: ReviewItem, c: Criterion, isNew: bool)
    requires Covers(units, d)
    requires SpansAligned(units, d) && ReviewsOk(units, d) && CriteriaSupported(units, d, minted)
    requires ResolveModality(lex, d, s, m) == Ok(e)
    ensures s < |d.requirements| && d.requirements[s].state == NeedsReview
    ensures isNew ==> NewCriterion(lex, d, c) && c.id !in Ids(d) && Grounds(lex, units, c, {s})
    ensures Attachable(units, d, x, s, {s}, c) && Attached(d, e, s, {s}, c, isNew) && Recorded(units, d, e, s, {s}, c)
  {
    hide CriteriaSupported, CriterionOk, NewCriterion, ReviewsOk, ResolveModality, WithDecision, WithoutReview, Scored,
         Ids, Slug, Identity, SlugBase;
    CoversBounded(units, d);
    x := ModalityGuard(lex, units, d, e, s, m);
    var kind, subject := x.kind.value, x.subject.value;
    var existing := CriterionWithIdentity(lex, d, kind, Some(subject));
    assert LevelPresent(x.level) by { assert units[s] in units; }
    if existing.Some? {
      c, isNew := existing.value, false;
      SameKind(lex, c, kind, Some(subject));
    } else {
      c, isNew := MintedCriterion(lex, d, kind, subject, Params(m, x.years, x.level), x.level), true;
      MintedIsNew(lex, units, d, minted, kind, subject, Params(m, x.years, x.level), x.level);
    }
    assert c.kind == kind && c.modality == m;
  }

  lemma {:induction false} ModalityKeepsInv(
      lex: Lexicon, units: seq<SourceUnit>, d: Draft, e: Draft, minted: map<string, Params>, s: SpanId, m: Modality)
      returns (c: Criterion, isNew: bool)
    requires Covers(units, d) && Inv(lex, units, d, minted)
    requires ResolveModality(lex, d, s, m) == Ok(e)
    ensures Attached(d, e, s, {s}, c, isNew) && (isNew ==> c.id !in Ids(d))
    ensures s < |d.requirements| && d.requirements[s].state == NeedsReview
    ensures var minted' := if isNew then minted[c.id := ParamsOf(c)] else minted;
      && Inv(lex, units, e, minted')
      && c.id in minted'
      && (SourcesAgree(lex, units, e, minted') <==> SourcesAgree(lex, units, d, minted) && (isNew || MergeAgrees(lex, units, minted, c, {s})))
  {
    hide SpansAligned, SpansScored, CriteriaSupported, ReviewsOk, DecisionsOk, ResolutionsOk, AmendmentsOk, ChainReaches, CriteriaDistinct,
         NewCriterion, Attachable, Attached, MergeAgrees, Grounds, Recorded, Covers, ResolveModality, SourcesAgree;
    var x: ReviewItem;
    x, c, isNew := ModalityAttaches(lex, units, d, e, minted, s, m);
    AttachKeepsInv(lex, units, d, e, minted, x, s, {s}, c, isNew);
  }

  /** An option re-derived from the source is already in normal form. */
  lemma {:induction false} OptionsAreNormal(units: seq<SourceUnit>, r: Resolution, k: nat)
    requires SourceOk(units) && OptionsAreTheSource(units, r) && k < |r.options|
    ensures var p := r.options[k];
      LevelPresent(p.level) && SemanticParameters(p.modality, p.years, p.level) == p
  {
    assert r.options[k] in SourceOptions(units, r.spans);
    var s :| s in r.spans && r.options[k] == OptionOf(units[s]);
    assert units[s] in units;
    if units[s].level.Some? {
      UpperStripIdempotent(units[s].level.value);
    }
  }

  /** What the guards of a conflict choice establish. */
  lemma {:induction false} ConflictGuard(
      lex: Lexicon, units: seq<SourceUnit>, d: Draft, e: Draft, s: SpanId, k: int) returns (x: ReviewItem)
    requires SpansAligned(units, d) && ReviewsOk(units, d) && |d.requirements| == |units|
    requires ResolveConflict(lex, d, s, k) == Ok(e)
    ensures x in d.needsReview && x.spanId == Some(s) && x.kind.Some? && x.subject.Some? && !x.excluded
    ensures ReviewOk(units, d, x) && IsConflict(x) && 0 <= k < |x.conflictOptions| && s in Claims(x)
    ensures forall i :: i in Claims(x) ==>
      i < |d.requirements| && d.requirements[i].state == NeedsReview
      && (x.kind.value != Experience ==> lex.groundedIn(x.kind.value, x.subject.value, units[i].text))
    ensures CriterionWithIdentity(lex, d, x.kind.value, x.subject).None?
    ensures ConflictResult(lex, d, e, x, s, k)
  {
    hide CriterionOk, CriterionWithIdentity, MintedCriterion, WithoutReview, Scored;
    var matches := Filter(ConflictOf(s), d.needsReview);
    x := matches[0];
    assert x in matches;
    assert ReviewOk(units, d, x);
    var spans := Elements(x.conflictSpans);
    var results := Filter(ResultWithin(spans), d.requirements);
    assert Claims(x) == spans;
    forall i | i in spans
      ensures i < |d.requirements| && d.requirements[i].state == NeedsReview
      ensures x.kind.value != Experience ==> lex.groundedIn(x.kind.value, x.subject.value, units[i].text)
    {
      assert d.requirements[i].spanId == i;
      assert d.requirements[i] in results;
    }
  }

  /** The draft a conflict choice of item `x` returns. */
  ghost predicate ConflictResult(lex: Lexicon, d: Draft, e: Draft, x: ReviewItem, s: SpanId, k: int)
    requires x.kind.Some? && x.subject.Some? && 0 <= k < |x.conflictOptions|
  {
    var p := x.conflictOptions[k];
    var c := MintedCriterion(lex, d, x.kind.value, x.subject.value, p, p.level);
    && CriterionOk(lex, c)
    && e == WithCriterion(
      d.(needsReview := WithoutReview(d.needsReview, s),
         requirements := Scored(d.requirements, Elements(x.conflictSpans), p.modality, c.id),
         resolutions := d.resolutions + [Resolution(x.conflictSpans, x.conflictOptions, k)]),
      c)
  }

  /** A conflict choice scores all its spans for one minted criterion. */
  lemma {:induction false} ConflictAttaches(
      lex: Lexicon, units: seq<SourceUnit>, d: Draft, e: Draft, minted: map<string, Params>, s: SpanId, k: int)
      returns (x: ReviewItem, c: Criterion)
    requires Covers(units, d) && SpansAligned(units, d) && ReviewsOk(units, d) && CriteriaSupported(units, d, minted)
    requires ResolveConflict(lex, d, s, k) == Ok(e)
    ensures x in d.needsReview && x.spanId == Some(s) && x.conflictSpans != [] && Claims(x) == Elements(x.conflictSpans)
    ensures 0 <= k < |x.conflictOptions| && ParamsOf(c) == x.conflictOptions[k]
    ensures s in Claims(x) && forall i :: i in Claims(x) ==> i < |d.requirements| && d.requirements[i].state == NeedsReview
    ensures NewCriterion(lex, d, c) && c.id !in Ids(d) && Grounds(lex, units, c, Claims(x))
    ensures Attachable(units, d, x, s, Claims(x), c) && Attached(d, e, s, Claims(x), c, true) && Recorded(units, d, e, s, Claims(x), c)
  {
    hide CriteriaSupported, CriterionOk, NewCriterion, ReviewsOk, ResolveConflict, WithoutReview, Scored, Ids, Slug, CriterionWithIdentity,
         OptionsAreTheSource, ResolutionOk, SpansAligned, SourceOk;
    assert |d.requirements| <= MAX_SPANS && |d.requirements| == |units| by { CoversBounded(units, d); }
    x := ConflictGuard(lex, units, d, e, s, k);
    var kind, subject := x.kind.value, x.subject.value;
    var p := x.conflictOptions[k];
    var r := Resolution(x.conflictSpans, x.conflictOptions, k);
    ChoiceIsResolution(units, d, x, k);
    OptionsAreNormal(units, r, k);
    c := MintedCriterion(lex, d, kind, subject, p, p.level);
    MintedIsNew(lex, units, d, minted, kind, subject, p, p.level);
    assert e.resolutions == d.resolutions + [r];
  }

  /** Whichever option is chosen, the item's options are the ones its spans re-derive. */
  lemma {:induction false} ChoiceIsResolution(units: seq<SourceUnit>, d: Draft, x: ReviewItem, k: int)
    requires ReviewOk(units, d, x) && IsConflict(x) && 0 <= k < |x.conflictOptions|
    ensures var r := Resolution(x.conflictSpans, x.conflictOptions, k); ResolutionOk(r) && OptionsAreTheSource(units, r)
    ensures Claims(x) == Elements(x.conflictSpans)
  {
  }

  lemma {:induction false} ConflictKeepsInv(
      lex: Lexicon, units: seq<SourceUnit>, d: Draft, e: Draft, minted: map<string, Params>, s: SpanId, k: int)
      returns (x: ReviewItem, c: Criterion)
    requires Covers(units, d) && Inv(lex, units, d, minted)
    requires ResolveConflict(lex, d, s, k) == Ok(e)
    ensures Attached(d, e, s, Claims(x), c, true) && c.id !in Ids(d)
    ensures x in d.needsReview && x.spanId == Some(s) && x.conflictSpans != [] && Claims(x) == Elements(x.conflictSpans)
    ensures 0 <= k < |x.conflictOptions| && ParamsOf(c) == x.conflictOptions[k]
    ensures s in Claims(x) && forall i :: i in Claims(x) ==> i < |d.requirements| && d.requirements[i].state == NeedsReview
    ensures var minted' := minted[c.id := ParamsOf(c)];
      Inv(lex, units, e, minted') && (SourcesAgree(lex, units, e, minted') <==> SourcesAgree(lex, units, d, minted))
  {
    hide SpansAligned, SpansScored, CriteriaSupported, ReviewsOk, DecisionsOk, ResolutionsOk, AmendmentsOk, ChainReaches, CriteriaDistinct,
         NewCriterion, Attachable, Attached, MergeAgrees, Grounds, Recorded, Covers, ResolveConflict, SourcesAgree;
    x, c := ConflictAttaches(lex, units, d, e, minted, s, k);
    AttachKeepsInv(lex, units, d, e, minted, x, s, Claims(x), c, true);
  }
}
