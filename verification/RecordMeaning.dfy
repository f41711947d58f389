/** What the record of an accepted draft says of each span and each criterion, in terms of the source text. */
module RecordMeaning {
  import opened Wrappers
  import opened Sequences
  import opened CoreText
  import opened YearValues
  import opened DraftSchemas
  import opened SemanticProvenance

  // ------------------------------------------------------------------ spans that are not scored

  /** A reviewer took the span out: the decision is recorded. */
  predicate TakenOut(d: Draft, s: SpanId) {
    exists x :: x in d.decisions && x.spanId == s && x.verdict == ExcludedByReviewer
  }

  /** The entry says where the span stands, why it is not scored, and what it says unless that is prohibited. */
  predicate Explains(units: seq<SourceUnit>, d: Draft, r: SpanResult, n: NonScorable) {
    && n.spanId == r.spanId < |units| && n.state == r.state
    && n.start == units[r.spanId].start && n.end == units[r.spanId].end
    && (n.excluded <==> TakenOut(d, r.spanId))
    && match r.state
       case Scorable => false
       case Prohibited => n.reason == ProhibitedAttribute && n.text == None && !TakenOut(d, r.spanId)
       case Unsupported =>
         n.text == Some(units[r.spanId].text) && n.reason == (if TakenOut(d, r.spanId) then Excluded else UnsupportedByPolicy)
       case NeedsReview =>
         n.text == Some(units[r.spanId].text) && n.reason == (if TakenOut(d, r.spanId) then Excluded else ReviewOnly)
  }

  /** Every span that is not scored has exactly one entry, which explains it, and there are no other entries. */
  lemma {:induction false} LeftOutIsExplained(lex: Lexicon, d: Draft, criteria: seq<Criterion>)
    requires WellTyped(d) && Provable(lex, d, criteria)
    ensures var units := lex.analyze(d.sourceText.value);
      var rec := RecordOf(lex, units, d, criteria);
      && (forall r :: r in d.requirements && r.state != Scorable ==> exists n :: n in rec.nonScorable && Explains(units, d, r, n))
      && (forall n :: n in rec.nonScorable ==> exists r :: r in d.requirements && r.state != Scorable && Explains(units, d, r, n))
      && (forall i, j :: 0 <= i < j < |rec.nonScorable| ==> rec.nonScorable[i].spanId != rec.nonScorable[j].spanId)
  {
    var units := lex.analyze(d.sourceText.value);
    var rec := RecordOf(lex, units, d, criteria);
    hide CriterionProvable, DraftCoherent, ActionsCoherent, CriterionRecordOk, ResolutionExplains, AmendmentMatches,
         Explains;
    forall r | r in d.requirements && r.state != Scorable
      ensures exists n :: n in rec.nonScorable && Explains(units, d, r, n)
    {
      assert r in LeftOut(d);
      var i :| 0 <= i < |LeftOut(d)| && LeftOut(d)[i] == r;
      EntryExplains(units, d, r);
      assert rec.nonScorable[i] == NonScorableOf(units, d, r);
    }
    forall n | n in rec.nonScorable
      ensures exists r :: r in d.requirements && r.state != Scorable && Explains(units, d, r, n)
    {
      var i :| 0 <= i < |rec.nonScorable| && rec.nonScorable[i] == n;
      var r := LeftOut(d)[i];
      assert r in LeftOut(d);
      EntryExplains(units, d, r);
    }
  }

  lemma {:induction false} EntryExplains(units: seq<SourceUnit>, d: Draft, r: SpanResult)
    requires r.state != Scorable && LeftOutIsSource(units, d, r)
    ensures Explains(units, d, r, NonScorableOf(units, d, r))
  {
    if TakenOut(d, r.spanId) {
      var x :| x in d.decisions && x.spanId == r.spanId && x.verdict == ExcludedByReviewer;
      assert x == Decision(r.spanId, ExcludedByReviewer);
    }
  }

  /** A span is recorded as taken out exactly when the draft shows an acknowledged item for it. */
  lemma {:induction false} TakenOutIsAcknowledged(lex: Lexicon, d: Draft, criteria: seq<Criterion>, s: SpanId)
    requires WellTyped(d) && Provable(lex, d, criteria)
    ensures TakenOut(d, s) <==> exists x :: x in d.needsReview && x.excluded && x.spanId == Some(s)
  {
    hide CriterionProvable, DraftCoherent, ActionsCoherent, ValidRecord, LeftOutIsSource;
    assert TakenOut(d, s) <==> s in ExcludedSpans(d.decisions);
    assert s in ExcludedItems(d) <==> exists x :: x in d.needsReview && x.excluded && x.spanId == Some(s);
  }

  // ------------------------------------------------------------------ evidence and criteria

  /** The span is the source's own text at the source's own place, of the criterion's family, and names its subject. */
  predicate IsEvidence(lex: Lexicon, units: seq<SourceUnit>, d: Draft, c: Criterion, r: SpanResult) {
    && r.spanId < |units|
    && r.start == units[r.spanId].start && r.end == units[r.spanId].end && r.text == Some(units[r.spanId].text)
    && units[r.spanId].family == Some(c.kind)
    && (c.kind in {Skill, SkillExperience, DomainExperience, Language} && c.value.Some? && c.value.value != "" ==>
          lex.groundedIn(c.kind, c.value.value, units[r.spanId].text))
    && r.source.Some? && (r.source.value == ModelValidated ==> d.model.Some?)
  }

  predicate SupportsIt(c: Criterion, r: SpanResult) {
    r.state == Scorable && r.criterionId == Some(c.id)
  }

  /** Every confirmed criterion has evidence, all of it is the source's, and no amendment of it points elsewhere. */
  lemma {:induction false} EvidenceIsTheSource(lex: Lexicon, d: Draft, criteria: seq<Criterion>, c: Criterion)
    requires WellTyped(d) && Provable(lex, d, criteria) && c in criteria
    ensures exists r :: r in d.requirements && SupportsIt(c, r)
    ensures forall r :: r in d.requirements && SupportsIt(c, r) ==> IsEvidence(lex, lex.analyze(d.sourceText.value), d, c, r)
    ensures forall a :: a in d.amendments && a.criterionId == c.id ==>
      exists r :: r in d.requirements && SupportsIt(c, r) && r.spanId == a.spanId
  {
    var units := lex.analyze(d.sourceText.value);
    hide DraftCoherent, ActionsCoherent, ValidRecord, LeftOutIsSource, SpanOrigin, Replay, CriterionRecordOf;
    assert CriterionProvable(lex, units, d, c);
    var supporting := Supporting(d, c.id);
    assert supporting[0] in supporting;
    forall r | r in d.requirements && SupportsIt(c, r)
      ensures IsEvidence(lex, units, d, c, r)
    {
      assert r in supporting;
      ModelIsNamed(lex, d, criteria, c, r);
    }
    forall a | a in d.amendments && a.criterionId == c.id
      ensures exists r :: r in d.requirements && SupportsIt(c, r) && r.spanId == a.spanId
    {
      assert a in ChainOf(d.amendments, c.id);
      var r :| r in supporting && r.spanId == a.spanId;
    }
  }

  /** A span read with the model's help is only evidence when the draft names the model. */
  lemma {:induction false} ModelIsNamed(lex: Lexicon, d: Draft, criteria: seq<Criterion>, c: Criterion, r: SpanResult)
    requires WellTyped(d) && Provable(lex, d, criteria) && c in criteria && r in Supporting(d, c.id)
    ensures r.source == Some(ModelValidated) ==> d.model.Some?
  {
    var units := lex.analyze(d.sourceText.value);
    var rec := RecordOf(lex, units, d, criteria);
    hide DraftCoherent, ActionsCoherent, ResolutionExplains, AmendmentMatches, LeftOutIsSource, SpanOrigin, Replay,
         NonScorableOf;
    var k :| 0 <= k < |criteria| && criteria[k] == c;
    assert rec.criteria[k] in rec.criteria && CriterionRecordOk(rec, rec.criteria[k]);
    var i :| 0 <= i < |Supporting(d, c.id)| && Supporting(d, c.id)[i] == r;
    assert rec.criteria[k].spans[i] in rec.criteria[k].spans;
  }

  /** The record carries the draft's identity and human actions as they are, and each criterion with its values and spans. */
  lemma {:induction false} RecordCarriesTheDraft(lex: Lexicon, d: Draft, criteria: seq<Criterion>)
    requires WellTyped(d) && Provable(lex, d, criteria)
    ensures var rec := RecordOf(lex, lex.analyze(d.sourceText.value), d, criteria);
      && rec.draftId == d.draftId && rec.sourceDigest == lex.sha256(d.sourceText.value) && rec.policyVersion == d.policyVersion
      && rec.model == d.model && rec.decisions == d.decisions && rec.resolutions == d.resolutions && rec.amendments == d.amendments
      && |rec.criteria| == |criteria|
      && forall k :: 0 <= k < |criteria| ==>
        && rec.criteria[k].criterionId == criteria[k].id
        && rec.criteria[k].final == ParamsOf(criteria[k])
        && forall s :: s in SpanSet(rec.criteria[k]) <==> exists r :: r in d.requirements && SupportsIt(criteria[k], r) && r.spanId == s
  {
    var units := lex.analyze(d.sourceText.value);
    var rec := RecordOf(lex, units, d, criteria);
    hide ActionsCoherent, ResolutionExplains, AmendmentMatches, LeftOutIsSource, SpanOrigin, Replay, ValidRecord,
         NonScorableOf;
    forall k | 0 <= k < |criteria|
      ensures rec.criteria[k].criterionId == criteria[k].id && rec.criteria[k].final == ParamsOf(criteria[k])
      ensures forall s :: s in SpanSet(rec.criteria[k]) <==> exists r :: r in d.requirements && SupportsIt(criteria[k], r) && r.spanId == s
    {
      assert criteria[k] in criteria && CriterionProvable(lex, units, d, criteria[k]);
      RecordedSpans(lex, units, d, criteria[k]);
    }
  }

  lemma {:induction false} RecordedSpans(lex: Lexicon, units: seq<SourceUnit>, d: Draft, c: Criterion)
    requires CriterionProvable(lex, units, d, c)
    ensures forall s :: s in SpanSet(CriterionRecordOf(lex, units, d, c)) <==> exists r :: r in d.requirements && SupportsIt(c, r) && r.spanId == s
  {
    var rec := CriterionRecordOf(lex, units, d, c);
    var supporting := Supporting(d, c.id);
    hide SpanOrigin, Replay, SpanIsSource;
    forall s | s in SpanSet(rec)
      ensures exists r :: r in d.requirements && SupportsIt(c, r) && r.spanId == s
    {
      var x :| x in rec.spans && x.spanId == s;
      var i :| 0 <= i < |rec.spans| && rec.spans[i] == x;
      assert supporting[i] in supporting;
    }
    forall r | r in d.requirements && SupportsIt(c, r)
      ensures r.spanId in SpanSet(rec)
    {
      assert r in supporting;
      var i :| 0 <= i < |supporting| && supporting[i] == r;
      assert rec.spans[i] in rec.spans;
    }
  }

  /** The confirmed criteria are exactly those the scorable spans name, one for each requirement. */
  lemma {:induction false} ConfirmedAreTheScored(lex: Lexicon, d: Draft, criteria: seq<Criterion>)
    requires WellTyped(d) && Provable(lex, d, criteria)
    ensures forall c :: c in criteria ==> c in Criteria(d)
    ensures forall r :: r in d.requirements && r.state == Scorable ==> exists c :: c in criteria && SupportsIt(c, r)
    ensures forall i, j :: 0 <= i < j < |criteria| ==>
      criteria[i].id != criteria[j].id && CriterionIdentity(lex, criteria[i]) != CriterionIdentity(lex, criteria[j])
  {
    hide ActionsCoherent, ValidRecord, LeftOutIsSource, SpanOrigin, Replay, SpanIsSource;
    forall r | r in d.requirements && r.state == Scorable
      ensures exists c :: c in criteria && SupportsIt(c, r)
    {
      assert r.criterionId in ScoredIds(d);
      assert r.criterionId in NamedIds(criteria);
    }
    forall i, j | 0 <= i < j < |criteria|
      ensures criteria[i].id != criteria[j].id && CriterionIdentity(lex, criteria[i]) != CriterionIdentity(lex, criteria[j])
    {
      assert CriterionIds(criteria)[i] != CriterionIds(criteria)[j];
      assert Identities(lex, criteria)[i] != Identities(lex, criteria)[j];
    }
  }

  // ------------------------------------------------------------------ amendments, link by link

  /** The change starts from the value that stands and moves that one field. */
  predicate Links(before: Params, change: Change, after: Params) {
    match change
    case TypeChange(from, to) => before.modality == from && after == before.(modality := to)
    case YearsChange(from, to) =>
      before.years.Some? && ToSixDigits(before.years.value) == from && after == before.(years := Some(to))
    case LevelChange(from, to) =>
      before.level.Some? && UpperStrip(before.level.value) == from && after == before.(level := Some(to))
  }

  /** A value for every point of the chain, each link leading from one to the next. */
  predicate Traces(origin: Params, chain: seq<Amendment>, final: Params, values: seq<Params>) {
    && |values| == |chain| + 1 && values[0] == origin && values[|chain|] == final
    && forall i :: 0 <= i < |chain| ==> Links(values[i], chain[i].change, values[i + 1])
  }

  lemma {:induction false} TraceOf(origin: Params, chain: seq<Amendment>) returns (values: seq<Params>)
    requires Replay(origin, chain).Some?
    ensures Traces(origin, chain, Replay(origin, chain).value, values)
  {
    if chain == [] {
      values := [origin];
    } else {
      var n := |chain| - 1;
      var earlier := TraceOf(origin, chain[..n]);
      values := earlier + [Replay(origin, chain).value];
      forall i | 0 <= i < |chain|
        ensures Links(values[i], chain[i].change, values[i + 1])
      {
        if i < n { assert Links(earlier[i], chain[..n][i].change, earlier[i + 1]); }
      }
    }
  }

  lemma {:induction false} TracedIsReplayed(origin: Params, chain: seq<Amendment>, final: Params, values: seq<Params>)
    requires Traces(origin, chain, final, values)
    ensures Replay(origin, chain) == Some(final)
  {
    if chain != [] {
      var n := |chain| - 1;
      assert forall i :: 0 <= i < n ==> Links(values[i], chain[i].change, values[i + 1]);
      TracedIsReplayed(origin, chain[..n], values[n], values[..n + 1]);
      assert Links(values[n], chain[n].change, values[n + 1]);
    }
  }

  /** A chain of amendments is replayed if and only if each link starts from the value the links before it leave. */
  lemma {:induction false} ReplayedIffLinked(origin: Params, chain: seq<Amendment>, final: Params)
    ensures Replay(origin, chain) == Some(final) <==> exists values :: Traces(origin, chain, final, values)
  {
    hide Replay, Traces;
    if Replay(origin, chain) == Some(final) {
      var values := TraceOf(origin, chain);
    }
    if values :| Traces(origin, chain, final, values) {
      TracedIsReplayed(origin, chain, final, values);
    }
  }

  // ------------------------------------------------------------------ human actions

  /** Criterion `k` of the record holds all the spans of the choice and starts from the option chosen. */
  predicate Fulfils(rec: Record, k: nat, r: Resolution) {
    && k < |rec.criteria| && r.chosenIndex < |r.options| && rec.criteria[k].origin == r.options[r.chosenIndex]
    && forall s :: s in r.spans ==> exists x :: x in rec.criteria[k].spans && x.spanId == s
  }

  /**
   Every human action that an accepted draft carries took effect on it: the amendments are numbered from 1
   without a gap and each names a confirmed criterion and one of its spans; each choice of a conflict is
   fulfilled by one criterion; each decision is the only one about its span.
   */
  lemma {:induction false} ActionsTookEffect(lex: Lexicon, d: Draft, criteria: seq<Criterion>)
    requires WellTyped(d) && Provable(lex, d, criteria)
    ensures forall i :: 0 <= i < |d.amendments| ==> d.amendments[i].sequence == i + 1
    ensures forall a :: a in d.amendments ==>
      exists c, r :: c in criteria && c.id == a.criterionId && r in d.requirements && SupportsIt(c, r) && r.spanId == a.spanId
    ensures var rec := RecordOf(lex, lex.analyze(d.sourceText.value), d, criteria);
      forall x :: x in d.resolutions ==> exists k: nat :: Fulfils(rec, k, x)
    ensures forall i, j :: 0 <= i < j < |d.decisions| ==> d.decisions[i].spanId != d.decisions[j].spanId
    ensures forall x :: x in d.decisions ==> exists r :: r in d.requirements && r.spanId == x.spanId
  {
    RecordIsValid(lex, d, criteria);
    hide *;
    forall a | a in d.amendments
      ensures exists c, r ::
        c in criteria && c.id == a.criterionId && r in d.requirements && SupportsIt(c, r) && r.spanId == a.spanId
    {
      var c, r := AmendmentTookEffect(lex, d, criteria, a);
    }
    forall x | x in d.resolutions
      ensures exists k: nat :: Fulfils(RecordOf(lex, lex.analyze(d.sourceText.value), d, criteria), k, x)
    {
      var k := ChoiceTookEffect(lex, d, criteria, x);
    }
  }

  lemma {:induction false} AmendmentTookEffect(lex: Lexicon, d: Draft, criteria: seq<Criterion>, a: Amendment)
      returns (c: Criterion, r: SpanResult)
    requires WellTyped(d) && Provable(lex, d, criteria) && a in d.amendments
    ensures c in criteria && c.id == a.criterionId && r in d.requirements && SupportsIt(c, r) && r.spanId == a.spanId
  {
    var rec := RecordOf(lex, lex.analyze(d.sourceText.value), d, criteria);
    RecordIsValid(lex, d, criteria);
    RecordCarriesTheDraft(lex, d, criteria);
    assert AmendmentMatches(rec.criteria, a);
    hide Provable, WellTyped, RecordOf, ValidRecord, AmendmentOk, SpanSet;
    var k :| 0 <= k < |rec.criteria| && rec.criteria[k].criterionId == a.criterionId && a.spanId in SpanSet(rec.criteria[k]);
    c := criteria[k];
    assert c in criteria;
    r :| r in d.requirements && SupportsIt(c, r) && r.spanId == a.spanId;
  }

  lemma {:induction false} ChoiceTookEffect(
      lex: Lexicon, d: Draft, criteria: seq<Criterion>, x: Resolution) returns (k: nat)
    requires WellTyped(d) && Provable(lex, d, criteria) && x in d.resolutions
    ensures Fulfils(RecordOf(lex, lex.analyze(d.sourceText.value), d, criteria), k, x)
  {
    var rec := RecordOf(lex, lex.analyze(d.sourceText.value), d, criteria);
    RecordIsValid(lex, d, criteria);
    RecordCarriesTheDraft(lex, d, criteria);
    assert ResolutionExplains(rec.criteria, x);
    hide Provable, WellTyped, RecordOf, ValidRecord, SupportsIt;
    k :| 0 <= k < |rec.criteria| && (forall s :: s in x.spans ==> s in SpanSet(rec.criteria[k])) && rec.criteria[k].origin == Chosen(x);
  }

  lemma {:induction false} RecordIsValid(lex: Lexicon, d: Draft, criteria: seq<Criterion>)
    requires WellTyped(d) && Provable(lex, d, criteria)
    ensures ValidRecord(RecordOf(lex, lex.analyze(d.sourceText.value), d, criteria))
    ensures GapFree(d.amendments) && DecisionsOnce(d.decisions)
    ensures forall x :: x in d.decisions ==> exists r :: r in d.requirements && r.spanId == x.spanId
  {
    hide ValidRecord, CriterionProvable, DraftCoherent, LeftOutIsSource, RecordOf, DecisionsOnce, GapFree;
    forall x | x in d.decisions
      ensures exists r :: r in d.requirements && r.spanId == x.spanId
    {
      assert KnownSpan(d, x.spanId);
      var i :| 0 <= i < |d.requirements| && d.requirements[i].spanId == x.spanId;
      assert d.requirements[i] in d.requirements;
    }
  }
}
