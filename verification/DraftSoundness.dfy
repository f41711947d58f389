/** What acceptance says about a draft that may have come from anywhere. */
module DraftSoundness {
  import opened Wrappers
  import opened Sequences
  import opened CoreText
  import opened YearValues
  import opened DraftSchemas
  import opened SemanticProvenance

  /** The source itself states the parameters of span `s`. */
  ghost predicate StatedBySource(units: seq<SourceUnit>, d: Draft, s: SpanId, p: Params) {
    && s < |units| && units[s].modality.Some? && p == OptionOf(units[s])
    && (forall r :: r in d.resolutions ==> s !in r.spans)
    && (forall x :: x in d.decisions && x.spanId == s ==> x.verdict == ExcludedByReviewer)
  }

  /** The source states no modality for span `s`, and a recorded decision supplies exactly that. */
  ghost predicate CompletedByReviewer(units: seq<SourceUnit>, d: Draft, s: SpanId, p: Params) {
    && s < |units| && units[s].modality.None?
    && Decision(s, VerdictOf(p.modality)) in d.decisions
    && p == SemanticParameters(p.modality, units[s].years, units[s].level)
  }

  /** A recorded choice picked `p` among exactly the parameter sets the conflicting spans re-derive. */
  ghost predicate ChosenFromSource(units: seq<SourceUnit>, d: Draft, s: SpanId, p: Params) {
    exists r :: r in d.resolutions && s in r.spans && ResolutionOk(r) && OptionsAreTheSource(units, r)
      && p == Chosen(r) && p in SourceOptions(units, r.spans)
  }

  ghost predicate Justified(units: seq<SourceUnit>, d: Draft, s: SpanId, p: Params) {
    StatedBySource(units, d, s, p) || CompletedByReviewer(units, d, s, p) || ChosenFromSource(units, d, s, p)
  }

  /** An origin always has one of the three authorities. */
  lemma {:induction false} OriginIsJustified(units: seq<SourceUnit>, d: Draft, s: SpanId)
    requires DecisionsOnce(d.decisions) && SpanOrigin(units, d, s).Some?
    ensures Justified(units, d, s, SpanOrigin(units, d, s).value)
  {
    var p := SpanOrigin(units, d, s).value;
    if k :| 0 <= k < |d.resolutions| && s in d.resolutions[k].spans {
      var r := ResolutionFor(d.resolutions, s).value;
      assert r in d.resolutions && s in r.spans;
      assert Chosen(r) in SourceOptions(units, r.spans);
    } else {
      assert forall r :: r in d.resolutions ==> s !in r.spans;
      forall x | x in d.decisions && x.spanId == s
        ensures DecisionFor(d.decisions, s) == Some(x.verdict)
      {
        var k :| 0 <= k < |d.decisions| && d.decisions[k] == x;
        DecisionForAt(d.decisions, k);
      }
      var verdict := DecisionFor(d.decisions, s);
      if verdict.Some? {
        var k :| 0 <= k < |d.decisions| && d.decisions[k].spanId == s;
        assert d.decisions[k] == Decision(s, verdict.value);
      }
    }
  }

  /** Conversely a justification fixes the origin: at most one of the three can hold, for one value. */
  lemma {:induction false} JustificationIsUnique(units: seq<SourceUnit>, d: Draft, s: SpanId, p: Params)
    requires DecisionsOnce(d.decisions) && ResolutionsOnce(d.resolutions) && Justified(units, d, s, p)
    requires (exists x :: x in d.decisions && x.spanId == s) ==> forall r :: r in d.resolutions ==> s !in r.spans
    ensures SpanOrigin(units, d, s) == Some(p)
  {
    if ChosenFromSource(units, d, s, p) {
      var r :| r in d.resolutions && s in r.spans && ResolutionOk(r) && OptionsAreTheSource(units, r) && p == Chosen(r);
      var k :| 0 <= k < |d.resolutions| && d.resolutions[k] == r;
      ResolutionForAt(d.resolutions, k, s);
      assert units[s].modality.Some?;
    } else {
      if CompletedByReviewer(units, d, s, p) {
        assert exists x :: x in d.decisions && x.spanId == s;
        var k :| 0 <= k < |d.decisions| && d.decisions[k] == Decision(s, VerdictOf(p.modality));
        DecisionForAt(d.decisions, k);
      }
      if k :| 0 <= k < |d.decisions| && d.decisions[k].spanId == s {
        DecisionForAt(d.decisions, k);
      }
    }
  }

  /**
   Soundness. Whatever the draft, every confirmed criterion has an origin from which the ordered replay
   of its own amendments yields its parameters, and every span that supports it justifies that origin.
   */
  lemma {:induction false} AcceptedParametersAreReplayed(
      lex: Lexicon, d: Draft, criteria: seq<Criterion>, c: Criterion) returns (origin: Params)
    requires WellTyped(d) && Provable(lex, d, criteria) && c in criteria
    ensures c in Criteria(d) && Supporting(d, c.id) != []
    ensures Replay(origin, ChainOf(d.amendments, c.id)) == Some(ParamsOf(c))
    ensures forall r :: r in Supporting(d, c.id) ==>
      Justified(lex.analyze(d.sourceText.value), d, r.spanId, origin)
      && SpanIsSource(lex, lex.analyze(d.sourceText.value), c, r)
  {
    var units := lex.analyze(d.sourceText.value);
    hide ValidRecord, RecordOf, DraftCoherent, SpanIsSource, Justified, SpanOrigin;
    assert CriterionProvable(lex, units, d, c);
    origin := OriginOf(lex, units, d, c);
    forall r | r in Supporting(d, c.id)
      ensures Justified(units, d, r.spanId, origin) && SpanIsSource(lex, units, c, r)
    {
      OriginIsJustified(units, d, r.spanId);
    }
  }

  predicate Retypes(chain: seq<Amendment>) {
    exists i :: 0 <= i < |chain| && chain[i].change.TypeChange?
  }

  lemma {:induction false} ReplayKeepsModality(origin: Params, chain: seq<Amendment>)
    requires Replay(origin, chain).Some? && !Retypes(chain)
    ensures Replay(origin, chain).value.modality == origin.modality
  {
    if chain != [] {
      var shorter := chain[..|chain| - 1];
      assert forall i :: 0 <= i < |shorter| ==> shorter[i] == chain[i];
      ReplayKeepsModality(origin, shorter);
    }
  }

  /** A criterion demands more or less strictly than its source sentence only through a recorded amendment. */
  lemma {:induction false} ModalityChangesAreRecorded(
      lex: Lexicon, d: Draft, criteria: seq<Criterion>, c: Criterion, r: SpanResult)
    requires WellTyped(d) && Provable(lex, d, criteria) && c in criteria && r in Supporting(d, c.id)
    requires forall q :: q in d.resolutions ==> r.spanId !in q.spans
    ensures var units := lex.analyze(d.sourceText.value);
      && r.spanId < |units|
      && (units[r.spanId].modality.Some? && units[r.spanId].modality.value != c.modality ==> Retypes(ChainOf(d.amendments, c.id)))
  {
    hide ValidRecord, RecordOf, Explained;
    var origin := AcceptedParametersAreReplayed(lex, d, criteria, c);
    assert Justified(lex.analyze(d.sourceText.value), d, r.spanId, origin);
    if !Retypes(ChainOf(d.amendments, c.id)) {
      ReplayKeepsModality(origin, ChainOf(d.amendments, c.id));
    }
  }

  /**
   The parameters are determined by the source and the recorded actions: two accepted drafts that
   agree on those cannot differ in what a criterion demands.
   */
  lemma {:induction false} AcceptedParametersAreDetermined(
      lex: Lexicon, d: Draft, e: Draft, criteriaD: seq<Criterion>, criteriaE: seq<Criterion>, c: Criterion,
      c': Criterion)
    requires WellTyped(d) && Provable(lex, d, criteriaD) && c in criteriaD
    requires WellTyped(e) && Provable(lex, e, criteriaE) && c' in criteriaE && c'.id == c.id
    requires e.sourceDigest == d.sourceDigest && e.requirements == d.requirements
    requires e.decisions == d.decisions && e.resolutions == d.resolutions && e.amendments == d.amendments
    requires forall a, b :: lex.sha256(a) == lex.sha256(b) ==> a == b
    ensures ParamsOf(c') == ParamsOf(c) && c'.kind == c.kind
  {
    hide ValidRecord, RecordOf;
    assert d.sourceText == e.sourceText;
    var units := lex.analyze(d.sourceText.value);
    assert CriterionProvable(lex, units, d, c) && CriterionProvable(lex, units, e, c');
    hide SpanOrigin, DraftCoherent, ActionsCoherent;
    var r := Supporting(d, c.id)[0];
    assert r in Supporting(d, c.id) && r in Supporting(e, c'.id);
    SameOrigins(units, d, e, r.spanId);
  }

  lemma {:induction false} SameOrigins(units: seq<SourceUnit>, d: Draft, e: Draft, s: SpanId)
    requires e.decisions == d.decisions && e.resolutions == d.resolutions
    ensures SpanOrigin(units, e, s) == SpanOrigin(units, d, s)
  {
  }

  // ------------------------------------------------------------------ the record accounts for every span

  predicate RecordedAt(rec: Record, k: int, s: SpanId) {
    0 <= k < |rec.criteria| && s in SpanSet(rec.criteria[k])
  }

  predicate RecordedAside(rec: Record, s: SpanId) {
    exists n :: n in rec.nonScorable && n.spanId == s
  }

  /** Every span of an accepted draft is evidence of exactly one recorded criterion or recorded as left out, never both. */
  lemma {:induction false} RecordPartitionsTheSpans(lex: Lexicon, d: Draft, criteria: seq<Criterion>, r: SpanResult)
    requires WellTyped(d) && Provable(lex, d, criteria) && r in d.requirements
    ensures var rec := RecordOf(lex, lex.analyze(d.sourceText.value), d, criteria);
      && ((exists k :: RecordedAt(rec, k, r.spanId)) <==> !RecordedAside(rec, r.spanId))
      && ((exists k :: RecordedAt(rec, k, r.spanId)) <==> r.state == Scorable)
      && (forall k, k' :: RecordedAt(rec, k, r.spanId) && RecordedAt(rec, k', r.spanId) ==> k == k')
  {
    var units := lex.analyze(d.sourceText.value);
    var rec := RecordOf(lex, units, d, criteria);
    RecordPartsApart(rec, r.spanId);
    if r.state == Scorable {
      var k := ScorableIsRecorded(lex, units, d, criteria, r);
    } else {
      LeftOutIsRecorded(lex, units, d, criteria, r);
    }
  }

  lemma {:induction false} RecordPartsApart(rec: Record, s: SpanId)
    requires ValidRecord(rec)
    ensures forall k :: RecordedAt(rec, k, s) ==> !RecordedAside(rec, s)
    ensures forall k, k' :: RecordedAt(rec, k, s) && RecordedAt(rec, k', s) ==> k == k'
  {
    hide CriterionRecordOk, NonScorableOk, ResolutionExplains, AmendmentMatches;
    forall k | RecordedAt(rec, k, s)
      ensures !RecordedAside(rec, s)
    {
      assert rec.criteria[k] in rec.criteria;
    }
  }

  lemma {:induction false} ScorableIsConfirmed(
      lex: Lexicon, d: Draft, criteria: seq<Criterion>, r: SpanResult) returns (k: nat)
    requires DraftCoherent(lex, d, criteria) && r in d.requirements && r.state == Scorable
    ensures k < |criteria| && r.criterionId == Some(criteria[k].id)
  {
    assert r.criterionId in NamedIds(criteria) by {
      assert r.criterionId in ScoredIds(d);
    }
    hide DraftCoherent;
    var c :| c in criteria && Some(c.id) == r.criterionId;
    k :| 0 <= k < |criteria| && criteria[k] == c;
  }

  lemma {:induction false} SupportIsRecorded(
      lex: Lexicon, units: seq<SourceUnit>, d: Draft, c: Criterion, r: SpanResult)
    requires CriterionProvable(lex, units, d, c) && r in d.requirements && r.state == Scorable && r.criterionId == Some(c.id)
    ensures r.spanId in SpanSet(CriterionRecordOf(lex, units, d, c))
  {
    assert r in Supporting(d, c.id);
    var cr := CriterionRecordOf(lex, units, d, c);
    hide SpanOrigin, SpanIsSource, Supporting, OriginOf, CriterionProvable;
    var i :| 0 <= i < |Supporting(d, c.id)| && Supporting(d, c.id)[i] == r;
    assert cr.spans[i] in cr.spans;
  }

  lemma {:induction false} ScorableIsRecorded(
      lex: Lexicon, units: seq<SourceUnit>, d: Draft, criteria: seq<Criterion>, r: SpanResult) returns (k: nat)
    requires WellTyped(d) && Explained(lex, units, d, criteria) && r in d.requirements && r.state == Scorable
    ensures RecordedAt(RecordOf(lex, units, d, criteria), k, r.spanId)
  {
    hide DraftCoherent, ActionsCoherent, CriterionProvable, CriterionRecordOf, WellTyped, LeftOutIsSource;
    k := ScorableIsConfirmed(lex, d, criteria, r);
    assert criteria[k] in criteria;
    SupportIsRecorded(lex, units, d, criteria[k], r);
  }

  lemma {:induction false} LeftOutIsRecorded(
      lex: Lexicon, units: seq<SourceUnit>, d: Draft, criteria: seq<Criterion>, r: SpanResult)
    requires WellTyped(d) && Explained(lex, units, d, criteria) && r in d.requirements && r.state != Scorable
    ensures RecordedAside(RecordOf(lex, units, d, criteria), r.spanId)
  {
    hide DraftCoherent, ActionsCoherent, CriterionProvable;
    assert r in LeftOut(d);
    var i :| 0 <= i < |LeftOut(d)| && LeftOut(d)[i] == r;
    var rec := RecordOf(lex, units, d, criteria);
    assert rec.nonScorable[i] in rec.nonScorable;
  }
}
