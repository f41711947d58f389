/**
 The confirmation boundary as it runs (`build_agent_semantic_provenance`): tables filled span by span,
 records appended criterion by criterion, the first unexplained thing refusing the whole draft. It
 accepts exactly the provable drafts and returns exactly their record.
 */
module ProvenanceBuilder {
  import opened Wrappers
  import opened Sequences
  import opened CoreText
  import opened YearValues
  import opened DraftSchemas
  import opened SemanticProvenance

  datatype Refusal =
    | SourceUnproven | DraftIncoherent | ActionsUnknown
    | CriterionUnexplained | LeftOutUnexplained | ExclusionsInconsistent | RecordInconsistent

  // ------------------------------------------------------------------ lookup tables

  method IndexDecisions(decisions: seq<Decision>, known: set<SpanId>) returns (r: Option<map<SpanId, Verdict>>)
    ensures r.Some? <==> DecisionsOnce(decisions) && forall x :: x in decisions ==> x.spanId in known
    ensures r.Some? ==> forall s: SpanId :: DecisionFor(decisions, s) == if s in r.value then Some(r.value[s]) else None
  {
    var table: map<SpanId, Verdict> := map[];
    for i := 0 to |decisions|
      invariant forall k :: 0 <= k < i ==> decisions[k].spanId in known && decisions[k].spanId in table
      invariant forall k, j :: 0 <= k < j < i ==> decisions[k].spanId != decisions[j].spanId
      invariant forall s :: s in table ==> exists k :: 0 <= k < i && decisions[k].spanId == s && table[s] == decisions[k].verdict
    {
      var s := decisions[i].spanId;
      if s !in known || s in table {
        assert decisions[i] in decisions;
        return None;
      }
      table := table[s := decisions[i].verdict];
    }
    forall s: SpanId
      ensures DecisionFor(decisions, s) == if s in table then Some(table[s]) else None
    {
      if s in table {
        var k :| 0 <= k < |decisions| && decisions[k].spanId == s && table[s] == decisions[k].verdict;
        DecisionForAt(decisions, k);
      }
    }
    return Some(table);
  }

  ghost predicate IndexedUpTo(resolutions: seq<Resolution>, n: int, table: map<SpanId, Resolution>) {
    && 0 <= n <= |resolutions|
    && (forall k, s :: 0 <= k < n && s in resolutions[k].spans ==> s in table && table[s] == resolutions[k])
    && (forall s :: s in table ==> exists k :: 0 <= k < n && s in resolutions[k].spans)
    && (forall k, j :: 0 <= k < j < n ==> !ShareSpan(resolutions[k], resolutions[j]))
  }

  method IndexResolutions(resolutions: seq<Resolution>, known: set<SpanId>) returns (r: Option<map<SpanId, Resolution>>)
    requires forall x :: x in resolutions ==> ResolutionOk(x)
    ensures r.Some? <==> ResolutionsOnce(resolutions) && forall x, s :: x in resolutions && s in x.spans ==> s in known
    ensures r.Some? ==> forall s: SpanId :: ResolutionFor(resolutions, s) == if s in r.value then Some(r.value[s]) else None
  {
    var table: map<SpanId, Resolution> := map[];
    for i := 0 to |resolutions|
      invariant IndexedUpTo(resolutions, i, table)
      invariant forall k, s :: 0 <= k < i && s in resolutions[k].spans ==> s in known
    {
      var one := resolutions[i];
      assert one in resolutions;
      var before := table;
      for j := 0 to |one.spans|
        invariant forall s :: s in table <==> s in before || s in one.spans[..j]
        invariant forall s :: s in before ==> table[s] == before[s]
        invariant forall k :: 0 <= k < j ==> one.spans[k] in known && one.spans[k] !in before && table[one.spans[k]] == one
      {
        var s := one.spans[j];
        if s !in known || s in table {
          Clash(resolutions, i, before, one, j);
          return None;
        }
        table := table[s := one];
      }
      assert one.spans[..|one.spans|] == one.spans;
      IndexedOneMore(resolutions, i, before, table);
    }
    forall s: SpanId
      ensures ResolutionFor(resolutions, s) == if s in table then Some(table[s]) else None
    {
      if s in table {
        var k :| 0 <= k < |resolutions| && s in resolutions[k].spans;
        ResolutionForAt(resolutions, k, s);
      }
    }
    return Some(table);
  }

  lemma {:induction false} Clash(
      resolutions: seq<Resolution>, i: int, before: map<SpanId, Resolution>, one: Resolution, j: int)
    requires 0 <= i < |resolutions| && resolutions[i] == one && ResolutionOk(one) && IndexedUpTo(resolutions, i, before)
    requires 0 <= j < |one.spans|
    ensures one.spans[j] !in one.spans[..j] && one in resolutions && one.spans[j] in one.spans
    ensures one.spans[j] in before ==> !ResolutionsOnce(resolutions)
  {
    var s := one.spans[j];
    if s in before {
      var k :| 0 <= k < i && s in resolutions[k].spans;
      assert ShareSpan(resolutions[k], resolutions[i]);
    }
  }

  lemma {:induction false} IndexedOneMore(
      resolutions: seq<Resolution>, i: int, before: map<SpanId, Resolution>, table: map<SpanId, Resolution>)
    requires 0 <= i < |resolutions| && IndexedUpTo(resolutions, i, before)
    requires forall s :: s in table <==> s in before || s in resolutions[i].spans
    requires forall s :: s in before ==> table[s] == before[s] && s !in resolutions[i].spans
    requires forall s :: s in resolutions[i].spans ==> table[s] == resolutions[i]
    ensures IndexedUpTo(resolutions, i + 1, table)
  {
    forall k | 0 <= k < i
      ensures !ShareSpan(resolutions[k], resolutions[i])
    {
      assert forall s :: s in resolutions[k].spans ==> s in before;
    }
  }

  // ------------------------------------------------------------------ the authority of one span

  /** The parameter sets of the conflicting spans, re-derived in span order without repeats. */
  method DeriveOptions(units: seq<SourceUnit>, spans: seq<SpanId>) returns (r: Option<seq<Params>>)
    ensures r.Some? <==> SpansStateModality(units, spans)
    ensures r.Some? ==> Elements(r.value) == SourceOptions(units, spans) && Distinct(r.value)
  {
    var derived: seq<Params> := [];
    for i := 0 to |spans|
      invariant forall k :: 0 <= k < i ==> spans[k] < |units| && units[spans[k]].modality.Some?
      invariant forall p :: p in derived <==> exists k :: 0 <= k < i && p == OptionOf(units[spans[k]])
      invariant Distinct(derived)
    {
      if spans[i] >= |units| || units[spans[i]].modality.None? {
        assert spans[i] in spans;
        return None;
      }
      var option := OptionOf(units[spans[i]]);
      if option !in derived {
        derived := derived + [option];
      }
    }
    return Some(derived);
  }

  method AuthorityOf(
      units: seq<SourceUnit>, d: Draft, decisions: map<SpanId, Verdict>, resolutions: map<SpanId, Resolution>, s: SpanId)
      returns (r: Option<Params>)
    requires WellTyped(d) && s < |units|
    requires DecisionFor(d.decisions, s) == if s in decisions then Some(decisions[s]) else None
    requires ResolutionFor(d.resolutions, s) == if s in resolutions then Some(resolutions[s]) else None
    ensures r == SpanOrigin(units, d, s)
  {
    var u := units[s];
    if s in resolutions {
      var resolution := resolutions[s];
      assert resolution in d.resolutions;
      var derived := DeriveOptions(units, resolution.spans);
      if derived.None? || Elements(derived.value) != Elements(resolution.options) || |derived.value| < 2 {
        if derived.Some? { TwoOptions(derived.value, resolution.options); }
        return None;
      }
      return Some(Chosen(resolution));
    }
    var modality := u.modality;
    if s in decisions && decisions[s] != ExcludedByReviewer {
      if modality.Some? {
        return None;
      }
      modality := Some(if decisions[s] == ChoseMustHave then MustHave else Preferred);
    }
    if modality.None? {
      return None;
    }
    return Some(SemanticParameters(modality.value, u.years, u.level));
  }

  lemma {:induction false} TwoOptions(derived: seq<Params>, options: seq<Params>)
    requires |options| >= 2 && options[0] != options[1]
    ensures Elements(derived) == Elements(options) ==> |derived| >= 2
  {
    if Elements(derived) == Elements(options) {
      assert options[0] in Elements(derived) && options[1] in Elements(derived);
    }
  }

  // ------------------------------------------------------------------ one criterion

  ghost predicate SpansProvable(lex: Lexicon, units: seq<SourceUnit>, d: Draft, c: Criterion, spans: seq<SpanResult>) {
    forall r :: r in spans ==> SpanIsSource(lex, units, c, r) && SpanOrigin(units, d, r.spanId).Some?
  }

  method ExplainSpans(
      lex: Lexicon, units: seq<SourceUnit>, d: Draft, decisions: map<SpanId, Verdict>, resolutions: map<SpanId, Resolution>,
      c: Criterion, spans: seq<SpanResult>) returns (r: Option<(seq<SpanRecord>, set<Params>)>)
    requires WellTyped(d)
    requires forall s: SpanId :: DecisionFor(d.decisions, s) == if s in decisions then Some(decisions[s]) else None
    requires forall s: SpanId :: ResolutionFor(d.resolutions, s) == if s in resolutions then Some(resolutions[s]) else None
    ensures r.Some? <==> SpansProvable(lex, units, d, c, spans)
    ensures r.Some? ==>
      && |r.value.0| == |spans|
      && (forall i :: 0 <= i < |spans| ==> spans[i].spanId < |units| && spans[i].source.Some? && r.value.0[i] == SpanRecordOf(units, spans[i]))
      && (forall p :: p in r.value.1 <==> exists x :: x in spans && SpanOrigin(units, d, x.spanId) == Some(p))
  {
    hide SpanOrigin;
    var records: seq<SpanRecord> := [];
    var origins: set<Params> := {};
    for i := 0 to |spans|
      invariant forall k :: 0 <= k < i ==> SpanIsSource(lex, units, c, spans[k]) && SpanOrigin(units, d, spans[k].spanId).Some?
      invariant |records| == i && forall k :: 0 <= k < i ==> records[k] == SpanRecordOf(units, spans[k])
      invariant forall p :: p in origins <==> exists k :: 0 <= k < i && SpanOrigin(units, d, spans[k].spanId) == Some(p)
    {
      var x := spans[i];
      assert x in spans;
      if !SpanIsSource(lex, units, c, x) {
        return None;
      }
      var origin := AuthorityOf(units, d, decisions, resolutions, x.spanId);
      if origin.None? {
        return None;
      }
      origins := origins + {origin.value};
      records := records + [SpanRecordOf(units, x)];
    }
    return Some((records, origins));
  }

  predicate AmendsInside(chain: seq<Amendment>, records: seq<SpanRecord>) {
    forall a :: a in chain ==> exists k :: 0 <= k < |records| && records[k].spanId == a.spanId
  }

  method ExplainCriterion(
      lex: Lexicon, units: seq<SourceUnit>, d: Draft, decisions: map<SpanId, Verdict>, resolutions: map<SpanId, Resolution>,
      c: Criterion) returns (r: Option<CriterionRecord>)
    requires WellTyped(d)
    requires forall s: SpanId :: DecisionFor(d.decisions, s) == if s in decisions then Some(decisions[s]) else None
    requires forall s: SpanId :: ResolutionFor(d.resolutions, s) == if s in resolutions then Some(resolutions[s]) else None
    ensures r.Some? <==> CriterionProvable(lex, units, d, c)
    ensures r.Some? ==> r.value == CriterionRecordOf(lex, units, d, c)
  {
    hide SpanOrigin, SpanIsSource, CriterionProvable, CriterionRecordOf, AmendsInside;
    if c !in Criteria(d) {
      UnsupportedIsUnprovable(lex, units, d, c);
      return None;
    }
    var supporting := Supporting(d, c.id);
    var explained := ExplainSpans(lex, units, d, decisions, resolutions, c, supporting);
    if explained.None? || supporting == [] {
      UnsupportedIsUnprovable(lex, units, d, c);
      return None;
    }
    var records, origins := explained.value.0, explained.value.1;
    OneOriginIff(units, d, supporting, origins);
    var chain := ChainOf(d.amendments, c.id);
    InsideIff(units, supporting, records, chain);
    if |origins| != 1 || !AmendsInside(chain, records) {
      DisagreeingIsUnprovable(lex, units, d, c);
      return None;
    }
    assert SpanOrigin(units, d, supporting[0].spanId).value in origins by { assert supporting[0] in supporting; }
    var origin :| origin in origins;
    SingleElement(origins, origin, SpanOrigin(units, d, supporting[0].spanId).value);
    var replayed := ReplayAmendments(origin, chain);
    ProvableIff(lex, units, d, c, records, origin);
    if replayed != Some(ParamsOf(c)) {
      return None;
    }
    r := Some(CriterionRecord(c.id, records, origin, ParamsOf(c)));
  }

  lemma {:induction false} UnsupportedIsUnprovable(lex: Lexicon, units: seq<SourceUnit>, d: Draft, c: Criterion)
    ensures CriterionProvable(lex, units, d, c) ==>
      c in Criteria(d) && Supporting(d, c.id) != [] && SpansProvable(lex, units, d, c, Supporting(d, c.id))
  {
    hide SpanOrigin, SpanIsSource;
  }

  ghost predicate Agreeing(units: seq<SourceUnit>, d: Draft, spans: seq<SpanResult>) {
    spans != [] && forall x :: x in spans ==> SpanOrigin(units, d, x.spanId) == SpanOrigin(units, d, spans[0].spanId)
  }

  ghost predicate ChainInside(chain: seq<Amendment>, spans: seq<SpanResult>) {
    forall a :: a in chain ==> exists r :: r in spans && r.spanId == a.spanId
  }

  lemma {:induction false} DisagreeingIsUnprovable(lex: Lexicon, units: seq<SourceUnit>, d: Draft, c: Criterion)
    ensures CriterionProvable(lex, units, d, c) ==>
      Agreeing(units, d, Supporting(d, c.id)) && ChainInside(ChainOf(d.amendments, c.id), Supporting(d, c.id))
  {
    hide SpanOrigin, SpanIsSource;
  }

  lemma {:induction false} ProvableIff(
      lex: Lexicon, units: seq<SourceUnit>, d: Draft, c: Criterion, records: seq<SpanRecord>, origin: Params)
    requires c in Criteria(d)
    requires var spans := Supporting(d, c.id);
      && spans != [] && SpansProvable(lex, units, d, c, spans) && Agreeing(units, d, spans)
      && ChainInside(ChainOf(d.amendments, c.id), spans) && SpanOrigin(units, d, spans[0].spanId) == Some(origin)
      && |records| == |spans|
      && forall i :: 0 <= i < |spans| ==> spans[i].spanId < |units| && spans[i].source.Some? && records[i] == SpanRecordOf(units, spans[i])
    ensures CriterionProvable(lex, units, d, c) <==> Replay(origin, ChainOf(d.amendments, c.id)) == Some(ParamsOf(c))
    ensures CriterionProvable(lex, units, d, c) ==>
      CriterionRecordOf(lex, units, d, c) == CriterionRecord(c.id, records, origin, ParamsOf(c))
  {
    hide SpanOrigin, SpanIsSource;
    if CriterionProvable(lex, units, d, c) {
      assert records == CriterionRecordOf(lex, units, d, c).spans;
    }
  }

  lemma {:induction false} SingleElement<T>(all: set<T>, a: T, b: T)
    requires |all| == 1 && a in all && b in all
    ensures a == b
  {
    SubsetSize({a, b}, all);
  }

  lemma {:induction false} OneOriginIff(units: seq<SourceUnit>, d: Draft, spans: seq<SpanResult>, origins: set<Params>)
    requires spans != [] && forall x :: x in spans ==> SpanOrigin(units, d, x.spanId).Some?
    requires forall p :: p in origins <==> exists x :: x in spans && SpanOrigin(units, d, x.spanId) == Some(p)
    ensures |origins| == 1 <==> Agreeing(units, d, spans)
  {
    hide SpanOrigin;
    assert spans[0] in spans;
    var p := SpanOrigin(units, d, spans[0].spanId).value;
    if |origins| == 1 {
      forall x | x in spans
        ensures SpanOrigin(units, d, x.spanId) == SpanOrigin(units, d, spans[0].spanId)
      {
        SingleElement(origins, SpanOrigin(units, d, x.spanId).value, p);
      }
    }
    if Agreeing(units, d, spans) {
      assert origins == {p};
    }
  }

  lemma {:induction false} InsideIff(
      units: seq<SourceUnit>, spans: seq<SpanResult>, records: seq<SpanRecord>, chain: seq<Amendment>)
    requires |records| == |spans|
    requires forall i :: 0 <= i < |spans| ==> spans[i].spanId < |units| && spans[i].source.Some? && records[i] == SpanRecordOf(units, spans[i])
    ensures AmendsInside(chain, records) <==> ChainInside(chain, spans)
  {
    forall a: Amendment
      ensures (exists k :: 0 <= k < |records| && records[k].spanId == a.spanId) <==> exists r :: r in spans && r.spanId == a.spanId
    {
      if k :| 0 <= k < |records| && records[k].spanId == a.spanId {
        assert spans[k] in spans;
      }
      if r :| r in spans && r.spanId == a.spanId {
        var k :| 0 <= k < |spans| && spans[k] == r;
        assert records[k].spanId == a.spanId;
      }
    }
  }

  // ------------------------------------------------------------------ the whole boundary

  method BuildSemanticProvenance(lex: Lexicon, d: Draft, criteria: seq<Criterion>) returns (r: Result<Record, Refusal>)
    requires WellTyped(d)
    ensures r.Ok? <==> Provable(lex, d, criteria)
    ensures r.Ok? ==> r.value == RecordOf(lex, lex.analyze(d.sourceText.value), d, criteria)
  {
    hide SpanOrigin, CriterionProvable, CriterionRecordOf, ValidRecord, LeftOutIsSource, WellTyped, NonScorableOf;
    if d.policyVersion == "" || d.sourceDigest.None? || d.sourceText.None? || lex.sha256(d.sourceText.value) != d.sourceDigest.value {
      return Err(SourceUnproven);
    }
    var units := lex.analyze(d.sourceText.value);
    if !DraftCoherent(lex, d, criteria) {
      return Err(DraftIncoherent);
    }
    var known := set x | x in d.requirements :: x.spanId;
    KnownIs(d, known);
    WellTypedParts(d);
    var decisions := IndexDecisions(d.decisions, known);
    var resolutions := IndexResolutions(d.resolutions, known);
    var ids := Ids(d);
    if decisions.None? || resolutions.None?
       || (exists a :: a in d.amendments && (a.criterionId !in ids || a.spanId !in known))
       || !GapFree(d.amendments) {
      return Err(ActionsUnknown);
    }
    assert ActionsCoherent(d);
    var records: seq<CriterionRecord> := [];
    for i := 0 to |criteria|
      invariant forall k :: 0 <= k < i ==> CriterionProvable(lex, units, d, criteria[k])
      invariant |records| == i && forall k :: 0 <= k < i ==> records[k] == CriterionRecordOf(lex, units, d, criteria[k])
    {
      assert criteria[i] in criteria;
      var one := ExplainCriterion(lex, units, d, decisions.value, resolutions.value, criteria[i]);
      if one.None? {
        return Err(CriterionUnexplained);
      }
      records := records + [one.value];
    }
    var leftOut := LeftOut(d);
    var nonScorable: seq<NonScorable> := [];
    for i := 0 to |leftOut|
      invariant forall k :: 0 <= k < i ==> LeftOutIsSource(units, d, leftOut[k]) && leftOut[k].spanId < |units|
      invariant |nonScorable| == i && forall k :: 0 <= k < i ==> nonScorable[k] == NonScorableOf(units, d, leftOut[k])
    {
      assert leftOut[i] in leftOut;
      if !LeftOutIsSource(units, d, leftOut[i]) {
        return Err(LeftOutUnexplained);
      }
      assert leftOut[i].spanId < |units| by { LeftOutInSource(units, d, leftOut[i]); }
      nonScorable := nonScorable + [NonScorableOf(units, d, leftOut[i])];
    }
    if ExcludedItems(d) != ExcludedSpans(d.decisions) {
      return Err(ExclusionsInconsistent);
    }
    assert Explained(lex, units, d, criteria);
    var rec := Record(d.draftId, d.sourceDigest.value, d.policyVersion, d.model, records, d.decisions, d.resolutions, d.amendments, nonScorable);
    assert rec == RecordOf(lex, units, d, criteria);
    if !ValidRecord(rec) {
      return Err(RecordInconsistent);
    }
    return Ok(rec);
  }

  lemma {:induction false} KnownIs(d: Draft, known: set<SpanId>)
    requires known == set x | x in d.requirements :: x.spanId
    ensures forall s: SpanId :: s in known <==> KnownSpan(d, s)
  {
    forall s: SpanId
      ensures s in known <==> KnownSpan(d, s)
    {
      if KnownSpan(d, s) {
        var i :| 0 <= i < |d.requirements| && d.requirements[i].spanId == s;
        assert d.requirements[i] in d.requirements;
      }
    }
  }

  lemma {:induction false} WellTypedParts(d: Draft)
    requires WellTyped(d)
    ensures forall x :: x in d.resolutions ==> ResolutionOk(x)
  {
  }

  lemma {:induction false} LeftOutInSource(units: seq<SourceUnit>, d: Draft, r: SpanResult)
    requires LeftOutIsSource(units, d, r)
    ensures r.spanId < |units|
  {
  }
}
