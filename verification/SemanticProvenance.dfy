/**
 The confirmation boundary (`agent/semantic_provenance.py`): when a draft, trusted in nothing, is
 explained by its source text plus explicit human decisions, and the record that says so.
 */
module SemanticProvenance {
  import opened Wrappers
  import opened Sequences
  import opened CoreText
  import opened YearValues
  import opened DraftSchemas

  // ------------------------------------------------------------------ amendment replay

  /** One link: the amended value must be the one it claims to replace. */
  function Amended(p: Params, change: Change): Option<Params> {
    match change
    case TypeChange(old_, new_) =>
      if p.modality == old_ then Some(p.(modality := new_)) else None
    case YearsChange(old_, new_) =>
      if p.years.Some? && ToSixDigits(p.years.value) == old_ then Some(p.(years := Some(new_))) else None
    case LevelChange(old_, new_) =>
      if p.level.Some? && UpperStrip(p.level.value) == old_ then Some(p.(level := Some(new_))) else None
  }

  /** The parameters after a whole chain, or nothing when a link does not fit. */
  function Replay(origin: Params, chain: seq<Amendment>): Option<Params> {
    if chain == [] then Some(origin)
    else
      var before := Replay(origin, chain[..|chain| - 1]);
      if before.None? then None else Amended(before.value, chain[|chain| - 1].change)
  }

  /** Replaying a concatenation is replaying its parts one after the other. */
  lemma {:induction false} ReplayComposes(origin: Params, a: seq<Amendment>, b: seq<Amendment>)
    ensures Replay(origin, a + b) ==
            (var middle := Replay(origin, a); if middle.None? then None else Replay(middle.value, b))
  {
    if b == [] {
      assert a + b == a;
    } else {
      var b' := b[..|b| - 1];
      assert (a + b)[..|a + b| - 1] == a + b';
      ReplayComposes(origin, a, b');
    }
  }

  /** `replay_amendments`. */
  method ReplayAmendments(origin: Params, amendments: seq<Amendment>) returns (r: Option<Params>)
    ensures r == Replay(origin, amendments)
  {
    var current := origin;
    for i := 0 to |amendments|
      invariant Replay(origin, amendments[..i]) == Some(current)
    {
      assert amendments[..i + 1][..i] == amendments[..i];
      var next := Amended(current, amendments[i].change);
      if next.None? {
        assert amendments == amendments[..i + 1] + amendments[i + 1..];
        ReplayComposes(origin, amendments[..i + 1], amendments[i + 1..]);
        return None;
      }
      current := next.value;
    }
    assert amendments[..|amendments|] == amendments;
    return Some(current);
  }

  /** The amendments of one criterion, in the order of the one global list. */
  function ChainOf(amendments: seq<Amendment>, criterionId: string): seq<Amendment> {
    Filter((a: Amendment) => a.criterionId == criterionId, amendments)
  }

  predicate GapFree(amendments: seq<Amendment>) {
    forall i :: 0 <= i < |amendments| ==> amendments[i].sequence == i + 1
  }

  // ------------------------------------------------------------------ what the source says

  predicate Distinct<T(==)>(s: seq<T>) {
    forall i, j :: 0 <= i < j < |s| ==> s[i] != s[j]
  }

  ghost function DecisionFor(decisions: seq<Decision>, s: SpanId): Option<Verdict> {
    if exists k :: 0 <= k < |decisions| && decisions[k].spanId == s then
      var k :| 0 <= k < |decisions| && decisions[k].spanId == s;
      Some(decisions[k].verdict)
    else None
  }

  ghost function ResolutionFor(resolutions: seq<Resolution>, s: SpanId): Option<Resolution> {
    if exists k :: 0 <= k < |resolutions| && s in resolutions[k].spans then
      var k :| 0 <= k < |resolutions| && s in resolutions[k].spans;
      Some(resolutions[k])
    else None
  }

  predicate DecisionsOnce(decisions: seq<Decision>) {
    forall i, j :: 0 <= i < j < |decisions| ==> decisions[i].spanId != decisions[j].spanId
  }

  predicate ShareSpan(a: Resolution, b: Resolution) {
    exists s :: s in a.spans && s in b.spans
  }

  predicate ResolutionsOnce(resolutions: seq<Resolution>) {
    forall i, j :: 0 <= i < j < |resolutions| ==> !ShareSpan(resolutions[i], resolutions[j])
  }

  lemma {:induction false} DecisionForAt(decisions: seq<Decision>, k: nat)
    requires k < |decisions| && DecisionsOnce(decisions)
    ensures DecisionFor(decisions, decisions[k].spanId) == Some(decisions[k].verdict)
  {
  }

  lemma {:induction false} ResolutionForAt(resolutions: seq<Resolution>, k: nat, s: SpanId)
    requires k < |resolutions| && s in resolutions[k].spans && ResolutionsOnce(resolutions)
    ensures ResolutionFor(resolutions, s) == Some(resolutions[k])
  {
    forall k' | 0 <= k' < |resolutions| && s in resolutions[k'].spans
      ensures k' == k
    {
      assert ShareSpan(resolutions[k], resolutions[k']) && ShareSpan(resolutions[k'], resolutions[k]);
    }
  }

  function OptionOf(u: SourceUnit): Params
    requires u.modality.Some?
  {
    SemanticParameters(u.modality.value, u.years, u.level)
  }

  predicate SpansStateModality(units: seq<SourceUnit>, spans: seq<SpanId>) {
    forall s :: s in spans ==> s < |units| && units[s].modality.Some?
  }

  function SourceOptions(units: seq<SourceUnit>, spans: seq<SpanId>): (all: set<Params>)
    requires SpansStateModality(units, spans)
    ensures forall p :: p in all <==> exists s :: s in spans && p == OptionOf(units[s])
  {
    set s | s in spans :: OptionOf(units[s])
  }

  /** The options of a conflict choice are exactly the parameter sets the source spans re-derive. */
  predicate OptionsAreTheSource(units: seq<SourceUnit>, r: Resolution) {
    SpansStateModality(units, r.spans) && SourceOptions(units, r.spans) == Elements(r.options)
  }

  /**
   The parameters one span contributes before any amendment: its re-derived source parameters; or,
   where the source states no modality, those with the reviewer's; or the option chosen among
   exactly the re-derived ones. Nothing when there is no such authority.
   */
  ghost function SpanOrigin(units: seq<SourceUnit>, d: Draft, s: SpanId): Option<Params> {
    if s >= |units| then None
    else
      var u := units[s];
      match ResolutionFor(d.resolutions, s)
      case Some(r) =>
        if ResolutionOk(r) && OptionsAreTheSource(units, r) then Some(Chosen(r)) else None
      case None =>
        match DecisionFor(d.decisions, s)
        case Some(ChoseMustHave) =>
          if u.modality.Some? then None else Some(SemanticParameters(MustHave, u.years, u.level))
        case Some(ChosePreferred) =>
          if u.modality.Some? then None else Some(SemanticParameters(Preferred, u.years, u.level))
        case _ =>
          if u.modality.None? then None else Some(OptionOf(u))
  }

  // ------------------------------------------------------------------ the durable record

  datatype SpanRecord = SpanRecord(spanId: SpanId, start: nat, end: nat, text: string, source: InterpretationSource)

  datatype CriterionRecord = CriterionRecord(criterionId: string, spans: seq<SpanRecord>, origin: Params, final: Params)

  datatype NonScorableReason = ProhibitedAttribute | UnsupportedByPolicy | Excluded | ReviewOnly

  datatype NonScorable = NonScorable(
    spanId: SpanId, start: nat, end: nat, state: SpanState, reason: NonScorableReason,
    text: Option<string>, excluded: bool)

  datatype Record = Record(
    draftId: nat, sourceDigest: string, policyVersion: string, model: Option<string>,
    criteria: seq<CriterionRecord>, decisions: seq<Decision>, resolutions: seq<Resolution>,
    amendments: seq<Amendment>, nonScorable: seq<NonScorable>)

  predicate SpanRecordOk(r: SpanRecord) {
    r.start < r.end && |r.text| == r.end - r.start && |r.text| <= MAX_TEXT
  }

  predicate NonScorableOk(n: NonScorable) {
    && n.state != Scorable
    && n.start < n.end
    && (if n.state == Prohibited then n.text.None? && n.reason == ProhibitedAttribute
        else n.text.Some? && |n.text.value| == n.end - n.start && |n.text.value| <= MAX_TEXT)
    && (n.excluded <==> n.reason == Excluded)
  }

  function SpanSet(c: CriterionRecord): set<SpanId> {
    set s | s in c.spans :: s.spanId
  }

  function SpanIds(c: CriterionRecord): seq<SpanId> {
    seq(|c.spans|, i requires 0 <= i < |c.spans| => c.spans[i].spanId)
  }

  function ExcludedSpans(decisions: seq<Decision>): set<SpanId> {
    set x | x in decisions && x.verdict == ExcludedByReviewer :: x.spanId
  }

  function RecordedExclusions(nonScorable: seq<NonScorable>): set<SpanId> {
    set n | n in nonScorable && n.excluded :: n.spanId
  }

  /** A resolution's spans belong to exactly one criterion, whose origin is the option chosen. */
  predicate ResolutionExplains(criteria: seq<CriterionRecord>, r: Resolution) {
    && ResolutionOk(r)
    && exists k :: 0 <= k < |criteria|
         && (forall s :: s in r.spans ==> s in SpanSet(criteria[k]))
         && criteria[k].origin == Chosen(r)
         && forall k' :: 0 <= k' < |criteria| && k' != k ==> exists s :: s in r.spans && s !in SpanSet(criteria[k'])
  }

  predicate AmendmentMatches(criteria: seq<CriterionRecord>, a: Amendment) {
    AmendmentOk(a) && exists k :: 0 <= k < |criteria| && criteria[k].criterionId == a.criterionId && a.spanId in SpanSet(criteria[k])
  }

  predicate CriterionRecordOk(rec: Record, c: CriterionRecord) {
    && 1 <= |c.spans| <= MAX_SPANS
    && Distinct(SpanIds(c))
    && (forall s :: s in c.spans ==> SpanRecordOk(s) && (s.source == ModelValidated ==> rec.model.Some?))
    && Replay(c.origin, ChainOf(rec.amendments, c.criterionId)) == Some(c.final)
    && SpanSet(c) !! ExcludedSpans(rec.decisions)
  }

  /** `AgentSemanticProvenance._validate_consistency` and the validators of the record's parts. */
  predicate ValidRecord(rec: Record) {
    && |rec.criteria| <= MAX_SPANS && |rec.decisions| <= MAX_SPANS && |rec.resolutions| <= MAX_SPANS
    && |rec.nonScorable| <= MAX_SPANS && |rec.amendments| <= MAX_AMENDMENTS
    && (forall i, j :: 0 <= i < j < |rec.criteria| ==>
          rec.criteria[i].criterionId != rec.criteria[j].criterionId && SpanSet(rec.criteria[i]) !! SpanSet(rec.criteria[j]))
    && (forall c :: c in rec.criteria ==> CriterionRecordOk(rec, c))
    && DecisionsOnce(rec.decisions)
    && (forall i, j :: 0 <= i < j < |rec.nonScorable| ==> rec.nonScorable[i].spanId != rec.nonScorable[j].spanId)
    && (forall n :: n in rec.nonScorable ==>
          NonScorableOk(n) && forall c :: c in rec.criteria ==> n.spanId !in SpanSet(c))
    && RecordedExclusions(rec.nonScorable) == ExcludedSpans(rec.decisions)
    && ResolutionsOnce(rec.resolutions)
    && (forall r :: r in rec.resolutions ==> ResolutionExplains(rec.criteria, r))
    && GapFree(rec.amendments)
    && (forall a :: a in rec.amendments ==> AmendmentMatches(rec.criteria, a))
  }

  // ------------------------------------------------------------------ what must hold of a draft

  /** What the draft's types already guarantee of its parts. */
  predicate WellTyped(d: Draft) {
    && (forall r :: r in d.resolutions ==> ResolutionOk(r))
    && (forall a :: a in d.amendments ==> AmendmentOk(a))
    && (forall x :: x in d.needsReview && x.excluded ==> x.spanId.Some?)
  }

  function RequirementIds(d: Draft): seq<SpanId> {
    seq(|d.requirements|, i requires 0 <= i < |d.requirements| => d.requirements[i].spanId)
  }

  function CriterionIds(criteria: seq<Criterion>): seq<string> {
    seq(|criteria|, i requires 0 <= i < |criteria| => criteria[i].id)
  }

  function Identities(lex: Lexicon, criteria: seq<Criterion>): seq<(Kind, string)> {
    seq(|criteria|, i requires 0 <= i < |criteria| => CriterionIdentity(lex, criteria[i]))
  }

  predicate KnownSpan(d: Draft, s: SpanId) {
    exists i :: 0 <= i < |d.requirements| && d.requirements[i].spanId == s
  }

  function Supporting(d: Draft, id: string): seq<SpanResult> {
    Filter((r: SpanResult) => r.state == Scorable && r.criterionId == Some(id), d.requirements)
  }

  function ScoredIds(d: Draft): set<Option<string>> {
    set r | r in d.requirements && r.state == Scorable :: r.criterionId
  }

  function NamedIds(criteria: seq<Criterion>): set<Option<string>> {
    set c | c in criteria :: Some(c.id)
  }

  /** The digest really is the source text's, and the confirmed rows really are the draft's. */
  predicate DraftCoherent(lex: Lexicon, d: Draft, criteria: seq<Criterion>) {
    && d.policyVersion != ""
    && d.sourceDigest.Some? && d.sourceText.Some? && lex.sha256(d.sourceText.value) == d.sourceDigest.value
    && Distinct(CriterionIds(Criteria(d)))
    && Distinct(RequirementIds(d))
    && Distinct(CriterionIds(criteria))
    && ScoredIds(d) == NamedIds(criteria)
    && Distinct(Identities(lex, criteria))
  }

  /** Every recorded human action names known spans and criteria, once each and in order. */
  predicate ActionsCoherent(d: Draft) {
    && (forall x :: x in d.decisions ==> KnownSpan(d, x.spanId))
    && DecisionsOnce(d.decisions)
    && (forall r, s :: r in d.resolutions && s in r.spans ==> KnownSpan(d, s))
    && ResolutionsOnce(d.resolutions)
    && (forall a :: a in d.amendments ==> a.criterionId in Ids(d) && KnownSpan(d, a.spanId))
    && GapFree(d.amendments)
  }

  const GROUNDED_KINDS := {Skill, SkillExperience, DomainExperience, Language}

  predicate GroundedIn(lex: Lexicon, c: Criterion, text: string) {
    c.kind in GROUNDED_KINDS && HasText(c.value) ==> lex.groundedIn(c.kind, c.value.value, text)
  }

  /** One supporting span is exactly a re-derived source unit of the criterion's family, and grounds it. */
  predicate SpanIsSource(lex: Lexicon, units: seq<SourceUnit>, c: Criterion, r: SpanResult) {
    && r.spanId < |units|
    && r.text.Some? && r.source.Some?
    && (var u := units[r.spanId];
        && u.start == r.start && u.end == r.end && u.text == r.text.value
        && u.family == Some(c.kind)
        && GroundedIn(lex, c, u.text)
        && SpanRecordOk(SpanRecord(r.spanId, r.start, r.end, u.text, r.source.value)))
  }

  ghost predicate CriterionProvable(lex: Lexicon, units: seq<SourceUnit>, d: Draft, c: Criterion) {
    && c in Criteria(d)
    && (var supporting := Supporting(d, c.id);
        && supporting != []
        && (forall r :: r in supporting ==>
              SpanIsSource(lex, units, c, r) && SpanOrigin(units, d, r.spanId).Some?
              && SpanOrigin(units, d, r.spanId) == SpanOrigin(units, d, supporting[0].spanId))
        && (forall a :: a in ChainOf(d.amendments, c.id) ==> exists r :: r in supporting && r.spanId == a.spanId)
        && Replay(SpanOrigin(units, d, supporting[0].spanId).value, ChainOf(d.amendments, c.id)) == Some(ParamsOf(c)))
  }

  predicate IsExcluded(d: Draft, s: SpanId) {
    Decision(s, ExcludedByReviewer) in d.decisions
  }

  function NonScorableOf(units: seq<SourceUnit>, d: Draft, r: SpanResult): NonScorable
    requires r.spanId < |units|
  {
    var excluded := IsExcluded(d, r.spanId);
    NonScorable(
      r.spanId, r.start, r.end, r.state,
      if r.state == Prohibited then ProhibitedAttribute
      else if excluded then Excluded
      else if r.state == Unsupported then UnsupportedByPolicy
      else ReviewOnly,
      if r.state == Prohibited then None else Some(units[r.spanId].text),
      excluded)
  }

  predicate LeftOutIsSource(units: seq<SourceUnit>, d: Draft, r: SpanResult) {
    && r.spanId < |units|
    && units[r.spanId].start == r.start && units[r.spanId].end == r.end
    && (r.state != Prohibited && r.text.Some? ==> r.text.value == units[r.spanId].text)
    && NonScorableOk(NonScorableOf(units, d, r))
  }

  function LeftOut(d: Draft): seq<SpanResult> {
    Filter((r: SpanResult) => r.state != Scorable, d.requirements)
  }

  function ExcludedItems(d: Draft): set<SpanId>
    requires WellTyped(d)
  {
    set x | x in d.needsReview && x.excluded :: x.spanId.value
  }

  function SpanRecordOf(units: seq<SourceUnit>, r: SpanResult): SpanRecord
    requires r.spanId < |units| && r.source.Some?
  {
    SpanRecord(r.spanId, r.start, r.end, units[r.spanId].text, r.source.value)
  }

  /** What the source and the human decisions say of a criterion before any amendment. */
  ghost function OriginOf(lex: Lexicon, units: seq<SourceUnit>, d: Draft, c: Criterion): Params
    requires CriterionProvable(lex, units, d, c)
  {
    SpanOrigin(units, d, Supporting(d, c.id)[0].spanId).value
  }

  ghost function CriterionRecordOf(lex: Lexicon, units: seq<SourceUnit>, d: Draft, c: Criterion): CriterionRecord
    requires CriterionProvable(lex, units, d, c)
  {
    var supporting := Supporting(d, c.id);
    CriterionRecord(
      c.id,
      seq(|supporting|, i requires 0 <= i < |supporting| =>
        assert supporting[i] in supporting; SpanRecordOf(units, supporting[i])),
      OriginOf(lex, units, d, c),
      ParamsOf(c))
  }

  ghost predicate Explained(lex: Lexicon, units: seq<SourceUnit>, d: Draft, criteria: seq<Criterion>)
    requires WellTyped(d)
  {
    && DraftCoherent(lex, d, criteria)
    && ActionsCoherent(d)
    && (forall c :: c in criteria ==> CriterionProvable(lex, units, d, c))
    && (forall r :: r in LeftOut(d) ==> LeftOutIsSource(units, d, r))
    && ExcludedItems(d) == ExcludedSpans(d.decisions)
  }

  ghost function RecordOf(lex: Lexicon, units: seq<SourceUnit>, d: Draft, criteria: seq<Criterion>): Record
    requires WellTyped(d) && Explained(lex, units, d, criteria)
  {
    Record(
      d.draftId, d.sourceDigest.value, d.policyVersion, d.model,
      seq(|criteria|, i requires 0 <= i < |criteria| =>
        assert criteria[i] in criteria; CriterionRecordOf(lex, units, d, criteria[i])),
      d.decisions, d.resolutions, d.amendments,
      seq(|LeftOut(d)|, i requires 0 <= i < |LeftOut(d)| =>
        assert LeftOut(d)[i] in LeftOut(d); NonScorableOf(units, d, LeftOut(d)[i])))
  }

  /** The whole test of the confirmation boundary, for any draft and any confirmed rows. */
  ghost predicate Provable(lex: Lexicon, d: Draft, criteria: seq<Criterion>)
    requires WellTyped(d)
  {
    && d.sourceText.Some?
    && var units := lex.analyze(d.sourceText.value);
    && Explained(lex, units, d, criteria)
    && ValidRecord(RecordOf(lex, units, d, criteria))
  }
}
