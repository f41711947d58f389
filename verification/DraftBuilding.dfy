/**
 The draft a vacancy text becomes (`_build_authorized_semantic_draft` of `agent/service.py`): one pass
 over the canonical requirements, as the loop that runs and as the step it is proved against.
 */
module DraftBuilding {
  import opened Wrappers
  import opened Sequences
  import opened CoreText
  import opened DraftSchemas
  import opened CanonicalRequirements

  const MAX_REVIEW_TEXT := 500

  datatype BuildError = SubjectMissing | OptionsOverflow | ReviewTextTooLong | CollisionReached | ShapeMissing

  /** What the loop has accumulated: the draft so far, the reserved ids, and one criterion per requirement. */
  datatype Building = Building(d: Draft, used: set<string>, byKey: map<RequirementKey, Criterion>)

  function BlankDraft(
      draftId: nat, resultLimit: int, policyVersion: string, digest: Option<string>, text: Option<string>,
      model: Option<string>): Draft
  {
    Draft(draftId, resultLimit, [], [], [], [], 0, [], [], [], [], policyVersion, digest, text, model)
  }

  // ------------------------------------------------------------------ pieces

  function SubjectText(lex: Lexicon, c: Canonical, u: SourceUnit): string {
    var subject := if HasText(c.subject) then c.subject.value else u.text;
    if c.kind == Some(DomainExperience) then lex.domainDisplay(subject) else subject
  }

  function CriterionNamed(lex: Lexicon, c: Canonical, u: SourceUnit, id: string): Criterion
    requires Ready(c)
  {
    var subject := SubjectText(lex, c, u);
    Criterion(id, c.kind.value, c.modality.value, subject, if c.kind.value == Experience then None else Some(subject), c.years, c.level)
  }

  function SlugText(lex: Lexicon, c: Canonical, u: SourceUnit): string {
    lex.foldedLabel(SubjectText(lex, c, u))
  }

  ghost function Materialized(lex: Lexicon, c: Canonical, u: SourceUnit, used: set<string>): Criterion
    requires Ready(c)
  {
    CriterionNamed(lex, c, u, Slug(SlugBase(SlugText(lex, c, u)), used))
  }

  function ResultFor(
      c: Canonical, u: SourceUnit, i: nat, state: SpanState, criterionId: Option<string>, shape: bool): SpanResult
  {
    SpanResult(
      i, u.start, u.end, if state == Prohibited then None else Some(u.text), state, c.modality, criterionId,
      if criterionId.Some? || shape then c.source else None)
  }

  /** The spans of conflict `g` among the first `n`, in source order. */
  function MembersUpTo(canonical: seq<Canonical>, g: nat, n: nat): (r: seq<SpanId>)
    requires n <= |canonical|
    ensures forall s: nat :: s in r <==> s < n && canonical[s].conflict == Some(g) && canonical[s].state == NeedsReview
    ensures forall a, b :: 0 <= a < b < |r| ==> r[a] < r[b]
    ensures forall a :: 0 <= a < |r| ==> r[a] < n
  {
    if n == 0 then []
    else
      var before := MembersUpTo(canonical, g, n - 1);
      if canonical[n - 1].conflict == Some(g) && canonical[n - 1].state == NeedsReview then before + [n - 1] else before
  }

  function Members(canonical: seq<Canonical>, g: nat): seq<SpanId> {
    MembersUpTo(canonical, g, |canonical|)
  }

  predicate MembersReadable(canonical: seq<Canonical>, members: seq<SpanId>) {
    forall k :: 0 <= k < |members| ==> members[k] < |canonical| && canonical[members[k]].modality.Some?
  }

  /** The parameter sets of the members, in order, without repeats. */
  function OptionsOf(canonical: seq<Canonical>, members: seq<SpanId>): (r: seq<Params>)
    requires MembersReadable(canonical, members)
    ensures forall p :: p in r <==> exists k :: 0 <= k < |members| && p == ParametersOf(canonical[members[k]])
    ensures forall a, b :: 0 <= a < b < |r| ==> r[a] != r[b]
  {
    if members == [] then []
    else
      var n := |members| - 1;
      var before := OptionsOf(canonical, members[..n]);
      var option := ParametersOf(canonical[members[n]]);
      if option in before then before else before + [option]
  }

  function JoinedText(units: seq<SourceUnit>, members: seq<SpanId>): string
    requires forall k :: 0 <= k < |members| ==> members[k] < |units|
  {
    if members == [] then ""
    else if |members| == 1 then units[members[0]].text
    else JoinedText(units, members[..|members| - 1]) + " \U{B7} " + units[members[|members| - 1]].text
  }

  function ConflictItem(
      lex: Lexicon, units: seq<SourceUnit>, canonical: seq<Canonical>, i: nat, members: seq<SpanId>): ReviewItem
    requires |units| == |canonical| && i < |units| && MembersReadable(canonical, members)
    requires canonical[i].subject.Some?
  {
    var c := canonical[i];
    ReviewItem(
      Take(JoinedText(units, members), MAX_REVIEW_TEXT), None, Some(i), c.kind,
      Some(if c.kind == Some(DomainExperience) then lex.domainDisplay(c.subject.value) else c.subject.value),
      None, None, [], true, false, members, OptionsOf(canonical, members))
  }

  function OrdinaryItem(c: Canonical, u: SourceUnit, i: nat, state: SpanState, shape: bool): ReviewItem {
    var reviewable := state == NeedsReview && shape && c.kind.Some? && HasText(c.subject);
    var blocking := state == NeedsReview && c.modality == Some(MustHave);
    ReviewItem(
      u.text, c.modality, if reviewable || blocking then Some(i) else None,
      if reviewable then c.kind else None, if reviewable then c.subject else None, c.years, c.level,
      if reviewable && c.modality.None? then [MustHave, Preferred] else [], blocking, false, [], [])
  }

  // ------------------------------------------------------------------ one span

  function WithResult(d: Draft, r: SpanResult): Draft {
    d.(requirements := d.requirements + [r])
  }

  function WithNew(d: Draft, c: Criterion): Draft {
    if c.modality == MustHave then d.(mustHave := d.mustHave + [c]) else d.(preferred := d.preferred + [c])
  }

  /** A span that is not scored and not in conflict: counted, disclosed or put up for review. */
  function StepAside(
      b: Building, c: Canonical, u: SourceUnit, i: nat, state: SpanState, shape: bool): Result<Building, BuildError>
  {
    var d := WithResult(b.d, ResultFor(c, u, i, state, None, shape));
    if state == Prohibited then Ok(b.(d := d.(prohibitedCount := d.prohibitedCount + 1)))
    else if |u.text| > MAX_REVIEW_TEXT then Err(ReviewTextTooLong)
    else if state == Unsupported && c.modality.Some? then Ok(b.(d := d.(unsupported := d.unsupported + [(u.text, c.modality.value)])))
    else Ok(b.(d := d.(needsReview := d.needsReview + [OrdinaryItem(c, u, i, state, shape)])))
  }

  function StepConflict(
      lex: Lexicon, units: seq<SourceUnit>, canonical: seq<Canonical>, b: Building, i: nat): Result<Building, BuildError>
    requires |units| == |canonical| && i < |units| && canonical[i].conflict.Some?
  {
    var c := canonical[i];
    var members := Members(canonical, c.conflict.value);
    var d := WithResult(b.d, ResultFor(c, units[i], i, c.state, None, c.shape));
    if members == [] || members[0] != i then Ok(b.(d := d))
    else if c.kind.None? || c.subject.None? then Err(SubjectMissing)
    else if !MembersReadable(canonical, members) then Err(ShapeMissing)
    else
      var item := ConflictItem(lex, units, canonical, i, members);
      if |item.conflictOptions| > MAX_OPTIONS then Err(OptionsOverflow)
      else Ok(b.(d := d.(needsReview := d.needsReview + [item])))
  }

  function StepScored(
      b: Building, c: Canonical, u: SourceUnit, i: nat, criterion: Criterion, key: RequirementKey, isNew: bool): Building
  {
    var d := WithResult(b.d, ResultFor(c, u, i, Scorable, Some(criterion.id), c.shape));
    if isNew then Building(WithNew(d, criterion), b.used + {criterion.id}, b.byKey[key := criterion]) else b.(d := d)
  }

  ghost function StepScorable(
      lex: Lexicon, b: Building, c: Canonical, u: SourceUnit, i: nat): Result<Building, BuildError>
  {
    if !Ready(c) then Err(ShapeMissing)
    else
      var key := IdentityOf(lex, c);
      if key in b.byKey then
        if ParamsOf(b.byKey[key]) == ParametersOf(c) then Ok(StepScored(b, c, u, i, b.byKey[key], key, false))
        else Err(CollisionReached)
      else
        var criterion := Materialized(lex, c, u, b.used);
        if CriterionOk(lex, criterion) then Ok(StepScored(b, c, u, i, criterion, key, true))
        else StepAside(b.(used := b.used + {criterion.id}), c, u, i, NeedsReview, false)
  }

  predicate InConflictGroup(c: Canonical) {
    c.conflict.Some? && c.state == NeedsReview
  }

  ghost function BuildStep(
      lex: Lexicon, units: seq<SourceUnit>, canonical: seq<Canonical>, b: Building, i: nat): Result<Building, BuildError>
    requires |units| == |canonical| && i < |units|
  {
    var c := canonical[i];
    if c.state == Scorable then StepScorable(lex, b, c, units[i], i)
    else if InConflictGroup(c) then StepConflict(lex, units, canonical, b, i)
    else StepAside(b, c, units[i], i, c.state, c.shape)
  }

  ghost function BuildTo(
      lex: Lexicon, units: seq<SourceUnit>, canonical: seq<Canonical>, blank: Draft, n: nat): Result<Building, BuildError>
    requires |units| == |canonical| && n <= |units|
  {
    if n == 0 then Ok(Building(blank, {}, map[]))
    else
      var before := BuildTo(lex, units, canonical, blank, n - 1);
      if before.Err? then before else BuildStep(lex, units, canonical, before.value, n - 1)
  }

  ghost function Build(
      lex: Lexicon, units: seq<SourceUnit>, canonical: seq<Canonical>, blank: Draft): Result<Draft, BuildError>
    requires |units| == |canonical|
  {
    var b := BuildTo(lex, units, canonical, blank, |units|);
    if b.Ok? then Ok(b.value.d) else Err(b.error)
  }

  // ------------------------------------------------------------------ the loop

  lemma {:induction false} ErrorsStay(
      lex: Lexicon, units: seq<SourceUnit>, canonical: seq<Canonical>, blank: Draft, i: nat, n: nat)
    requires |units| == |canonical| && i <= n <= |units| && BuildTo(lex, units, canonical, blank, i).Err?
    ensures BuildTo(lex, units, canonical, blank, n) == BuildTo(lex, units, canonical, blank, i)
  {
    hide BuildStep;
    if i < n {
      ErrorsStay(lex, units, canonical, blank, i, n - 1);
    }
  }

  method StepScorableSpan(
      lex: Lexicon, b: Building, c: Canonical, u: SourceUnit, i: nat) returns (r: Result<Building, BuildError>)
    requires |b.used| < 999
    ensures r == StepScorable(lex, b, c, u, i)
    ensures r.Ok? ==> |r.value.used| <= |b.used| + 1
  {
    if !Ready(c) {
      return Err(ShapeMissing);
    }
    var key := IdentityOf(lex, c);
    if key in b.byKey {
      if ParamsOf(b.byKey[key]) != ParametersOf(c) {
        return Err(CollisionReached);
      }
      return Ok(StepScored(b, c, u, i, b.byKey[key], key, false));
    }
    SlugIsFresh(SlugText(lex, c, u), b.used);
    var id, used := SlugifyCriterionLabel(SlugText(lex, c, u), b.used);
    var criterion := CriterionNamed(lex, c, u, id);
    if !CriterionOk(lex, criterion) {
      return StepAside(b.(used := used), c, u, i, NeedsReview, false);
    }
    return Ok(StepScored(b, c, u, i, criterion, key, true));
  }

  /** `_build_authorized_semantic_draft`, without the title and the result-count disclosure. */
  method BuildAuthorizedDraft(
      lex: Lexicon, units: seq<SourceUnit>, canonical: seq<Canonical>, blank: Draft)
      returns (r: Result<Draft, BuildError>)
    requires |units| == |canonical| <= MAX_SPANS
    ensures r == Build(lex, units, canonical, blank)
  {
    hide StepScorable, StepConflict, StepAside;
    var b := Building(blank, {}, map[]);
    for i := 0 to |units|
      invariant BuildTo(lex, units, canonical, blank, i) == Ok(b)
      invariant |b.used| <= i
    {
      var c := canonical[i];
      var next: Result<Building, BuildError>;
      if c.state == Scorable {
        next := StepScorableSpan(lex, b, c, units[i], i);
      } else if InConflictGroup(c) {
        next := StepConflict(lex, units, canonical, b, i);
        ConflictReservesNothing(lex, units, canonical, b, i);
      } else {
        next := StepAside(b, c, units[i], i, c.state, c.shape);
        AsideReservesNothing(b, c, units[i], i, c.state, c.shape);
      }
      assert next == BuildTo(lex, units, canonical, blank, i + 1);
      if next.Err? {
        ErrorsStay(lex, units, canonical, blank, i + 1, |units|);
        return Err(next.error);
      }
      b := next.value;
    }
    return Ok(b.d);
  }

  lemma {:induction false} AsideReservesNothing(
      b: Building, c: Canonical, u: SourceUnit, i: nat, state: SpanState, shape: bool)
    ensures var r := StepAside(b, c, u, i, state, shape); r.Ok? ==> r.value.used == b.used && r.value.byKey == b.byKey
  {
  }

  lemma {:induction false} ConflictReservesNothing(
      lex: Lexicon, units: seq<SourceUnit>, canonical: seq<Canonical>, b: Building, i: nat)
    requires |units| == |canonical| && i < |units| && canonical[i].conflict.Some?
    ensures var r := StepConflict(lex, units, canonical, b, i); r.Ok? ==> r.value.used == b.used && r.value.byKey == b.byKey
  {
  }
}
