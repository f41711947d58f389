/**
 The four kinds of edit of a pending draft (draft functions of `agent/service.py`).

 They return a copy of the draft, so they are functions. `Slug` is a specification function (the loop
 that computes it is `CoreText.SlugifyCriterionLabel`), which makes the two minting edits ghost.
 */
module DraftEditing {
  import opened Wrappers
  import opened Sequences
  import opened CoreText
  import opened YearValues
  import opened DraftSchemas

  datatype EditError = NotFound | NotAllowed | NoCanonicalShape | NotAwaitingReview | DifferentParameters | InvalidCriterion

  /** `_criterion_with_identity`: the first criterion of that identity. */
  function CriterionWithIdentity(lex: Lexicon, d: Draft, kind: Kind, subject: Option<string>): (r: Option<Criterion>)
    ensures r.Some? ==> r.value in Criteria(d) && CriterionIdentity(lex, r.value) == Identity(lex, kind, subject)
    ensures r.None? ==> forall c :: c in Criteria(d) ==> CriterionIdentity(lex, c) != Identity(lex, kind, subject)
  {
    var matches := Filter((c: Criterion) => CriterionIdentity(lex, c) == Identity(lex, kind, subject), Criteria(d));
    if matches == [] then
      assert forall c :: c in Criteria(d) && CriterionIdentity(lex, c) == Identity(lex, kind, subject) ==> c in matches;
      None
    else
      assert matches[0] in matches;
      Some(matches[0])
  }

  /** `_with_review_decision`: one final decision per span. */
  function WithDecision(decisions: seq<Decision>, s: SpanId, verdict: Verdict): seq<Decision> {
    Filter((x: Decision) => x.spanId != s, decisions) + [Decision(s, verdict)]
  }

  function WithoutReview(items: seq<ReviewItem>, s: SpanId): seq<ReviewItem> {
    Filter((x: ReviewItem) => x.spanId != Some(s), items)
  }

  /** The spans become evidence of one criterion. */
  function Scored(results: seq<SpanResult>, spans: set<SpanId>, modality: Modality, id: string): (r: seq<SpanResult>)
    ensures |r| == |results|
    ensures forall i :: 0 <= i < |r| ==>
      r[i] == if results[i].spanId in spans
              then results[i].(state := Scorable, modality := Some(modality), criterionId := Some(id))
              else results[i]
  {
    Map((x: SpanResult) =>
          if x.spanId in spans then x.(state := Scorable, modality := Some(modality), criterionId := Some(id)) else x,
        results)
  }

  function WithCriterion(d: Draft, c: Criterion): Draft {
    if c.modality == MustHave then d.(mustHave := d.mustHave + [c]) else d.(preferred := d.preferred + [c])
  }

  /** The criterion a resolved review item mints; its id is the first free slug of its subject. */
  ghost function MintedCriterion(
      lex: Lexicon, d: Draft, kind: Kind, subject: string, p: Params, level: Option<string>): Criterion
  {
    Criterion(
      Slug(SlugBase(lex.foldedLabel(subject)), Ids(d)), kind, p.modality, subject,
      if kind == Experience then None else Some(subject), p.years, level)
  }

  function ItemOf(s: SpanId): ReviewItem -> bool {
    (x: ReviewItem) => x.spanId == Some(s)
  }

  function ConflictOf(s: SpanId): ReviewItem -> bool {
    (x: ReviewItem) => x.spanId == Some(s) && x.conflictOptions != []
  }

  function ResultOf(s: SpanId): SpanResult -> bool {
    (r: SpanResult) => r.spanId == s
  }

  function ResultWithin(spans: set<SpanId>): SpanResult -> bool {
    (r: SpanResult) => r.spanId in spans
  }

  /** The canonical shape must still validate against the exact source span. */
  predicate ShapeRevalidates(lex: Lexicon, kind: Kind, subject: string, text: string) {
    && kind != Other
    && !lex.nonProfessional(text)
    && IsCanonicalSubject(lex, kind, Some(subject))
    && (kind != Experience ==> lex.groundedIn(kind, subject, text))
    && !Prohibits(lex, text) && !Prohibits(lex, subject)
  }

  /** `resolve_job_draft_review_modality`. */
  ghost function ResolveModality(lex: Lexicon, d: Draft, s: SpanId, m: Modality): Result<Draft, EditError> {
    var matches := Filter(ItemOf(s), d.needsReview);
    if |matches| != 1 then Err(NotFound)
    else
      var review := matches[0];
      if m !in review.allowed then Err(NotAllowed)
      else if review.kind.None? || review.subject.None? then Err(NoCanonicalShape)
      else
        var results := Filter(ResultOf(s), d.requirements);
        if |results| != 1 || results[0].state != NeedsReview then Err(NotAwaitingReview)
        else
          var kind, subject := review.kind.value, review.subject.value;
          var text := if results[0].text.Some? then results[0].text.value else "";
          if !ShapeRevalidates(lex, kind, subject, text) then Err(NoCanonicalShape)
          else
            var p := Params(m, review.years, review.level);
            var existing := CriterionWithIdentity(lex, d, kind, Some(subject));
            var decided := d.(
              needsReview := WithoutReview(d.needsReview, s),
              decisions := WithDecision(d.decisions, s, VerdictOf(m)));
            if existing.Some? then
              if ParamsOf(existing.value) != SemanticParameters(m, review.years, review.level) then Err(DifferentParameters)
              else Ok(decided.(requirements := Scored(d.requirements, {s}, m, existing.value.id)))
            else
              var c := MintedCriterion(lex, d, kind, subject, p, review.level);
              if !CriterionOk(lex, c) then Err(InvalidCriterion)
              else Ok(WithCriterion(decided.(requirements := Scored(d.requirements, {s}, m, c.id)), c))
  }

  predicate AllAwaiting(results: seq<SpanResult>) {
    forall r :: r in results ==> r.state == NeedsReview && HasText(r.text)
  }

  predicate AllGround(lex: Lexicon, kind: Kind, subject: string, results: seq<SpanResult>) {
    forall r :: r in results ==> lex.groundedIn(kind, subject, if r.text.Some? then r.text.value else "")
  }

  /** `resolve_job_draft_semantic_conflict`. */
  ghost function ResolveConflict(lex: Lexicon, d: Draft, s: SpanId, optionIndex: int): Result<Draft, EditError> {
    var matches := Filter(ConflictOf(s), d.needsReview);
    if |matches| != 1 then Err(NotFound)
    else
      var review := matches[0];
      if review.excluded || !(0 <= optionIndex < |review.conflictOptions|) then Err(NotAllowed)
      else if review.kind.None? || review.subject.None? then Err(NoCanonicalShape)
      else
        var kind, subject := review.kind.value, review.subject.value;
        var spans := Elements(review.conflictSpans);
        var results := Filter(ResultWithin(spans), d.requirements);
        if |results| != |spans| || !AllAwaiting(results) then Err(NotAwaitingReview)
        else if kind != Experience && !AllGround(lex, kind, subject, results) then Err(NoCanonicalShape)
        else if CriterionWithIdentity(lex, d, kind, Some(subject)).Some? then Err(DifferentParameters)
        else
          var chosen := review.conflictOptions[optionIndex];
          var c := MintedCriterion(lex, d, kind, subject, chosen, chosen.level);
          if !CriterionOk(lex, c) then Err(InvalidCriterion)
          else Ok(WithCriterion(
            d.(needsReview := WithoutReview(d.needsReview, s),
               requirements := Scored(d.requirements, spans, chosen.modality, c.id),
               resolutions := d.resolutions + [Resolution(review.conflictSpans, review.conflictOptions, optionIndex)]),
            c))
  }

  function Acknowledged(items: seq<ReviewItem>, s: SpanId): (r: seq<ReviewItem>)
    ensures |r| == |items|
    ensures forall i :: 0 <= i < |r| ==> r[i] == if items[i].spanId == Some(s) then items[i].(excluded := true) else items[i]
  {
    Map((x: ReviewItem) => if x.spanId == Some(s) then x.(excluded := true) else x, items)
  }

  /** `exclude_blocking_review_requirement`. */
  function Exclude(d: Draft, s: SpanId): Result<Draft, EditError> {
    var matches := Filter(ItemOf(s), d.needsReview);
    if |matches| != 1 then Err(NotFound)
    else if !matches[0].blocking || matches[0].excluded then Err(NotAllowed)
    else Ok(d.(needsReview := Acknowledged(d.needsReview, s), decisions := WithDecision(d.decisions, s, ExcludedByReviewer)))
  }

  // ------------------------------------------------------------------ bounded follow-up amendments

  /** What the follow-up grammar reads in one HR message; the regular expressions are not modelled. */
  datatype Reading = Reading(
    isFollowup: bool, integers: seq<int>, hasResultNoun: bool,
    mentions: Criterion -> bool, requestedType: Option<Modality>,
    levels: seq<string>, numbers: seq<real>, contextOnly: bool)

  function Clamp(n: int): int {
    if n < 1 then 1 else if n > 100 then 100 else n
  }

  function SameFolded(a: string, b: string): bool {
    Upper(a) == Upper(b)
  }

  function WithLevel(level: string): Criterion -> bool {
    (c: Criterion) => c.kind == Language && SameFolded(if c.level.Some? then c.level.value else "", level)
  }

  function WithYears(years: real): Criterion -> bool {
    (c: Criterion) => c.kind in {SkillExperience, DomainExperience} && c.years == Some(years)
  }

  function OfOtherType(m: Modality): Criterion -> bool {
    (c: Criterion) => c.modality != m
  }

  /** Which criteria the message can mean, in the code's order of attempts. */
  function Targets(d: Draft, m: Reading): seq<Criterion> {
    var all := Criteria(d);
    var mentioned := Filter(m.mentions, all);
    var byValue :=
      if mentioned == [] && |m.levels| >= 2 then
        Filter(WithLevel(m.levels[0]), all)
      else if mentioned == [] && |m.numbers| >= 2 then
        Filter(WithYears(m.numbers[0]), all)
      else mentioned;
    if byValue == [] && m.requestedType.Some? && m.contextOnly then
      Filter(OfOtherType(m.requestedType.value), all)
    else byValue
  }

  datatype FieldChange = NewType(modality: Modality) | NewYears(years: real) | NewLevel(level: string)

  /** Which field of the one target the message changes, and to what. */
  function RequestedChange(target: Criterion, m: Reading): Option<FieldChange> {
    if target.kind == Language && |m.levels| >= 2 then
      if target.level.None? || !SameFolded(target.level.value, m.levels[0]) then None
      else Some(NewLevel(Upper(m.levels[|m.levels| - 1])))
    else if target.kind in {SkillExperience, DomainExperience} && |m.numbers| >= 2 && target.years == Some(m.numbers[0]) then
      Some(NewYears(m.numbers[|m.numbers| - 1]))
    else if m.requestedType.Some? && m.requestedType.value != target.modality then
      Some(NewType(m.requestedType.value))
    else None
  }

  function ApplyField(c: Criterion, f: FieldChange): Criterion {
    match f
    case NewType(t) => c.(modality := t)
    case NewYears(y) => c.(years := Some(y))
    case NewLevel(l) => c.(level := Some(l))
  }

  /** The encoded old and new values; nothing when the criterion has no such value. */
  function EncodedChange(c: Criterion, f: FieldChange): Option<Change> {
    match f
    case NewType(t) => Some(TypeChange(c.modality, t))
    case NewYears(y) =>
      if c.years.None? then None else Some(YearsChange(ToSixDigits(c.years.value), ToSixDigits(y)))
    case NewLevel(l) =>
      if c.level.None? then None else Some(LevelChange(UpperStrip(c.level.value), UpperStrip(l)))
  }

  function ReplaceCriterion(list: seq<Criterion>, c: Criterion): (r: seq<Criterion>)
    ensures |r| == |list|
    ensures forall i :: 0 <= i < |r| ==> r[i] == if list[i].id == c.id then c else list[i]
  {
    Map((x: Criterion) => if x.id == c.id then c else x, list)
  }

  function WithoutCriterion(list: seq<Criterion>, id: string): seq<Criterion> {
    Filter((x: Criterion) => x.id != id, list)
  }

  function Retyped(results: seq<SpanResult>, id: string, m: Modality): (r: seq<SpanResult>)
    ensures |r| == |results|
    ensures forall i :: 0 <= i < |r| ==> r[i] == if results[i].criterionId == Some(id) then results[i].(modality := Some(m)) else results[i]
  {
    Map((x: SpanResult) => if x.criterionId == Some(id) then x.(modality := Some(m)) else x, results)
  }

  /** `_amended_draft`: one field of one criterion, one numbered amendment, a fresh draft id. */
  function AmendedDraft(
      lex: Lexicon, d: Draft, target: Criterion, span: SpanId, f: FieldChange, freshId: nat): Option<Draft>
  {
    var change := EncodedChange(target, f);
    var replacement := ApplyField(target, f);
    if change.None? || !CriterionOk(lex, replacement) || !ChangeOk(change.value) then None
    else
      var amended := d.(
        draftId := freshId,
        amendments := d.amendments + [Amendment(|d.amendments| + 1, target.id, span, change.value)]);
      if f.NewType? then
        var must := WithoutCriterion(d.mustHave, target.id);
        var pref := WithoutCriterion(d.preferred, target.id);
        Some(amended.(
          mustHave := if f.modality == MustHave then must + [replacement] else must,
          preferred := if f.modality == MustHave then pref else pref + [replacement],
          requirements := Retyped(d.requirements, target.id, f.modality)))
      else
        Some(amended.(
          mustHave := ReplaceCriterion(d.mustHave, replacement),
          preferred := ReplaceCriterion(d.preferred, replacement)))
  }

  function Naming(id: string): SpanResult -> bool {
    (r: SpanResult) => r.criterionId == Some(id)
  }

  /** `_apply_pending_draft_followup`. */
  function FollowUp(lex: Lexicon, d: Draft, m: Reading, freshId: nat): Option<Draft> {
    if !m.isFollowup then None
    else if |m.integers| >= 2 && m.hasResultNoun then
      if m.integers[0] != d.resultLimit then None
      else Some(d.(draftId := freshId, resultLimit := Clamp(m.integers[|m.integers| - 1])))
    else
      var targets := Targets(d, m);
      if |targets| != 1 then None
      else
        var target := targets[0];
        var spans := Filter(Naming(target.id), d.requirements);
        if spans == [] then None
        else
          var f := RequestedChange(target, m);
          if f.None? then None else AmendedDraft(lex, d, target, spans[0].spanId, f.value, freshId)
  }

  // ------------------------------------------------------------------ runs

  datatype Edit =
    | ModalityClick(span: SpanId, modality: Modality)
    | ConflictChoice(span: SpanId, option: int)
    | ExcludeClick(span: SpanId)
    | Message(reading: Reading, freshId: nat)

  /** A refused edit leaves the draft alone. */
  ghost function Apply(lex: Lexicon, d: Draft, e: Edit): Draft {
    match e
    case ModalityClick(s, m) => var r := ResolveModality(lex, d, s, m); if r.Ok? then r.value else d
    case ConflictChoice(s, k) => var r := ResolveConflict(lex, d, s, k); if r.Ok? then r.value else d
    case ExcludeClick(s) => var r := Exclude(d, s); if r.Ok? then r.value else d
    case Message(m, id) => var r := FollowUp(lex, d, m, id); if r.Some? then r.value else d
  }

  ghost function Run(lex: Lexicon, d: Draft, edits: seq<Edit>): Draft {
    if edits == [] then d else Apply(lex, Run(lex, d, edits[..|edits| - 1]), edits[|edits| - 1])
  }
}
