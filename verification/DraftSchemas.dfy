/**
 The data of a vacancy draft (`agent/schemas.py`, `schemas/criteria.py`) and the vocabulary it is
 read with.

 A span id `req-0001` is represented by the position it numbers: span `s` is the s-th source unit.
 */
module DraftSchemas {
  import opened Wrappers
  import opened Sequences
  import opened CoreText
  import opened YearValues

  const MAX_SPANS := 64
  const MAX_OPTIONS := 16
  const MAX_AMENDMENTS := 256
  const MAX_TEXT := 4000

  type SpanId = nat

  datatype Kind =
    | Skill | Experience | Certification | Education | Language
    | SkillExperience | DomainExperience | Other

  datatype Modality = MustHave | Preferred

  datatype SpanState = Scorable | NeedsReview | Unsupported | Prohibited

  datatype ReviewReason =
    | SubjectNotCanonical | RecruitmentSubjectWithoutCue | ModalityUnknown
    | CoordinationSymmetry | SemanticConflict | OtherPolicy

  datatype InterpretationSource = Deterministic | ModelValidated

  /** One source span with its deterministic reading (`RequirementSpan` + `SemanticRequirement`). */
  datatype SourceUnit = SourceUnit(
    start: nat, end: nat, text: string, group: Option<nat>,
    family: Option<Kind>, subject: Option<string>, subjectText: Option<string>,
    modality: Option<Modality>, years: Option<real>, level: Option<string>,
    state: SpanState, reason: Option<ReviewReason>)

  /** The parameters two mentions of one requirement must agree on (`SemanticParameters`). */
  datatype Params = Params(modality: Modality, years: Option<real>, level: Option<string>)

  datatype Criterion = Criterion(
    id: string, kind: Kind, modality: Modality, name: string, value: Option<string>,
    years: Option<real>, level: Option<string>)

  /** A model's proposal for one span (`JDDraftCriterionItem`). */
  datatype Proposal = Proposal(spanId: SpanId, kind: Kind, requirement: string, years: Option<real>, level: Option<string>)

  /**
   The vocabulary and the regular expressions, as uninterpreted functions. Nothing below depends on
   their contents; where a result needs a law about them it is a named hypothesis.
   */
  datatype Lexicon = Lexicon(
    prohibited: string -> bool,
    canonicalTerm: (Kind, string) -> bool,
    normalizeSubject: (Kind, string) -> string,
    groundedIn: (Kind, string, string) -> bool,
    canonicalDisplay: (Kind, string) -> string,
    domainDisplay: string -> string,
    subjectKey: string -> string,
    cefrOrSameLevel: (string, Option<string>) -> bool,
    scopeQualified: string -> bool,
    nonProfessional: string -> bool,
    criterionSubjectOk: (Kind, string, Option<string>) -> bool,
    foldedLabel: string -> string,
    sha256: string -> string,
    analyze: string -> seq<SourceUnit>)

  // ------------------------------------------------------------------ shared small functions

  /** `_normalized_level`. */
  function NormalizedLevel(level: Option<string>): Option<string> {
    if level.Some? && level.value != "" then Some(UpperStrip(level.value)) else None
  }

  /** `semantic_parameters`. */
  function SemanticParameters(modality: Modality, years: Option<real>, level: Option<string>): Params {
    Params(modality, years, NormalizedLevel(level))
  }

  function ParamsOf(c: Criterion): Params {
    SemanticParameters(c.modality, c.years, c.level)
  }

  /** `semantic_identity`: the kind and the normalized subject; unscoped experience has no subject. */
  function Identity(lex: Lexicon, kind: Kind, subject: Option<string>): (Kind, string) {
    (kind,
     if kind == Experience then ""
     else lex.normalizeSubject(kind, if subject.Some? then subject.value else ""))
  }

  function CriterionIdentity(lex: Lexicon, c: Criterion): (Kind, string) {
    Identity(lex, c.kind, c.value)
  }

  /** `is_canonical_subject`. */
  predicate IsCanonicalSubject(lex: Lexicon, kind: Kind, subject: Option<string>) {
    kind == Experience || (subject.Some? && lex.canonicalTerm(kind, subject.value))
  }

  /** `find_prohibited_term`, which skips empty texts. */
  predicate Prohibits(lex: Lexicon, text: string) {
    text != "" && lex.prohibited(text)
  }

  predicate HasText(value: Option<string>) {
    value.Some? && value.value != ""
  }

  /** The kind-specific shape rules of `CriterionIn`; the subject's wording is the vocabulary's business. */
  predicate CriterionOk(lex: Lexicon, c: Criterion) {
    && c.kind != Other
    && (c.years.Some? ==> IsYears(c.years.value))
    && (match c.kind
        case Experience => c.years.Some? && c.value.None?
        case SkillExperience => HasText(c.value) && c.years.Some?
        case _ => HasText(c.value))
    && (c.level.Some? ==> c.kind == Language)
    && (c.years.Some? ==> c.kind in {Experience, SkillExperience, DomainExperience})
    && lex.criterionSubjectOk(c.kind, c.name, c.value)
  }

  // ------------------------------------------------------------------ the draft

  /** `RequirementSpanResult`. */
  datatype SpanResult = SpanResult(
    spanId: SpanId, start: nat, end: nat, text: Option<string>, state: SpanState,
    modality: Option<Modality>, criterionId: Option<string>, source: Option<InterpretationSource>)

  /** `NeedsReviewJDCriterionItem`. */
  datatype ReviewItem = ReviewItem(
    requirement: string, modality: Option<Modality>, spanId: Option<SpanId>,
    kind: Option<Kind>, subject: Option<string>, years: Option<real>, level: Option<string>,
    allowed: seq<Modality>, blocking: bool, excluded: bool,
    conflictSpans: seq<SpanId>, conflictOptions: seq<Params>)

  datatype Verdict = ChoseMustHave | ChosePreferred | ExcludedByReviewer

  datatype Decision = Decision(spanId: SpanId, verdict: Verdict)

  datatype Resolution = Resolution(spans: seq<SpanId>, options: seq<Params>, chosenIndex: nat)

  /** One amended field with its encoded old and new values. */
  datatype Change =
    | TypeChange(oldType: Modality, newType: Modality)
    | YearsChange(oldYears: real, newYears: real)
    | LevelChange(oldLevel: string, newLevel: string)

  datatype Amendment = Amendment(sequence: nat, criterionId: string, spanId: SpanId, change: Change)

  datatype Draft = Draft(
    draftId: nat, resultLimit: int,
    mustHave: seq<Criterion>, preferred: seq<Criterion>,
    unsupported: seq<(string, Modality)>, needsReview: seq<ReviewItem>, prohibitedCount: nat,
    requirements: seq<SpanResult>,
    decisions: seq<Decision>, resolutions: seq<Resolution>, amendments: seq<Amendment>,
    policyVersion: string, sourceDigest: Option<string>, sourceText: Option<string>,
    model: Option<string>)

  function Criteria(d: Draft): seq<Criterion> {
    d.mustHave + d.preferred
  }

  function Ids(d: Draft): set<string> {
    set c | c in Criteria(d) :: c.id
  }

  function VerdictOf(m: Modality): Verdict {
    match m
    case MustHave => ChoseMustHave
    case Preferred => ChosePreferred
  }

  predicate ResolutionOk(r: Resolution) {
    && 2 <= |r.spans| <= MAX_SPANS
    && 2 <= |r.options| <= MAX_OPTIONS
    && r.chosenIndex < |r.options|
    && (forall i, j :: 0 <= i < j < |r.spans| ==> r.spans[i] != r.spans[j])
    && (forall i, j :: 0 <= i < j < |r.options| ==> r.options[i] != r.options[j])
  }

  function Chosen(r: Resolution): Params
    requires ResolutionOk(r)
  {
    r.options[r.chosenIndex]
  }

  /** An amended year value is canonical `:g` text matching `\d{1,2}(\.\d+)?` and at most 60. */
  predicate YearsTextOk(y: real) {
    IsYears(y) && WrittenWithoutExponent(y) && ToSixDigits(y) == y
  }

  /** `^[A-Z][A-Z0-9 -]{0,49}$`. */
  predicate LevelTextOk(s: string) {
    && 1 <= |s| <= 50
    && 'A' <= s[0] <= 'Z'
    && forall i :: 0 <= i < |s| ==> 'A' <= s[i] <= 'Z' || '0' <= s[i] <= '9' || s[i] == ' ' || s[i] == '-'
  }

  predicate ChangeOk(change: Change) {
    match change
    case TypeChange(old_, new_) => old_ != new_
    case YearsChange(old_, new_) => old_ != new_ && YearsTextOk(old_) && YearsTextOk(new_)
    case LevelChange(old_, new_) => old_ != new_ && LevelTextOk(old_) && LevelTextOk(new_)
  }

  /** The validator of `SemanticCriterionAmendment`. */
  predicate AmendmentOk(a: Amendment) {
    a.sequence >= 1 && ChangeOk(a.change)
  }
}
