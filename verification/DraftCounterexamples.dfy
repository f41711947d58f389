/** Concrete sessions at the edge of what the confirmation boundary accepts. */
module DraftCounterexamples {
  import opened Wrappers
  import opened Sequences
  import opened CoreText
  import opened YearValues
  import opened DraftSchemas
  import opened SemanticProvenance
  import opened DraftEditing
  import opened DraftInvariant
  import opened CanonicalRequirements
  import opened DraftBuilding
  import opened DraftBuilt
  import opened VacancyDraft
  import opened ExampleSources

  // ------------------------------------------------------------------ one skill, mentioned twice

  /** A required skill, and a second mention of it without a modality. */
  function Mentions(a: string): seq<Sentence> {
    [Sentence(None, Skill, Some(a), Some(MustHave), None), Sentence(None, Skill, Some(a), None, None)]
  }

  function MentionUnits(texts: seq<string>, a: string): (r: seq<SourceUnit>)
    requires |texts| == 2
    ensures |r| == 2 && forall i :: 0 <= i < 2 ==> r[i] == UnitFor(At(texts, Stop(), i), texts[i], Mentions(a)[i])
  {
    Units(texts, Stop(), Mentions(a))
  }

  /** A vocabulary that knows the skill `a`, finds it in both sentences, and reads their text as those two. */
  ghost predicate Knows(lex: Lexicon, texts: seq<string>, a: string) {
    && VocabularyOk(lex) && |texts| == 2 && AllPlain(lex, texts, Mentions(a)) && lex.criterionSubjectOk(Skill, a, Some(a))
    && |texts[1]| <= MAX_REVIEW_TEXT && lex.groundedIn(Skill, a, texts[1]) && !lex.nonProfessional(texts[1])
    && lex.analyze(Joined(texts, Stop())) == MentionUnits(texts, a)
  }

  function Blank(lex: Lexicon, text: string): Draft {
    BlankDraft(0, 10, "v2", Some(lex.sha256(text)), Some(text), None)
  }

  function Skilled(a: string, id: string, m: Modality): Criterion {
    Criterion(id, Skill, m, a, Some(a), None, None)
  }

  /** The draft the two sentences become; `id` is the criterion's. */
  function TwoMentions(blank: Draft, units: seq<SourceUnit>, a: string, id: string): Draft
    requires |units| == 2
  {
    blank.(
      mustHave := [Skilled(a, id, MustHave)],
      needsReview := [ReviewItem(units[1].text, None, Some(1), Some(Skill), Some(a), None, None, [MustHave, Preferred], false, false, [], [])],
      requirements := [
        SpanResult(0, units[0].start, units[0].end, Some(units[0].text), Scorable, Some(MustHave), Some(id), Some(Deterministic)),
        SpanResult(1, units[1].start, units[1].end, Some(units[1].text), NeedsReview, None, None, Some(Deterministic))])
  }

  /** Building the two sentences gives that draft. */
  lemma {:induction false} MentionsAreBuilt(lex: Lexicon, texts: seq<string>, a: string) returns (d: Draft, id: string)
    requires Knows(lex, texts, a)
    ensures var text := Joined(texts, Stop());
      && SlicedFrom(text, MentionUnits(texts, a)) && BuiltFrom(lex, text, [], Blank(lex, text), d)
      && d == TwoMentions(Blank(lex, text), MentionUnits(texts, a), a, id)
  {
    var text, units := Joined(texts, Stop()), MentionUnits(texts, a);
    var blank := Blank(lex, text);
    id := Slug(SlugBase(lex.foldedLabel(a)), {});
    d := TwoMentions(blank, units, a, id);
    LaidOut(lex, texts, Stop(), Mentions(a));
    AllAreRead(lex, texts, Stop(), Mentions(a));
    assert Plain(lex, texts[0], Mentions(a)[0]);
    hide AllPlain, Joined, At, SlicedFrom, SourceOk, Plain, VocabularyOk, Slug, SlugBase, MentionUnits;
    MentionsAreCanonical(lex, units, a);
    MentionsBuild(lex, units, a, blank, id);
  }

  lemma {:induction false} MentionsAreCanonical(lex: Lexicon, units: seq<SourceUnit>, a: string)
    requires ReadsAll(lex, units, Mentions(a)) && units[0].group.None? && units[1].group.None?
    ensures Canonicalize(lex, units, []) == [Read(0, Mentions(a)[0]), Read(1, Mentions(a)[1])]
  {
    var start := PerSpan(lex, units, []);
    hide PerSpan;
    NoClauses(units, start);
    assert start == [Read(0, Mentions(a)[0]), Read(1, Mentions(a)[1])];
    assert !InConflict(lex, start, 0) && !InConflict(lex, start, 1);
  }

  lemma {:induction false} MentionsBuild(lex: Lexicon, units: seq<SourceUnit>, a: string, blank: Draft, id: string)
    requires |units| == 2 && IsBlank(blank) && a != "" && id == Slug(SlugBase(lex.foldedLabel(a)), {})
    requires lex.criterionSubjectOk(Skill, a, Some(a)) && |units[1].text| <= MAX_REVIEW_TEXT
    ensures Build(lex, units, [Read(0, Mentions(a)[0]), Read(1, Mentions(a)[1])], blank) == Ok(TwoMentions(blank, units, a, id))
  {
    var canonical := [Read(0, Mentions(a)[0]), Read(1, Mentions(a)[1])];
    var start := Building(blank, {}, map[]);
    FirstIsScored(lex, canonical[0], units[0], a, start, id);
    var scored := StepScored(start, canonical[0], units[0], 0, Skilled(a, id, MustHave), IdentityOf(lex, canonical[0]), true);
    SecondIsAside(scored, canonical[1], units[1], a);
    var aside := StepAside(scored, canonical[1], units[1], 1, NeedsReview, true);
    assert aside.Ok? && aside.value.d == TwoMentions(blank, units, a, id) by { ScoredIs(blank, units, canonical[0], a, id, IdentityOf(lex, canonical[0])); }
    hide Slug, SlugBase, StepScorable, StepAside, StepScored, TwoMentions, StepConflict;
    assert BuildStep(lex, units, canonical, start, 0) == Ok(scored);
    assert BuildStep(lex, units, canonical, scored, 1) == aside;
    LoopOfTwo(lex, units, canonical, blank, scored, aside.value);
  }

  lemma {:induction false} LoopOfTwo(
      lex: Lexicon, units: seq<SourceUnit>, canonical: seq<Canonical>, blank: Draft, first: Building, second: Building)
    requires |units| == |canonical| == 2
    requires BuildStep(lex, units, canonical, Building(blank, {}, map[]), 0) == Ok(first)
    requires BuildStep(lex, units, canonical, first, 1) == Ok(second)
    ensures Build(lex, units, canonical, blank) == Ok(second.d)
  {
    hide BuildStep;
    assert BuildTo(lex, units, canonical, blank, 0) == Ok(Building(blank, {}, map[]));
    assert BuildTo(lex, units, canonical, blank, 1) == Ok(first);
  }

  function ScoredFirst(blank: Draft, units: seq<SourceUnit>, a: string, id: string): Draft
    requires |units| == 2
  {
    blank.(
      mustHave := [Skilled(a, id, MustHave)],
      requirements := [SpanResult(0, units[0].start, units[0].end, Some(units[0].text), Scorable, Some(MustHave), Some(id), Some(Deterministic))])
  }

  lemma {:induction false} ScoredIs(
      blank: Draft, units: seq<SourceUnit>, c: Canonical, a: string, id: string, key: RequirementKey)
    requires |units| == 2 && IsBlank(blank) && c == Read(0, Mentions(a)[0])
    ensures StepScored(Building(blank, {}, map[]), c, units[0], 0, Skilled(a, id, MustHave), key, true).d == ScoredFirst(blank, units, a, id)
  {
  }

  lemma {:induction false} FirstIsScored(lex: Lexicon, c: Canonical, u: SourceUnit, a: string, b: Building, id: string)
    requires c == Read(0, Mentions(a)[0]) && a != "" && b.used == {} && b.byKey == map[] && id == Slug(SlugBase(lex.foldedLabel(a)), {})
    requires lex.criterionSubjectOk(Skill, a, Some(a))
    ensures StepScorable(lex, b, c, u, 0) == Ok(StepScored(b, c, u, 0, Skilled(a, id, MustHave), IdentityOf(lex, c), true))
  {
    hide Slug, SlugBase, StepScored;
    assert Materialized(lex, c, u, {}) == Skilled(a, id, MustHave);
    assert CriterionOk(lex, Skilled(a, id, MustHave));
    hide CriterionOk, Materialized;
  }

  lemma {:induction false} SecondIsAside(b: Building, c: Canonical, u: SourceUnit, a: string)
    requires c == Read(1, Mentions(a)[1]) && a != "" && |u.text| <= MAX_REVIEW_TEXT
    ensures StepAside(b, c, u, 1, NeedsReview, true) == Ok(b.(d := b.d.(
      needsReview := b.d.needsReview + [ReviewItem(u.text, None, Some(1), Some(Skill), Some(a), None, None, [MustHave, Preferred], false, false, [], [])],
      requirements := b.d.requirements + [SpanResult(1, u.start, u.end, Some(u.text), NeedsReview, None, None, Some(Deterministic))])))
  {
  }

  // ------------------------------------------------------------------ amend, then merge

  /** "Make it preferred", said about every criterion there is. */
  function MakePreferred(): Reading {
    Reading(true, [], false, (c: Criterion) => true, Some(Preferred), [], [], false)
  }

  lemma {:induction false} FirstAmended(lex: Lexicon, blank: Draft, units: seq<SourceUnit>, a: string, id: string)
    requires |units| == 2 && IsBlank(blank) && a != "" && lex.criterionSubjectOk(Skill, a, Some(a))
    ensures var d := TwoMentions(blank, units, a, id);
      FollowUp(lex, d, MakePreferred(), 1) == Some(d.(
        draftId := 1, mustHave := [], preferred := [Skilled(a, id, Preferred)],
        requirements := [d.requirements[0].(modality := Some(Preferred)), d.requirements[1]],
        amendments := [Amendment(1, id, 0, TypeChange(MustHave, Preferred))]))
  {
    var d := TwoMentions(blank, units, a, id);
    var c0 := Skilled(a, id, MustHave);
    var m := MakePreferred();
    assert Criteria(d) == [c0];
    FilterSingleton(m.mentions, [c0], 0);
    assert Targets(d, m) == [c0];
    FilterSingleton(Naming(c0.id), d.requirements, 0);
    assert RequestedChange(c0, m) == Some(NewType(Preferred));
    assert EncodedChange(c0, NewType(Preferred)) == Some(TypeChange(MustHave, Preferred));
    assert CriterionOk(lex, ApplyField(c0, NewType(Preferred)));
    assert WithoutCriterion(d.mustHave, id) == [] by { FilterNone((x: Criterion) => x.id != id, d.mustHave); }
    assert WithoutCriterion(d.preferred, id) == [];
    assert Retyped(d.requirements, id, Preferred) == [d.requirements[0].(modality := Some(Preferred)), d.requirements[1]];
    hide Targets, RequestedChange, WithoutCriterion, Retyped, CriterionOk, EncodedChange;
    assert AmendedDraft(lex, d, c0, 0, NewType(Preferred), 1).Some?;
    var e := AmendedDraft(lex, d, c0, 0, NewType(Preferred), 1).value;
    assert FollowUp(lex, d, m, 1) == Some(e);
    assert e.mustHave == [] && e.preferred == [ApplyField(c0, NewType(Preferred))];
    assert e.amendments == [Amendment(1, id, 0, TypeChange(MustHave, Preferred))];
  }

  /** What the first amendment leaves for the second edit to meet. */
  ghost predicate Amended(d: Draft, a: string, id: string, t: string) {
    && d.mustHave == [] && d.preferred == [Skilled(a, id, Preferred)] && d.decisions == [] && d.resolutions == [] && |d.amendments| == 1
    && |d.needsReview| == 1
    && d.needsReview[0] == ReviewItem(t, None, Some(1), Some(Skill), Some(a), None, None, [MustHave, Preferred], false, false, [], [])
    && |d.requirements| == 2 && d.requirements[0].spanId == 0 && d.requirements[1].spanId == 1
    && d.requirements[0].state == Scorable && d.requirements[0].criterionId == Some(id)
    && d.requirements[1].state == NeedsReview && d.requirements[1].text == Some(t)
  }

  /** The second mention then merges into the amended criterion, as the editor allows. */
  lemma {:induction false} ThenMerged(lex: Lexicon, d: Draft, a: string, id: string, t: string)
    requires Amended(d, a, id, t) && a != "" && !Prohibits(lex, t) && !Prohibits(lex, a) && lex.canonicalTerm(Skill, a)
    requires lex.groundedIn(Skill, a, t) && !lex.nonProfessional(t)
    ensures ResolveModality(lex, d, 1, Preferred) == Ok(d.(
      needsReview := [], decisions := [Decision(1, ChosePreferred)], requirements := Scored(d.requirements, {1}, Preferred, id)))
  {
    FilterSingleton(ItemOf(1), d.needsReview, 0);
    FilterSingleton(ResultOf(1), d.requirements, 1);
    assert Criteria(d) == [Skilled(a, id, Preferred)];
    FilterSingleton((x: Criterion) => CriterionIdentity(lex, x) == Identity(lex, Skill, Some(a)), Criteria(d), 0);
    assert CriterionWithIdentity(lex, d, Skill, Some(a)) == Some(Skilled(a, id, Preferred));
    assert WithoutReview(d.needsReview, 1) == [] by { FilterNone((x: ReviewItem) => x.spanId != Some(1), d.needsReview); }
    assert WithDecision(d.decisions, 1, ChosePreferred) == [Decision(1, ChosePreferred)];
  }

  /**
   Amend before merge. Both edits are accepted, yet the boundary refuses their result: the first mention
   still contributes a required skill and the second a preferred one.
   */
  lemma {:induction false} AmendThenMergeIsRefused(lex: Lexicon, texts: seq<string>, a: string) returns (d: Draft)
    requires Knows(lex, texts, a)
    ensures var text := Joined(texts, Stop());
      SlicedFrom(text, lex.analyze(text)) && BuiltFrom(lex, text, [], Blank(lex, text), d)
    ensures var e := Run(lex, d, [Message(MakePreferred(), 1), ModalityClick(1, Preferred)]);
      && |e.amendments| == 1 && |e.decisions| == 1 && e.needsReview == []
      && WellTyped(e) && !Provable(lex, e, Criteria(e))
  {
    var id;
    d, id := MentionsAreBuilt(lex, texts, a);
    MentionsEdited(lex, texts, a, d, id);
    hide Run, Knows, TwoMentions, Provable, WellTyped, BuiltFrom, Joined, MentionUnits, SlicedFrom;
    StaysWellTyped(lex, texts, a, d, [Message(MakePreferred(), 1), ModalityClick(1, Preferred)]);
  }

  lemma {:induction false} MentionsEdited(lex: Lexicon, texts: seq<string>, a: string, d: Draft, id: string)
    requires Knows(lex, texts, a) && d == TwoMentions(Blank(lex, Joined(texts, Stop())), MentionUnits(texts, a), a, id)
    ensures var e := Run(lex, d, [Message(MakePreferred(), 1), ModalityClick(1, Preferred)]);
      && |e.amendments| == 1 && |e.decisions| == 1 && e.needsReview == []
      && (WellTyped(e) ==> !Provable(lex, e, Criteria(e)))
  {
    var d1, e := AmendedThenMerged(lex, texts, a, d, id);
    hide *;
    AcceptedEdits(lex, d, d1, e, MakePreferred(), 1, Preferred);
  }

  lemma {:induction false} AcceptedEdits(
      lex: Lexicon, d: Draft, d1: Draft, e: Draft, m: Reading, s: SpanId, type_: Modality)
    requires FollowUp(lex, d, m, 1) == Some(d1) && ResolveModality(lex, d1, s, type_) == Ok(e)
    ensures Run(lex, d, [Message(m, 1), ModalityClick(s, type_)]) == e
  {
    hide FollowUp, ResolveModality, Run;
    TwoEdits(lex, d, Message(m, 1), ModalityClick(s, type_));
  }

  lemma {:induction false} AmendedThenMerged(lex: Lexicon, texts: seq<string>, a: string, d: Draft, id: string)
      returns (d1: Draft, e: Draft)
    requires Knows(lex, texts, a) && d == TwoMentions(Blank(lex, Joined(texts, Stop())), MentionUnits(texts, a), a, id)
    ensures FollowUp(lex, d, MakePreferred(), 1) == Some(d1) && ResolveModality(lex, d1, 1, Preferred) == Ok(e)
    ensures |e.amendments| == 1 && |e.decisions| == 1 && e.needsReview == []
    ensures WellTyped(e) ==> !Provable(lex, e, Criteria(e))
  {
    var text, units := Joined(texts, Stop()), MentionUnits(texts, a);
    assert Plain(lex, texts[1], Mentions(a)[1]);
    hide MentionUnits, Joined, VocabularyOk, AllPlain;
    FirstAmended(lex, Blank(lex, text), units, a, id);
    hide FollowUp;
    d1 := FollowUp(lex, d, MakePreferred(), 1).value;
    ThenMerged(lex, d1, a, id, texts[1]);
    hide ResolveModality;
    e := ResolveModality(lex, d1, 1, Preferred).value;
    EvidenceDisagrees(lex, units, a, id, e);
    hide Knows, TwoMentions, Scored, Provable, WellTyped;
  }

  lemma {:induction false} StaysWellTyped(lex: Lexicon, texts: seq<string>, a: string, d: Draft, edits: seq<Edit>)
    requires Knows(lex, texts, a) && BuiltFrom(lex, Joined(texts, Stop()), [], Blank(lex, Joined(texts, Stop())), d)
    ensures WellTyped(Run(lex, d, edits))
  {
    hide BuiltFrom, Run, WellTyped, Provable;
    EditedVacancyAcceptedIff(lex, Joined(texts, Stop()), [], Blank(lex, Joined(texts, Stop())), d, edits);
  }

  lemma {:induction false} TwoEdits(lex: Lexicon, d: Draft, first: Edit, second: Edit)
    ensures Run(lex, d, [first, second]) == Apply(lex, Apply(lex, d, first), second)
  {
    hide Apply;
    var edits := [first, second];
    assert edits[..1] == [first] && [first][..0] == [];
    assert Run(lex, d, []) == d && Run(lex, d, [first]) == Apply(lex, d, first);
  }

  lemma {:induction false} EvidenceDisagrees(lex: Lexicon, units: seq<SourceUnit>, a: string, id: string, e: Draft)
    requires e.sourceText.Some? && lex.analyze(e.sourceText.value) == units && |units| == 2
    requires units[0].modality == Some(MustHave) && units[0].years.None? && units[0].level.None?
    requires units[1].modality.None? && units[1].years.None? && units[1].level.None?
    requires e.preferred == [Skilled(a, id, Preferred)] && e.mustHave == []
    requires e.decisions == [Decision(1, ChosePreferred)] && e.resolutions == []
    requires |e.requirements| == 2 && e.requirements[0].spanId == 0 && e.requirements[1].spanId == 1
    requires forall i :: 0 <= i < 2 ==> e.requirements[i].state == Scorable && e.requirements[i].criterionId == Some(id)
    ensures WellTyped(e) ==> !Provable(lex, e, Criteria(e))
  {
    var c := e.preferred[0];
    assert Criteria(e) == [c] && c in Criteria(e);
    assert e.requirements[0] in Supporting(e, id) && e.requirements[1] in Supporting(e, id);
    DecisionForAt(e.decisions, 0);
    assert SpanOrigin(units, e, 0) == Some(Params(MustHave, None, None));
    assert SpanOrigin(units, e, 1) == Some(Params(Preferred, None, None));
    assert !CriterionProvable(lex, units, e, c);
  }

  /** A small vocabulary that takes every word for a term and reads every text as the same units. */
  function Accepting(units: seq<SourceUnit>): Lexicon {
    Lexicon(
      (s: string) => false, (k: Kind, s: string) => s != "", (k: Kind, s: string) => s, (k: Kind, s: string, t: string) => true,
      (k: Kind, s: string) => s, (s: string) => s, (s: string) => s, (s: string, l: Option<string>) => true, (s: string) => false,
      (s: string) => false, (k: Kind, n: string, v: Option<string>) => true, (s: string) => s, (s: string) => s, (s: string) => units)
  }

  /** "Kotlin is required. Knows Kotlin." is such a text. */
  lemma {:induction false} KotlinTwice() returns (lex: Lexicon, texts: seq<string>)
    ensures Knows(lex, texts, "Kotlin") && Joined(texts, Stop()) == "Kotlin is required. Knows Kotlin. "
  {
    texts := ["Kotlin is required", "Knows Kotlin"];
    lex := Accepting(MentionUnits(texts, "Kotlin"));
    hide MentionUnits;
    assert texts[..1] == ["Kotlin is required"] && texts[..1][..0] == [];
    assert Joined([], Stop()) == "" && Joined(texts[..1], Stop()) == "Kotlin is required. ";
    assert Plain(lex, texts[0], Mentions("Kotlin")[0]) && Plain(lex, texts[1], Mentions("Kotlin")[1]);
  }

  /** Six significant digits: a seven-digit amount of years does not survive being written down. */
  lemma {:induction false} SevenDigitsAreLost()
    ensures IsYears(2.1234567) && ToSixDigits(2.1234567) == 2.12346 && !HasSixDigits(2.1234567)
  {
    assert 2.1234567 * Scale(2.1234567) == 212345.67;
    assert RoundHalfEven(212345.67) == 212346;
  }
}
