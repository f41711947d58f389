/** Built drafts in which each kind of choice is taken: a contradiction decided, a type given, a requirement set aside. */
module ChoiceExamples {
  import opened Wrappers
  import opened Sequences
  import opened CoreText
  import opened YearValues
  import opened DraftSchemas
  import opened SemanticProvenance
  import opened DraftEditing
  import opened DraftInvariant
  import opened DraftPreservation
  import opened DraftLifecycle
  import opened CanonicalRequirements
  import opened DraftBuilding
  import opened DraftBuilt
  import opened BuildOutcome
  import opened VacancyDraft
  import opened ReviewItems
  import Choices = DraftChoices
  import Review = ReviewCompletion
  import opened ExampleSources
  import opened DraftCounterexamples

  lemma {:induction false} FirstIsIn<T>(s: seq<T>)
    ensures s == [] || exists x :: x in s
  {
    if s != [] {
      assert s[0] in s;
    }
  }

  /** Every criterion has a scored span, so without one there are no criteria. */
  lemma {:induction false} NothingScored(lex: Lexicon, units: seq<SourceUnit>, d: Draft, minted: map<string, Params>)
    requires Inv(lex, units, d, minted) && forall i: nat :: i < |d.requirements| ==> d.requirements[i].state != Scorable
    ensures Criteria(d) == []
  {
    hide SpansAligned, CriteriaDistinct, SpansScored, DecisionsOk, ResolutionsOk, ReviewsOk, AmendmentsOk, ChainReaches,
         SpanOrigin;
    FirstIsIn(Criteria(d));
  }

  // ------------------------------------------------------------------ a contradiction, decided

  /** The same skill required twice, once for three years and once for five. */
  function ThreeAndFive(a: string): seq<Sentence> {
    [Sentence(None, SkillExperience, Some(a), Some(MustHave), Some(3.0)), Sentence(None, SkillExperience, Some(a), Some(MustHave), Some(5.0))]
  }

  function AmountUnits(texts: seq<string>, a: string): (r: seq<SourceUnit>)
    requires |texts| == 2
    ensures |r| == 2 && forall i :: 0 <= i < 2 ==> r[i] == UnitFor(At(texts, Stop(), i), texts[i], ThreeAndFive(a)[i])
  {
    Units(texts, Stop(), ThreeAndFive(a))
  }

  /** Both units require the skill, the first for three years and the second for five. */
  predicate StatesAmounts(units: seq<SourceUnit>) {
    && |units| == 2
    && (forall i :: 0 <= i < 2 ==>
          units[i].modality == Some(MustHave) && units[i].level.None? && units[i].family == Some(SkillExperience))
    && units[0].years == Some(3.0) && units[1].years == Some(5.0)
  }

  /** A vocabulary that knows the skill, finds it in both sentences, and reads their text as those two. */
  ghost predicate KnowsAmounts(lex: Lexicon, texts: seq<string>, a: string) {
    && VocabularyOk(lex) && |texts| == 2 && AllPlain(lex, texts, ThreeAndFive(a))
    && lex.criterionSubjectOk(SkillExperience, a, Some(a))
    && (forall t :: t in texts ==> lex.groundedIn(SkillExperience, a, t))
    && lex.analyze(Joined(texts, Stop())) == AmountUnits(texts, a)
  }

  /** The canonical reading: both sentences in one conflict. */
  ghost predicate BothInConflict(r: seq<Canonical>, a: string) {
    |r| == 2 && LeadsConflict(r, 0) && forall i :: 0 <= i < 2 ==> ExampleSources.Joins(r, ThreeAndFive(a), i)
  }

  lemma {:induction false} AmountsConflict(lex: Lexicon, texts: seq<string>, a: string)
    requires KnowsAmounts(lex, texts, a)
    ensures var units := AmountUnits(texts, a);
      && SlicedFrom(Joined(texts, Stop()), units) && SourceOk(units) && StatesAmounts(units)
      && BothInConflict(Canonicalize(lex, units, []), a)
  {
    assert StatesAmounts(AmountUnits(texts, a));
    hide StatesAmounts, AllPlain, Joined, At, SlicedFrom, SourceOk, PerSpan, ReadsAll, VocabularyOk, Canonicalize,
         LeadsConflict, ExampleSources.Joins;
    LaidOut(lex, texts, Stop(), ThreeAndFive(a));
    AllAreRead(lex, texts, Stop(), ThreeAndFive(a));
    RivalsConflict(lex, AmountUnits(texts, a), ThreeAndFive(a));
  }

  lemma {:induction false} ConflictBuilds(lex: Lexicon, units: seq<SourceUnit>, canonical: seq<Canonical>, a: string)
    requires |units| == |canonical| && BothInConflict(canonical, a)
    ensures forall i :: 0 <= i < |units| && LeadsConflict(canonical, i) ==>
      canonical[i].subject.Some? && |Alternatives(canonical, i)| <= MAX_OPTIONS
    ensures forall i :: 0 <= i < |units| ==> !PutAside(lex, units, canonical, i)
  {
    hide LeadsConflict, ParametersOf;
    assert ExampleSources.Joins(canonical, ThreeAndFive(a), 0) && ExampleSources.Joins(canonical, ThreeAndFive(a), 1);
    forall i | 0 <= i < 2
      ensures |Alternatives(canonical, i)| <= MAX_OPTIONS
    {
      var both := {ParametersOf(canonical[0]), ParametersOf(canonical[1])};
      assert Alternatives(canonical, i) <= both;
      SubsetSize(Alternatives(canonical, i), both);
    }
  }

  lemma {:induction false} AmountsAreBuilt(lex: Lexicon, texts: seq<string>, a: string) returns (d: Draft)
    requires KnowsAmounts(lex, texts, a)
    ensures var text := Joined(texts, Stop());
      SlicedFrom(text, lex.analyze(text)) && BuiltFrom(lex, text, [], Blank(lex, text), d)
  {
    var text, units := Joined(texts, Stop()), AmountUnits(texts, a);
    AmountsConflict(lex, texts, a);
    hide AllPlain, Joined, SlicedFrom, SourceOk, VocabularyOk, Canonicalize, AmountUnits, BothInConflict, LeadsConflict, PutAside, Alternatives,
         Build;
    var canonical := Canonicalize(lex, units, []);
    ConflictBuilds(lex, units, canonical, a);
    BuildSucceedsIff(lex, units, [], Blank(lex, text));
    d := Build(lex, units, canonical, Blank(lex, text)).value;
  }

  function Amount(years: real): Params {
    Params(MustHave, Some(years), None)
  }

  lemma {:induction false} ConflictShown(
      lex: Lexicon, units: seq<SourceUnit>, canonical: seq<Canonical>, d: Draft, a: string) returns (x: ReviewItem)
    requires |units| == 2 && BothInConflict(canonical, a)
    requires Told(lex, units, canonical, d, 2) && ShownTo(units, canonical, d, 2)
    ensures x in d.needsReview && x.conflictSpans == [0, 1] && ConflictSpeaks(lex, units, canonical, x)
    ensures canonical[0].subject == Some(a)
  {
    assert ExampleSources.Joins(canonical, ThreeAndFive(a), 0) && ExampleSources.Joins(canonical, ThreeAndFive(a), 1);
    var g := canonical[0].conflict.value;
    x :| x in d.needsReview && SpeaksFor(canonical, x, g);
    hide ParametersOf, Represented, ConflictSpeaks, Members, OwnTold, CriterionTold, UnsupportedOf, ProhibitedSpans;
    MembersIs(canonical, g);
    var spans := x.conflictSpans;
    assert 0 in spans && 1 in spans && forall i :: i in spans ==> i < 2;
    RisingPair(spans);
    assert ItemTold(lex, units, canonical, d, x);
  }

  lemma {:induction false} RisesAbovePosition(spans: seq<SpanId>, k: nat)
    requires k < |spans| && forall a, b :: 0 <= a < b < |spans| ==> spans[a] < spans[b]
    ensures spans[k] >= k
  {
    if k > 0 {
      RisesAbovePosition(spans, k - 1);
    }
  }

  lemma {:induction false} RisingPair(spans: seq<SpanId>)
    requires 0 in spans && 1 in spans && forall i :: i in spans ==> i < 2
    requires forall a, b :: 0 <= a < b < |spans| ==> spans[a] < spans[b]
    ensures spans == [0, 1]
  {
    assert spans[|spans| - 1] in spans;
    RisesAbovePosition(spans, |spans| - 1);
    assert spans[0] in spans && spans[1] in spans;
  }

  lemma {:induction false} ItemIsOk(
      lex: Lexicon, units: seq<SourceUnit>, d: Draft, minted: map<string, Params>, x: ReviewItem)
    requires Inv(lex, units, d, minted) && x in d.needsReview
    ensures ReviewOk(units, d, x)
  {
    hide SpansAligned, CriteriaDistinct, SpansScored, CriteriaSupported, DecisionsOk, ResolutionsOk, AmendmentsOk,
         ChainReaches, ReviewOk;
  }

  lemma {:induction false} TwoAmounts(units: seq<SourceUnit>, spans: seq<SpanId>, options: seq<Params>)
    requires StatesAmounts(units) && spans == [0, 1] && OptionsAreTheSource(units, Resolution(spans, options, 0))
    ensures forall p :: p in options <==> p == Amount(3.0) || p == Amount(5.0)
  {
    assert 0 in spans && 1 in spans;
    assert forall p :: p in Elements(options) <==> p in options;
  }

  /** Two spans of different amounts: both amounts are on offer, in their order. */
  lemma {:induction false} TwoOptions(canonical: seq<Canonical>, options: seq<Params>, a: string)
    requires BothInConflict(canonical, a) && ResolutionOk(Resolution([0, 1], options, 0))
    requires forall p :: p in options <==> p == Amount(3.0) || p == Amount(5.0)
    requires InSourceOrder(canonical, [0, 1], options)
    ensures options == [Amount(3.0), Amount(5.0)]
  {
    DistinctSize(options);
    assert (set p | p in options) == {Amount(3.0), Amount(5.0)};
    assert options[0] in options && options[1] in options && options[0] != options[1];
    assert ExampleSources.Joins(canonical, ThreeAndFive(a), 0) && ExampleSources.Joins(canonical, ThreeAndFive(a), 1);
    assert States(canonical, 0, Amount(3.0)) && !States(canonical, 0, Amount(5.0));
    assert Amount(3.0) != Amount(5.0) && |options| == 2;
    assert StatedBefore(canonical, [0, 1], options[0], options[1]);
    assert !States(canonical, [0, 1][0], options[1]);
  }

  /** What the item says: the skill, bound to the first sentence, with the parameter sets of both. */
  lemma {:induction false} ItemOffers(
      lex: Lexicon, units: seq<SourceUnit>, canonical: seq<Canonical>, d: Draft, x: ReviewItem, a: string)
    requires StatesAmounts(units) && ReviewOk(units, d, x) && x.conflictSpans == [0, 1] && ConflictSpeaks(lex, units, canonical, x)
    requires canonical[0].subject == Some(a)
    ensures x.spanId == Some(0) && !x.excluded && x.kind == Some(SkillExperience) && x.subject == Some(a)
    ensures ResolutionOk(Resolution([0, 1], x.conflictOptions, 0)) && OptionsAreTheSource(units, Resolution([0, 1], x.conflictOptions, 0))
    ensures InSourceOrder(canonical, [0, 1], x.conflictOptions)
    ensures Claims(x) == {0, 1} && forall i: nat :: i < 2 && i < |d.requirements| ==> d.requirements[i].state == NeedsReview
  {
    hide InSourceOrder, OptionsAreTheSource, ResolutionOk, JoinedText;
    assert 0 in x.conflictSpans && 1 in x.conflictSpans;
    assert Claims(x) == {0, 1};
    assert 0 in Claims(x) && 1 in Claims(x);
  }

  /** Its one item: both amounts on offer, in source order, and nothing scored yet. */
  lemma {:induction false} AmountsOnOffer(lex: Lexicon, texts: seq<string>, a: string, d: Draft) returns (x: ReviewItem)
    requires KnowsAmounts(lex, texts, a) && BuiltFrom(lex, Joined(texts, Stop()), [], Blank(lex, Joined(texts, Stop())), d)
    ensures x in d.needsReview && x.spanId == Some(0) && x.conflictSpans == [0, 1] && !x.excluded
    ensures x.kind == Some(SkillExperience) && x.subject == Some(a)
    ensures x.conflictOptions == [Amount(3.0), Amount(5.0)]
    ensures Criteria(d) == [] && |d.requirements| == 2
  {
    var text, units := Joined(texts, Stop()), AmountUnits(texts, a);
    var canonical := Canonicalize(lex, units, []);
    AmountsConflict(lex, texts, a);
    BuiltIsTold(lex, text, [], Blank(lex, text), d);
    hide KnowsAmounts, Joined, BuiltFrom, Canonicalize, Inv, SlicedFrom, SourceOk, BothInConflict, AmountUnits, StatesAmounts, UnitFor, At,
         Told, ShownTo, MintedOf;
    x := OfferIs(lex, units, canonical, d, MintedOf(d), a);
  }

  lemma {:induction false} OfferIs(
      lex: Lexicon, units: seq<SourceUnit>, canonical: seq<Canonical>, d: Draft, minted: map<string, Params>, a: string)
      returns (x: ReviewItem)
    requires StatesAmounts(units) && BothInConflict(canonical, a) && Inv(lex, units, d, minted)
    requires Told(lex, units, canonical, d, 2) && ShownTo(units, canonical, d, 2)
    ensures x in d.needsReview && x.spanId == Some(0) && x.conflictSpans == [0, 1] && !x.excluded
    ensures x.kind == Some(SkillExperience) && x.subject == Some(a)
    ensures x.conflictOptions == [Amount(3.0), Amount(5.0)]
    ensures Criteria(d) == [] && |d.requirements| == 2
  {
    assert |units| == 2 && |d.requirements| == 2 by { ToldLength(lex, units, canonical, d, 2); }
    hide *;
    x := ConflictShown(lex, units, canonical, d, a);
    ItemIsOk(lex, units, d, minted, x);
    ItemOffersBoth(lex, units, canonical, d, x, a);
    NothingScored(lex, units, d, minted);
  }

  lemma {:induction false} ItemOffersBoth(
      lex: Lexicon, units: seq<SourceUnit>, canonical: seq<Canonical>, d: Draft, x: ReviewItem, a: string)
    requires StatesAmounts(units) && BothInConflict(canonical, a) && canonical[0].subject == Some(a)
    requires ReviewOk(units, d, x) && x.conflictSpans == [0, 1] && ConflictSpeaks(lex, units, canonical, x)
    ensures x.spanId == Some(0) && !x.excluded && x.kind == Some(SkillExperience) && x.subject == Some(a)
    ensures x.conflictOptions == [Amount(3.0), Amount(5.0)]
    ensures forall i: nat :: i < 2 && i < |d.requirements| ==> d.requirements[i].state == NeedsReview
  {
    hide *;
    ItemOffers(lex, units, canonical, d, x, a);
    TwoAmounts(units, [0, 1], x.conflictOptions);
    TwoOptions(canonical, x.conflictOptions, a);
  }

  /**
   "Three years of Kotlin required. Five years of Kotlin required." HR takes the second option: one
   criterion of five years, with both sentences as its evidence.
   */
  lemma {:induction false} FiveYearsAreChosen(lex: Lexicon, texts: seq<string>, a: string)
      returns (d: Draft, e: Draft, c: Criterion)
    requires KnowsAmounts(lex, texts, a)
    ensures var text := Joined(texts, Stop());
      SlicedFrom(text, lex.analyze(text)) && BuiltFrom(lex, text, [], Blank(lex, text), d)
    ensures ResolveConflict(lex, d, 0, 1) == Ok(e)
    ensures e.mustHave == [c] && e.preferred == [] && c.kind == SkillExperience && c.name == a && c.years == Some(5.0)
    ensures |e.requirements| == 2 && forall r :: r in e.requirements ==> r.state == Scorable && r.criterionId == Some(c.id)
  {
    var text, units := Joined(texts, Stop()), AmountUnits(texts, a);
    d := AmountsAreBuilt(lex, texts, a);
    var x := AmountsOnOffer(lex, texts, a, d);
    BuiltStartsTheLifecycle(lex, text, [], Blank(lex, text), d);
    CanTakeFive(lex, texts, a, d, x);
    assert lex.analyze(text) == units by { Analysed(lex, texts, a); }
    hide KnowsAmounts, Joined, BuiltFrom, Inv, SlicedFrom, Covers, AmountUnits, MintedOf, Sourced, ResolveConflict,
         Choices.CanChoose;
    e, c := FiveIsTaken(lex, units, d, MintedOf(d), x, a);
  }

  lemma {:induction false} FiveIsTaken(
      lex: Lexicon, units: seq<SourceUnit>, d: Draft, minted: map<string, Params>, x: ReviewItem, a: string) returns (e: Draft, c: Criterion)
    requires Covers(units, d) && Inv(lex, units, d, minted) && Criteria(d) == [] && |d.requirements| == 2
    requires Choices.OpenConflict(d, x, 0) && Choices.CanChoose(lex, units, d, x, 1) && x.conflictSpans == [0, 1]
    requires x.kind == Some(SkillExperience) && x.subject == Some(a) && x.conflictOptions == [Amount(3.0), Amount(5.0)]
    ensures ResolveConflict(lex, d, 0, 1) == Ok(e)
    ensures e.mustHave == [c] && e.preferred == [] && c.kind == SkillExperience && c.name == a && c.years == Some(5.0)
    ensures |e.requirements| == 2 && forall r :: r in e.requirements ==> r.state == Scorable && r.criterionId == Some(c.id)
  {
    hide Inv, Covers, ResolveConflict, Choices.CanChoose;
    Choices.ConflictAcceptedIff(lex, units, d, minted, 0, 1);
    e := ResolveConflict(lex, d, 0, 1).value;
    var y;
    y, c := Choices.ChoiceIsCarriedOut(lex, units, d, e, minted, 0, 1);
    assert y == x by { Choices.OneItemPerSpan(lex, units, d, minted, x, y); }
    assert forall i: nat :: i < 2 ==> i in x.conflictSpans;
  }

  lemma {:induction false} Analysed(lex: Lexicon, texts: seq<string>, a: string)
    requires KnowsAmounts(lex, texts, a)
    ensures lex.analyze(Joined(texts, Stop())) == AmountUnits(texts, a)
  {
  }

  lemma {:induction false} CanTakeFive(lex: Lexicon, texts: seq<string>, a: string, d: Draft, x: ReviewItem)
    requires KnowsAmounts(lex, texts, a) && Criteria(d) == []
    requires x.kind == Some(SkillExperience) && x.subject == Some(a) && x.conflictSpans == [0, 1]
    requires x.conflictOptions == [Amount(3.0), Amount(5.0)]
    ensures Choices.CanChoose(lex, AmountUnits(texts, a), d, x, 1)
  {
    assert Plain(lex, texts[0], ThreeAndFive(a)[0]);
    assert texts[0] in texts && texts[1] in texts;
    hide Joined, VocabularyOk, AllPlain;
  }

  /** "Three years of Kotlin are required. Five years of Kotlin are required." is such a text. */
  lemma {:induction false} KotlinForYears() returns (lex: Lexicon, texts: seq<string>)
    ensures KnowsAmounts(lex, texts, "Kotlin")
    ensures texts == ["Three years of Kotlin are required", "Five years of Kotlin are required"]
  {
    texts := ["Three years of Kotlin are required", "Five years of Kotlin are required"];
    lex := Accepting(AmountUnits(texts, "Kotlin"));
    AcceptingKnowsAmounts(texts[0], texts[1], "Kotlin");
    hide *;
    assert texts == [texts[0], texts[1]];
  }

  lemma {:induction false} AcceptingKnowsAmounts(first: string, second: string, a: string)
    requires 0 < |first| <= MAX_TEXT && 0 < |second| <= MAX_TEXT && a != ""
    ensures KnowsAmounts(Accepting(AmountUnits([first, second], a)), [first, second], a)
  {
    hide AmountUnits, Joined, At;
    var lex := Accepting(AmountUnits([first, second], a));
    assert Plain(lex, first, ThreeAndFive(a)[0]) && Plain(lex, second, ThreeAndFive(a)[1]);
    assert VocabularyOk(lex);
    hide Plain, VocabularyOk;
  }

  // ------------------------------------------------------------------ one sentence

  /** One sentence that is not scored: the draft it becomes has its one item. */
  function OneAside(blank: Draft, u: SourceUnit, c: Canonical): Draft {
    blank.(needsReview := [OrdinaryItem(c, u, 0, NeedsReview, c.shape)], requirements := [ResultFor(c, u, 0, NeedsReview, None, c.shape)])
  }

  lemma {:induction false} OneAsideBuilds(lex: Lexicon, u: SourceUnit, c: Canonical, blank: Draft)
    requires IsBlank(blank) && c.state == NeedsReview && c.conflict.None? && |u.text| <= MAX_REVIEW_TEXT
    ensures Build(lex, [u], [c], blank) == Ok(OneAside(blank, u, c))
  {
    hide OrdinaryItem, ResultFor, StepScorable, StepConflict;
    var start := Building(blank, {}, map[]);
    assert BuildTo(lex, [u], [c], blank, 0) == Ok(start);
    assert BuildStep(lex, [u], [c], start, 0) == StepAside(start, c, u, 0, NeedsReview, c.shape);
    assert blank.needsReview + OneAside(blank, u, c).needsReview == OneAside(blank, u, c).needsReview;
    assert blank.requirements + OneAside(blank, u, c).requirements == OneAside(blank, u, c).requirements;
    assert StepAside(start, c, u, 0, NeedsReview, c.shape) == Ok(start.(d := OneAside(blank, u, c)));
    hide BuildStep, StepAside;
    assert BuildTo(lex, [u], [c], blank, 1) == BuildStep(lex, [u], [c], start, 0);
  }

  /** A single sentence is never in a clause or a conflict with another. */
  lemma {:induction false} OneIsRead(lex: Lexicon, u: SourceUnit)
    requires Interpreted(lex, u, 0, ForSpan([], 0)).conflict.None?
    ensures Canonicalize(lex, [u], []) == [Interpreted(lex, u, 0, ForSpan([], 0))]
  {
    hide Interpreted, ForSpan;
    var start := PerSpan(lex, [u], []);
    assert !InConflict(lex, Symmetric([u], start), 0);
    assert Symmetric([u], start)[0] == start[0];
  }

  lemma {:induction false} OneIsLaidOut(text: string, u: SourceUnit)
    requires u.start == 0 && u.end == |text| && u.text == text && 0 < |text| <= MAX_TEXT && u.level.None?
    requires u.state == Scorable ==> u.family.Some? && u.family.value != Other && u.modality.Some?
    ensures SlicedFrom(Joined([text], Stop()), [u]) && SourceOk([u])
  {
    assert [text][..0] == [];
    assert Joined([], Stop()) == "" && Joined([text], Stop()) == text + ". ";
  }

  // ------------------------------------------------------------------ a type, given

  /** The source names a skill and no type. */
  function Untyped(text: string, a: string): SourceUnit {
    SourceUnit(0, |text|, text, None, Some(Skill), Some(a), None, None, None, None, NeedsReview, Some(ModalityUnknown))
  }

  ghost predicate KnowsUntyped(lex: Lexicon, text: string, a: string) {
    && VocabularyOk(lex) && 0 < |text| <= MAX_REVIEW_TEXT && a != "" && !Prohibits(lex, text) && !Prohibits(lex, a)
    && lex.canonicalTerm(Skill, a) && lex.groundedIn(Skill, a, text) && !lex.nonProfessional(text)
    && lex.criterionSubjectOk(Skill, a, Some(a))
    && lex.analyze(Joined([text], Stop())) == [Untyped(text, a)]
  }

  function UntypedReading(a: string): Canonical {
    Canonical(0, Some(Skill), Some(a), None, None, None, NeedsReview, Some(Deterministic), Some(ModalityUnknown), true, None)
  }

  /** "Knows Kotlin." HR makes it a must-have: the skill becomes the draft's one criterion. */
  lemma {:induction false} TypeIsGiven(
      lex: Lexicon, text: string, a: string, m: Modality) returns (d: Draft, e: Draft, c: Criterion)
    requires KnowsUntyped(lex, text, a)
    ensures var source := Joined([text], Stop());
      SlicedFrom(source, lex.analyze(source)) && BuiltFrom(lex, source, [], Blank(lex, source), d)
    ensures Criteria(d) == [] && ResolveModality(lex, d, 0, m) == Ok(e)
    ensures Criteria(e) == [c] && c.kind == Skill && c.name == a && c.modality == m
    ensures e.needsReview == [] && e.requirements == [d.requirements[0].(state := Scorable, modality := Some(m), criterionId := Some(c.id))]
  {
    var u := Untyped(text, a);
    var source := Joined([text], Stop());
    assert Interpreted(lex, u, 0, ForSpan([], 0)) == UntypedReading(a);
    OneIsRead(lex, u);
    OneIsLaidOut(text, u);
    OneAsideBuilds(lex, u, UntypedReading(a), Blank(lex, source));
    hide Joined, Build, Canonicalize, Interpreted, SlicedFrom, SourceOk;
    d := OneAside(Blank(lex, source), u, UntypedReading(a));
    BuiltStartsTheLifecycle(lex, source, [], Blank(lex, source), d);
    var x := UntypedAsks(lex, text, a, m, d);
    hide *;
    e, c := TypeIsTaken(lex, [u], d, MintedOf(d), x, a, m);
  }

  lemma {:induction false} UntypedAsks(
      lex: Lexicon, text: string, a: string, m: Modality, d: Draft) returns (x: ReviewItem)
    requires KnowsUntyped(lex, text, a) && d == OneAside(Blank(lex, Joined([text], Stop())), Untyped(text, a), UntypedReading(a))
    ensures Criteria(d) == [] && d.needsReview == [x] && |d.requirements| == 1
    ensures x.kind == Some(Skill) && x.subject == Some(a)
    ensures Choices.AsksFor(d, x, 0, m) && Choices.CanDecide(lex, [Untyped(text, a)], d, x, 0, m)
  {
    x := OrdinaryItem(UntypedReading(a), Untyped(text, a), 0, NeedsReview, true);
    assert Choices.StillStands(lex, Skill, a, text);
    assert Choices.Validates(lex, Skill, a, Params(m, None, None));
    hide Choices.StillStands, Choices.Validates;
  }

  lemma {:induction false} TypeIsTaken(
      lex: Lexicon, units: seq<SourceUnit>, d: Draft, minted: map<string, Params>, x: ReviewItem, a: string, m: Modality)
      returns (e: Draft, c: Criterion)
    requires Covers(units, d) && Inv(lex, units, d, minted) && Criteria(d) == [] && d.needsReview == [x] && |d.requirements| == 1
    requires x.kind == Some(Skill) && x.subject == Some(a) && Choices.AsksFor(d, x, 0, m) && Choices.CanDecide(lex, units, d, x, 0, m)
    ensures ResolveModality(lex, d, 0, m) == Ok(e)
    ensures Criteria(e) == [c] && c.kind == Skill && c.name == a && c.modality == m
    ensures e.needsReview == [] && e.requirements == [d.requirements[0].(state := Scorable, modality := Some(m), criterionId := Some(c.id))]
  {
    hide Inv, Covers, ResolveModality, Choices.CanDecide, Choices.Joins, Choices.Settles, Choices.Supports,
         Choices.OnlyEvidenceMoves;
    Choices.ModalityAcceptedIff(lex, units, d, minted, 0, m);
    e := ResolveModality(lex, d, 0, m).value;
    var y;
    y, c := Choices.DecisionIsCarriedOut(lex, units, d, e, minted, 0, m);
    assert y == x;
    hide *;
    OnlyOneLeft(lex, d, e, x, c);
  }

  lemma {:induction false} OnlyOneLeft(lex: Lexicon, d: Draft, e: Draft, x: ReviewItem, c: Criterion)
    requires Criteria(d) == [] && d.needsReview == [x] && |d.requirements| == 1
    requires Choices.Joins(d, e, c) && Choices.Settles(d, e, x) && Choices.Supports(d, e, [0], c)
    ensures Criteria(e) == [c] && e.needsReview == []
    ensures e.requirements == [d.requirements[0].(state := Scorable, modality := Some(c.modality), criterionId := Some(c.id))]
  {
    FirstIsIn(e.needsReview);
    assert 0 in [0];
  }

  /** "Knows Kotlin." is such a text. */
  lemma {:induction false} KotlinUntyped() returns (lex: Lexicon)
    ensures KnowsUntyped(lex, "Knows Kotlin", "Kotlin") && Joined(["Knows Kotlin"], Stop()) == "Knows Kotlin. "
  {
    lex := Accepting([Untyped("Knows Kotlin", "Kotlin")]);
    assert ["Knows Kotlin"][..0] == [] && Joined([], Stop()) == "";
  }

  // ------------------------------------------------------------------ a requirement, set aside

  /** The source requires something that the vocabulary does not know. */
  function Unknown(text: string, a: string): SourceUnit {
    SourceUnit(0, |text|, text, None, Some(Skill), Some(a), None, Some(MustHave), None, None, Scorable, None)
  }

  ghost predicate DoesNotKnow(lex: Lexicon, text: string, a: string) {
    && VocabularyOk(lex) && 0 < |text| <= MAX_REVIEW_TEXT && a != "" && !Prohibits(lex, text) && !Prohibits(lex, a)
    && !lex.canonicalTerm(Skill, a)
    && lex.analyze(Joined([text], Stop())) == [Unknown(text, a)]
  }

  function UnknownReading(a: string): Canonical {
    Canonical(0, Some(Skill), Some(a), Some(MustHave), None, None, NeedsReview, None, Some(SubjectNotCanonical), false, None)
  }

  /** "Zorblax is required." blocks confirmation until HR sets it aside; it is never scored. */
  lemma {:induction false} UnknownIsSetAside(lex: Lexicon, text: string, a: string) returns (d: Draft, e: Draft)
    requires DoesNotKnow(lex, text, a)
    ensures var source := Joined([text], Stop());
      SlicedFrom(source, lex.analyze(source)) && BuiltFrom(lex, source, [], Blank(lex, source), d)
    ensures |d.needsReview| == 1 && Blocks(d.needsReview[0]) && Exclude(d, 0) == Ok(e)
    ensures e.needsReview == [d.needsReview[0].(excluded := true)] && Criteria(e) == []
  {
    var u := Unknown(text, a);
    var source := Joined([text], Stop());
    assert Interpreted(lex, u, 0, ForSpan([], 0)) == UnknownReading(a);
    OneIsRead(lex, u);
    OneIsLaidOut(text, u);
    OneAsideBuilds(lex, u, UnknownReading(a), Blank(lex, source));
    hide Joined, Build, Canonicalize, Interpreted, SlicedFrom, SourceOk;
    d := OneAside(Blank(lex, source), u, UnknownReading(a));
    BuiltStartsTheLifecycle(lex, source, [], Blank(lex, source), d);
    hide Inv, Covers, BuiltFrom, Exclude, MintedOf;
    var x := d.needsReview[0];
    assert x in d.needsReview;
    Choices.ExcludeAcceptedIff(lex, [u], d, MintedOf(d), 0);
    e := Exclude(d, 0).value;
    var y := Choices.ExclusionIsCarriedOut(lex, [u], d, e, MintedOf(d), 0);
  }

  /** "Zorblax is required." is such a text, for a vocabulary without that word. */
  lemma {:induction false} ZorblaxRequired() returns (lex: Lexicon)
    ensures DoesNotKnow(lex, "Zorblax is required", "Zorblax") && Joined(["Zorblax is required"], Stop()) == "Zorblax is required. "
  {
    lex := Accepting([Unknown("Zorblax is required", "Zorblax")]).(canonicalTerm := (k: Kind, s: string) => false);
    assert ["Zorblax is required"][..0] == [] && Joined([], Stop()) == "";
  }

  // ------------------------------------------------------------------ a review that clicks cannot finish

  /** Five years required, and three years of the same skill without a type. */
  function FiveThenThree(a: string): seq<Sentence> {
    [Sentence(None, SkillExperience, Some(a), Some(MustHave), Some(5.0)), Sentence(None, SkillExperience, Some(a), None, Some(3.0))]
  }

  function StuckUnits(texts: seq<string>, a: string): (r: seq<SourceUnit>)
    requires |texts| == 2
    ensures |r| == 2 && forall i :: 0 <= i < 2 ==> r[i] == UnitFor(At(texts, Stop(), i), texts[i], FiveThenThree(a)[i])
  {
    Units(texts, Stop(), FiveThenThree(a))
  }

  ghost predicate KnowsStuck(lex: Lexicon, texts: seq<string>, a: string) {
    && VocabularyOk(lex) && |texts| == 2 && AllPlain(lex, texts, FiveThenThree(a))
    && lex.criterionSubjectOk(SkillExperience, a, Some(a))
    && (forall t :: t in texts ==> |t| <= MAX_REVIEW_TEXT)
    && lex.analyze(Joined(texts, Stop())) == StuckUnits(texts, a)
  }

  /** What the two units are, apart from where they stand. */
  predicate StatesStuck(units: seq<SourceUnit>, a: string) {
    && |units| == 2 && a != ""
    && (forall i :: 0 <= i < 2 ==>
          units[i].family == Some(SkillExperience) && units[i].level.None? && units[i].group.None? && |units[i].text| <= MAX_REVIEW_TEXT)
    && units[0].years == Some(5.0) && units[0].modality == Some(MustHave)
    && units[1].years == Some(3.0) && units[1].modality == None
  }

  function StuckReading(a: string): seq<Canonical> {
    [Read(0, FiveThenThree(a)[0]), Read(1, FiveThenThree(a)[1])]
  }

  lemma {:induction false} StuckIsRead(lex: Lexicon, texts: seq<string>, a: string)
    requires KnowsStuck(lex, texts, a)
    ensures var units := StuckUnits(texts, a);
      && SlicedFrom(Joined(texts, Stop()), units) && SourceOk(units) && StatesStuck(units, a)
      && Canonicalize(lex, units, []) == StuckReading(a)
  {
    var units := StuckUnits(texts, a);
    assert Plain(lex, texts[0], FiveThenThree(a)[0]);
    assert texts[0] in texts && texts[1] in texts;
    assert StatesStuck(units, a);
    hide StatesStuck, AllPlain, Joined, At, SlicedFrom, SourceOk, PerSpan, VocabularyOk, StuckUnits;
    LaidOut(lex, texts, Stop(), FiveThenThree(a));
    AllAreRead(lex, texts, Stop(), FiveThenThree(a));
    assert Units(texts, Stop(), FiveThenThree(a)) == units;
    StuckHasNoConflict(lex, units, a);
  }

  lemma {:induction false} StuckHasNoConflict(lex: Lexicon, units: seq<SourceUnit>, a: string)
    requires ReadsAll(lex, units, FiveThenThree(a)) && StatesStuck(units, a)
    ensures Canonicalize(lex, units, []) == StuckReading(a)
  {
    var start := PerSpan(lex, units, []);
    hide PerSpan;
    NoClauses(units, start);
    assert start == StuckReading(a);
    assert !InConflict(lex, start, 0) && !InConflict(lex, start, 1);
  }

  lemma {:induction false} StuckIsBuilt(lex: Lexicon, texts: seq<string>, a: string) returns (d: Draft)
    requires KnowsStuck(lex, texts, a)
    ensures var text := Joined(texts, Stop());
      && SlicedFrom(text, lex.analyze(text)) && BuiltFrom(lex, text, [], Blank(lex, text), d)
      && |d.requirements| == 2 && d.requirements[0].state == Scorable && d.requirements[1].state == NeedsReview
  {
    var text, units := Joined(texts, Stop()), StuckUnits(texts, a);
    StuckIsRead(lex, texts, a);
    hide AllPlain, Joined, SlicedFrom, SourceOk, VocabularyOk, Canonicalize, StuckUnits, Build;
    var canonical := Canonicalize(lex, units, []);
    BuildSucceedsIff(lex, units, [], Blank(lex, text));
    assert !LeadsConflict(canonical, 0) && !LeadsConflict(canonical, 1);
    d := Build(lex, units, canonical, Blank(lex, text)).value;
    assert Mints(lex, units, canonical, 0);
    SpanStates(lex, units, [], Blank(lex, text), d);
  }

  /** The draft scores five years and asks for the type of three. */
  lemma {:induction false} StuckAsks(
      lex: Lexicon, texts: seq<string>, a: string, d: Draft) returns (x: ReviewItem, c: Criterion)
    requires KnowsStuck(lex, texts, a) && BuiltFrom(lex, Joined(texts, Stop()), [], Blank(lex, Joined(texts, Stop())), d)
    requires |d.requirements| == 2 && d.requirements[0].state == Scorable && d.requirements[1].state == NeedsReview
    ensures x in d.needsReview && x.allowed != [] && x.kind == Some(SkillExperience) && x.subject == Some(a) && x.years == Some(3.0)
    ensures c in Criteria(d) && c.kind == SkillExperience && c.value == Some(a) && c.years == Some(5.0)
  {
    var text, units := Joined(texts, Stop()), StuckUnits(texts, a);
    StuckIsRead(lex, texts, a);
    BuiltStartsTheLifecycle(lex, text, [], Blank(lex, text), d);
    c := FirstIsScoredBy(lex, units, d, MintedOf(d));
    hide Joined, StuckUnits, BuiltFrom, Inv, Covers, Sourced, MintedOf, VocabularyOk, SlicedFrom, SourceOk, AllPlain, StatesStuck, StuckReading,
         Canonicalize, SourcesAgree, EvidenceGrounded;
    x := StuckSays(lex, text, units, d, c, a);
  }

  lemma {:induction false} StuckSays(
      lex: Lexicon, text: string, units: seq<SourceUnit>, d: Draft, c: Criterion, a: string) returns (x: ReviewItem)
    requires VocabularyOk(lex) && BuiltFrom(lex, text, [], Blank(lex, text), d) && lex.analyze(text) == units
    requires StatesStuck(units, a) && Canonicalize(lex, units, []) == StuckReading(a) && c in Criteria(d)
    requires |d.requirements| == 2 && d.requirements[0].state == Scorable && d.requirements[1].state == NeedsReview
    ensures x in d.needsReview && x.allowed != [] && x.kind == Some(SkillExperience) && x.subject == Some(a) && x.years == Some(3.0)
    ensures c.kind == SkillExperience && c.value == Some(a) && c.years == Some(5.0)
  {
    SecondHasAnItem(units, d, a);
    ItemsSayTheirSpans(lex, text, [], Blank(lex, text), d);
    CriteriaSayTheirSpans(lex, text, [], Blank(lex, text), d, c);
    hide BuiltFrom, VocabularyOk, Canonicalize, Speaks, ConflictSpeaks, CriterionSpeaks, OwnItem, Blank;
    x :| x in d.needsReview && Speaks(units[1], StuckReading(a)[1], d.requirements[1], x, 1);
    SecondItemSays(units, d, x, a);
    var i: nat :| i < 2 && CriterionSpeaks(lex, units[i], StuckReading(a)[i], d.requirements[i], c);
    FirstCriterionSays(lex, units, d, c, i, a);
  }

  lemma {:induction false} SecondHasAnItem(units: seq<SourceUnit>, d: Draft, a: string)
    requires StatesStuck(units, a) && |d.requirements| == 2 && d.requirements[1].state == NeedsReview
    ensures OwnItem(units[1], StuckReading(a)[1], d.requirements[1])
  {
  }

  lemma {:induction false} SecondItemSays(units: seq<SourceUnit>, d: Draft, x: ReviewItem, a: string)
    requires StatesStuck(units, a) && |d.requirements| == 2 && d.requirements[1].state == NeedsReview
    requires Speaks(units[1], StuckReading(a)[1], d.requirements[1], x, 1)
    ensures x.allowed != [] && x.kind == Some(SkillExperience) && x.subject == Some(a) && x.years == Some(3.0)
  {
  }

  lemma {:induction false} FirstCriterionSays(
      lex: Lexicon, units: seq<SourceUnit>, d: Draft, c: Criterion, i: nat, a: string)
    requires StatesStuck(units, a) && |d.requirements| == 2 && d.requirements[1].state == NeedsReview
    requires i < 2 && CriterionSpeaks(lex, units[i], StuckReading(a)[i], d.requirements[i], c)
    ensures c.kind == SkillExperience && c.value == Some(a) && c.years == Some(5.0)
  {
  }

  lemma {:induction false} FirstIsScoredBy(
      lex: Lexicon, units: seq<SourceUnit>, d: Draft, minted: map<string, Params>) returns (c: Criterion)
    requires Inv(lex, units, d, minted) && d.requirements != [] && d.requirements[0].state == Scorable
    ensures c in Criteria(d)
  {
    hide CriteriaDistinct, CriteriaSupported, DecisionsOk, ResolutionsOk, ReviewsOk, AmendmentsOk, ChainReaches,
         SpanOrigin;
    c :| c in Criteria(d) && Evidence(lex, units, d, 0, c);
  }

  /**
   "Five years of Kotlin are required. Three years of Kotlin." The second sentence asks for its type, and
   whichever HR clicks is refused, because five years are scored already; nor can the question be set
   aside. However HR clicks, the draft goes on needing an answer.
   */
  lemma {:induction false} ClicksCannotFinish(lex: Lexicon, texts: seq<string>, a: string) returns (d: Draft)
    requires KnowsStuck(lex, texts, a)
    ensures var text := Joined(texts, Stop());
      SlicedFrom(text, lex.analyze(text)) && BuiltFrom(lex, text, [], Blank(lex, text), d)
    ensures forall clicks :: Review.AreClicks(clicks) ==> Review.NeedsResolution(Run(lex, d, clicks))
  {
    var text := Joined(texts, Stop());
    d := StuckIsBuilt(lex, texts, a);
    var x, c := StuckAsks(lex, texts, a, d);
    Review.BuiltIsInSession(lex, text, [], Blank(lex, text), d);
    hide KnowsStuck, Joined, BuiltFrom, SlicedFrom, Run, Review.InSession, Review.NeedsResolution;
    AmountsDisagree(lex, lex.analyze(text), d, x, c, a);
    Review.ReviewCanBeFinishedIff(lex, lex.analyze(text), d);
  }

  lemma {:induction false} AmountsDisagree(
      lex: Lexicon, units: seq<SourceUnit>, d: Draft, x: ReviewItem, c: Criterion, a: string)
    requires x in d.needsReview && x.allowed != [] && x.kind == Some(SkillExperience) && x.subject == Some(a) && x.years == Some(3.0)
    requires c in Criteria(d) && c.kind == SkillExperience && c.value == Some(a) && c.years == Some(5.0)
    ensures !Review.AllAnswerable(lex, units, d)
  {
    hide Review.Stands, Review.Creates, NormalizedLevel;
    assert Review.KeyOf(lex, x) == Some(CriterionIdentity(lex, c));
    assert !Review.Answerable(lex, units, d, x);
  }

  /** "Five years of Kotlin are required. Three years of Kotlin." is such a text. */
  lemma {:induction false} KotlinStuck() returns (lex: Lexicon, texts: seq<string>)
    ensures KnowsStuck(lex, texts, "Kotlin") && texts == ["Five years of Kotlin are required", "Three years of Kotlin"]
  {
    texts := ["Five years of Kotlin are required", "Three years of Kotlin"];
    lex := Accepting(StuckUnits(texts, "Kotlin"));
    AcceptingKnowsStuck(texts[0], texts[1], "Kotlin");
    hide *;
    assert texts == [texts[0], texts[1]];
  }

  lemma {:induction false} AcceptingKnowsStuck(first: string, second: string, a: string)
    requires 0 < |first| <= MAX_REVIEW_TEXT && 0 < |second| <= MAX_REVIEW_TEXT && a != ""
    ensures KnowsStuck(Accepting(StuckUnits([first, second], a)), [first, second], a)
  {
    hide StuckUnits, Joined, At;
    var lex := Accepting(StuckUnits([first, second], a));
    assert Plain(lex, first, FiveThenThree(a)[0]) && Plain(lex, second, FiveThenThree(a)[1]);
    assert VocabularyOk(lex);
    hide Plain, VocabularyOk;
  }
}
