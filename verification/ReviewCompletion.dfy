/**
 When the review of a draft can be finished with clicks alone (`agent_draft_requires_resolution` of
 `ui/service.py`): exactly when every question left open can be answered, now or after another click.
 */
module ReviewCompletion {
  import opened Wrappers
  import opened Sequences
  import opened CoreText
  import opened DraftSchemas
  import opened SemanticProvenance
  import opened DraftEditing
  import opened DraftInvariant
  import opened DraftPreservation
  import opened DraftLifecycle
  import opened CanonicalRequirements
  import opened DraftBuilding
  import opened DraftBuilt
  import opened VacancyDraft
  import opened ReviewItems
  import opened DraftChoices

  // ------------------------------------------------------------------ what is still open

  predicate Open(x: ReviewItem) {
    x.allowed != [] || (x.blocking && !x.excluded)
  }

  /** Something still has to be answered before the draft can be confirmed. */
  predicate NeedsResolution(d: Draft) {
    exists x :: x in d.needsReview && Open(x)
  }

  predicate AreClicks(edits: seq<Edit>) {
    forall i :: 0 <= i < |edits| ==> !edits[i].Message?
  }

  predicate OffersBothOrNone(x: ReviewItem) {
    x.allowed == [] || x.allowed == [MustHave, Preferred]
  }

  /** An item that asks for a type always offers both. */
  predicate OffersBoth(d: Draft) {
    forall x :: x in d.needsReview ==> OffersBothOrNone(x)
  }

  ghost predicate InSession(lex: Lexicon, units: seq<SourceUnit>, d: Draft) {
    Covers(units, d) && OffersBoth(d) && exists minted :: Inv(lex, units, d, minted)
  }

  // ------------------------------------------------------------------ when a question can be answered

  function KeyOf(lex: Lexicon, x: ReviewItem): Option<(Kind, string)> {
    if x.kind.Some? && x.subject.Some? then Some(Identity(lex, x.kind.value, x.subject)) else None
  }

  type Amounts = (Option<real>, Option<string>)

  function ItemAmounts(x: ReviewItem): Amounts {
    (x.years, NormalizedLevel(x.level))
  }

  function CriterionAmounts(c: Criterion): Amounts {
    (c.years, NormalizedLevel(c.level))
  }

  function OptionAmounts(p: Params): Amounts {
    (p.years, NormalizedLevel(p.level))
  }

  /** The vocabulary still accepts the item's subject in the words of its span. */
  predicate Stands(lex: Lexicon, units: seq<SourceUnit>, x: ReviewItem) {
    && x.spanId.Some? && x.spanId.value < |units| && x.kind.Some? && x.subject.Some?
    && StillStands(lex, x.kind.value, x.subject.value, units[x.spanId.value].text)
  }

  /** Whether the option's criterion validates and every span of the contradiction grounds the subject. */
  predicate Choosable(lex: Lexicon, units: seq<SourceUnit>, y: ReviewItem, k: int) {
    && 0 <= k < |y.conflictOptions| && y.kind.Some? && y.subject.Some?
    && (y.kind != Some(Experience) ==>
          forall i :: i in y.conflictSpans ==> i < |units| && lex.groundedIn(y.kind.value, y.subject.value, units[i].text))
    && Validates(lex, y.kind.value, y.subject.value, y.conflictOptions[k])
  }

  /** The item's own criterion validates; its type does not matter to that. */
  predicate CanBeMinted(lex: Lexicon, y: ReviewItem) {
    y.kind.Some? && y.subject.Some? && Validates(lex, y.kind.value, y.subject.value, Params(MustHave, y.years, y.level))
  }

  /** Answering item `y` would create the criterion that `x` asks about, with the same amounts. */
  ghost predicate Creates(lex: Lexicon, units: seq<SourceUnit>, d: Draft, y: ReviewItem, x: ReviewItem) {
    && y in d.needsReview && KeyOf(lex, y).Some? && KeyOf(lex, y) == KeyOf(lex, x)
    && ((y.allowed != [] && CanBeMinted(lex, y))
        || (!y.excluded && exists k :: Choosable(lex, units, y, k) && OptionAmounts(y.conflictOptions[k]) == ItemAmounts(x)))
  }

  ghost predicate ScoredAlready(lex: Lexicon, d: Draft, x: ReviewItem) {
    exists c :: c in Criteria(d) && KeyOf(lex, x) == Some(CriterionIdentity(lex, c))
  }

  /**
   The question of item `x` can be answered: its shape still stands; whatever is or may come to be scored
   for its subject has its amounts; and something is scored for it or can be created.
   */
  ghost predicate Answerable(lex: Lexicon, units: seq<SourceUnit>, d: Draft, x: ReviewItem) {
    && Stands(lex, units, x)
    && (forall c :: c in Criteria(d) && KeyOf(lex, x) == Some(CriterionIdentity(lex, c)) ==> CriterionAmounts(c) == ItemAmounts(x))
    && (forall y :: y in d.needsReview && y.allowed != [] && KeyOf(lex, y) == KeyOf(lex, x) ==> ItemAmounts(y) == ItemAmounts(x))
    && (ScoredAlready(lex, d, x) || exists y :: Creates(lex, units, d, y, x))
  }

  ghost predicate AllAnswerable(lex: Lexicon, units: seq<SourceUnit>, d: Draft) {
    forall x :: x in d.needsReview && x.allowed != [] ==> Answerable(lex, units, d, x)
  }

  // ------------------------------------------------------------------ one answer

  /** The item is settled and `c` is scored for its subject. */
  ghost predicate Answers(lex: Lexicon, d: Draft, e: Draft, x0: ReviewItem, c: Criterion) {
    && x0 in d.needsReview && Settles(d, e, x0)
    && (forall y :: y in Criteria(e) <==> y in Criteria(d) || y == c)
    && KeyOf(lex, x0) == Some(CriterionIdentity(lex, c))
  }

  /** What an answered item could create. */
  ghost predicate Origin(lex: Lexicon, units: seq<SourceUnit>, d: Draft, x0: ReviewItem, c: Criterion) {
    if x0.allowed != [] then
      && Stands(lex, units, x0) && CriterionAmounts(c) == ItemAmounts(x0)
      && (forall y :: y in Criteria(d) && KeyOf(lex, x0) == Some(CriterionIdentity(lex, y)) ==> CriterionAmounts(y) == ItemAmounts(x0))
      && (c in Criteria(d) || CanBeMinted(lex, x0))
    else
      !x0.excluded && exists k :: Choosable(lex, units, x0, k) && OptionAmounts(x0.conflictOptions[k]) == CriterionAmounts(c)
  }

  /** If everything left can be answered after an answer, everything could be before it. */
  lemma {:induction false} AnswerableBefore(
      lex: Lexicon, units: seq<SourceUnit>, d: Draft, e: Draft, x0: ReviewItem, c: Criterion, x: ReviewItem)
    requires Answers(lex, d, e, x0, c) && Origin(lex, units, d, x0, c) && AllAnswerable(lex, units, e)
    requires x in d.needsReview && x.allowed != []
    ensures Answerable(lex, units, d, x)
  {
    hide Stands, Choosable, CanBeMinted, KeyOf, ItemAmounts, OptionAmounts, CriterionAmounts, CriterionIdentity;
    if x == x0 {
      forall y | y in d.needsReview && y.allowed != [] && KeyOf(lex, y) == KeyOf(lex, x)
        ensures ItemAmounts(y) == ItemAmounts(x)
      {
        if y != x0 { assert Answerable(lex, units, e, y); }
      }
      assert CanBeMinted(lex, x0) ==> Creates(lex, units, d, x0, x0);
    } else {
      assert Answerable(lex, units, e, x);
      OthersAgree(lex, units, d, e, x0, c, x);
      SomethingCreates(lex, units, d, e, x0, c, x);
    }
  }

  lemma {:induction false} OthersAgree(
      lex: Lexicon, units: seq<SourceUnit>, d: Draft, e: Draft, x0: ReviewItem, c: Criterion, x: ReviewItem)
    requires Answers(lex, d, e, x0, c) && Origin(lex, units, d, x0, c) && Answerable(lex, units, e, x)
    ensures forall y :: y in d.needsReview && y.allowed != [] && KeyOf(lex, y) == KeyOf(lex, x) ==> ItemAmounts(y) == ItemAmounts(x)
  {
    hide Stands, Choosable, CanBeMinted, KeyOf, ItemAmounts, OptionAmounts, CriterionAmounts, CriterionIdentity,
         Creates, ScoredAlready;
    assert c in Criteria(e);
  }

  lemma {:induction false} SomethingCreates(
      lex: Lexicon, units: seq<SourceUnit>, d: Draft, e: Draft, x0: ReviewItem, c: Criterion, x: ReviewItem)
    requires Answers(lex, d, e, x0, c) && Origin(lex, units, d, x0, c) && Answerable(lex, units, e, x)
    ensures ScoredAlready(lex, d, x) || exists y :: Creates(lex, units, d, y, x)
  {
    hide Stands, Choosable, CanBeMinted, KeyOf, ItemAmounts, OptionAmounts, CriterionAmounts, CriterionIdentity;
    if ScoredAlready(lex, e, x) {
      var s :| s in Criteria(e) && KeyOf(lex, x) == Some(CriterionIdentity(lex, s));
      if s !in Criteria(d) {
        assert s == c && CriterionAmounts(c) == ItemAmounts(x);
        assert Creates(lex, units, d, x0, x);
      }
    } else {
      var y :| Creates(lex, units, e, y, x);
      assert Creates(lex, units, d, y, x);
    }
  }

  /** An answer whose criterion agrees with the other questions leaves them answerable. */
  lemma {:induction false} AnswerableAfter(
      lex: Lexicon, units: seq<SourceUnit>, d: Draft, e: Draft, x0: ReviewItem, c: Criterion, x: ReviewItem)
    requires Answers(lex, d, e, x0, c) && Answerable(lex, units, d, x)
    requires KeyOf(lex, x) == KeyOf(lex, x0) ==> CriterionAmounts(c) == ItemAmounts(x)
    ensures Answerable(lex, units, e, x)
  {
    hide Stands, Choosable, CanBeMinted, KeyOf, ItemAmounts, OptionAmounts, CriterionAmounts, CriterionIdentity;
    if ScoredAlready(lex, d, x) {
      var s :| s in Criteria(d) && KeyOf(lex, x) == Some(CriterionIdentity(lex, s));
      assert s in Criteria(e);
    } else {
      var y :| Creates(lex, units, d, y, x);
      if y == x0 {
        assert c in Criteria(e);
      } else {
        assert Creates(lex, units, e, y, x);
      }
    }
  }

  // ------------------------------------------------------------------ the clicks are such answers

  lemma {:induction false} TypeDoesNotMatter(lex: Lexicon, x: ReviewItem, p: Params)
    requires x.kind.Some? && x.subject.Some? && p.years == x.years && p.level == x.level
    ensures CanBeMinted(lex, x) <==> Validates(lex, x.kind.value, x.subject.value, p)
  {
  }

  lemma {:induction false} JoinedCriteria(d: Draft, e: Draft, c: Criterion)
    requires Joins(d, e, c)
    ensures forall y :: y in Criteria(e) <==> y in Criteria(d) || y == c
  {
    forall y
      ensures y in Criteria(e) <==> y in Criteria(d) || y == c
    {
      assert y in Criteria(e) <==> y in e.mustHave || y in e.preferred;
      assert y in Criteria(d) <==> y in d.mustHave || y in d.preferred;
    }
  }

  lemma {:induction false} TypeAnswers(
      lex: Lexicon, units: seq<SourceUnit>, d: Draft, e: Draft, minted: map<string, Params>, s: SpanId, m: Modality)
      returns (x: ReviewItem, c: Criterion)
    requires Covers(units, d) && Inv(lex, units, d, minted) && ResolveModality(lex, d, s, m) == Ok(e)
    ensures x.allowed != [] && x.spanId == Some(s) && Answers(lex, d, e, x, c) && Origin(lex, units, d, x, c)
  {
    hide Inv, Covers, ResolveModality, OnlyEvidenceMoves, Supports, Says, StillStands, Joins, CriterionIdentity,
         Identity, Validates, Settles;
    x, c := DecisionIsCarriedOut(lex, units, d, e, minted, s, m);
    var kind, subject := x.kind.value, x.subject.value;
    ItemHasItsAmounts(lex, units, d, minted, x, s, m);
    forall y | Says(y, m, units[s]) ensures CriterionAmounts(y) == ItemAmounts(x) { SaysAmounts(y, m, units[s], x); }
    TypeDoesNotMatter(lex, x, Params(m, x.years, x.level));
    if !AlreadyScored(lex, d, kind, subject) {
      JoinedCriteria(d, e, c);
    } else {
      assert Criteria(e) == Criteria(d);
    }
    hide CanBeMinted, ItemAmounts, CriterionAmounts, AlreadyScored;
  }

  lemma {:induction false} SaysAmounts(c: Criterion, m: Modality, u: SourceUnit, x: ReviewItem)
    requires Says(c, m, u) && x.years == u.years && x.level == u.level
    ensures CriterionAmounts(c) == ItemAmounts(x)
  {
  }

  lemma {:induction false} ItemHasItsAmounts(
      lex: Lexicon, units: seq<SourceUnit>, d: Draft, minted: map<string, Params>, x: ReviewItem, s: SpanId, m: Modality)
    requires Covers(units, d) && Inv(lex, units, d, minted) && AsksFor(d, x, s, m)
    ensures ItemReads(units, x, s)
  {
    PartsOf(lex, units, d, minted);
    hide Inv, Covers, SpansAligned, ReviewOk;
    AllowedReads(units, d, x, s, m);
  }

  lemma {:induction false} ChoiceAnswers(
      lex: Lexicon, units: seq<SourceUnit>, d: Draft, e: Draft, minted: map<string, Params>, s: SpanId, k: int)
      returns (x: ReviewItem, c: Criterion)
    requires Covers(units, d) && Inv(lex, units, d, minted) && ResolveConflict(lex, d, s, k) == Ok(e)
    ensures x.allowed == [] && x.spanId == Some(s) && !x.excluded && x.conflictOptions != [] && 0 <= k < |x.conflictOptions|
    ensures Answers(lex, d, e, x, c) && Origin(lex, units, d, x, c) && CriterionAmounts(c) == OptionAmounts(x.conflictOptions[k])
  {
    PartsOf(lex, units, d, minted);
    hide Inv, Covers, SpansAligned, ResolveConflict, OnlyEvidenceMoves, Supports, Says, Joins, Validates, Settles, TakenFrom, OptionsAreTheSource,
         ResolutionOk, Identity, IsCriterionId, Ids;
    x, c := ChoiceIsCarriedOut(lex, units, d, e, minted, s, k);
    assert ReviewOk(units, d, x);
    assert x.allowed == [];
    hide ReviewsOk, ReviewOk;
    JoinedCriteria(d, e, c);
    CreatedIsAbout(lex, x, c, k);
    assert Choosable(lex, units, x, k);
  }

  lemma {:induction false} CreatedIsAbout(lex: Lexicon, x: ReviewItem, c: Criterion, k: int)
    requires x.kind.Some? && x.subject.Some? && 0 <= k < |x.conflictOptions|
    requires c == Created(c.id, x.kind.value, x.subject.value, x.conflictOptions[k])
    ensures KeyOf(lex, x) == Some(CriterionIdentity(lex, c)) && CriterionAmounts(c) == OptionAmounts(x.conflictOptions[k])
  {
  }

  /** Setting an item aside answers no question and raises none. */
  lemma {:induction false} ExclusionAsksTheSame(
      lex: Lexicon, units: seq<SourceUnit>, d: Draft, e: Draft, minted: map<string, Params>, s: SpanId)
    requires Covers(units, d) && Inv(lex, units, d, minted) && Exclude(d, s) == Ok(e)
    ensures Criteria(e) == Criteria(d)
    ensures forall x: ReviewItem :: x.allowed != [] ==> (x in d.needsReview <==> x in e.needsReview)
    ensures forall x :: x in e.needsReview ==> x in d.needsReview || (x.excluded && x.allowed == [])
  {
    PartsOf(lex, units, d, minted);
    hide Inv, Covers, SpansAligned, Exclude;
    var x0 := ExclusionIsCarriedOut(lex, units, d, e, minted, s);
    assert ReviewOk(units, d, x0);
    assert x0.allowed == [];
    hide ReviewsOk, ReviewOk;
    forall x | x in d.needsReview && x.allowed != []
      ensures x in e.needsReview
    {
      var i :| 0 <= i < |d.needsReview| && d.needsReview[i] == x;
      assert e.needsReview[i] == x;
    }
  }

  lemma {:induction false} AnswerableBeforeExclusion(
      lex: Lexicon, units: seq<SourceUnit>, d: Draft, e: Draft, minted: map<string, Params>, s: SpanId)
    requires Covers(units, d) && Inv(lex, units, d, minted) && Exclude(d, s) == Ok(e)
    requires AllAnswerable(lex, units, e)
    ensures AllAnswerable(lex, units, d)
  {
    ExclusionAsksTheSame(lex, units, d, e, minted, s);
    hide *;
    forall x | x in d.needsReview && x.allowed != []
      ensures Answerable(lex, units, d, x)
    {
      AnswerableAlike(lex, units, d, e, x);
    }
  }

  lemma {:induction false} AnswerableAlike(lex: Lexicon, units: seq<SourceUnit>, d: Draft, e: Draft, x: ReviewItem)
    requires Criteria(e) == Criteria(d) && x in d.needsReview && x.allowed != [] && AllAnswerable(lex, units, e)
    requires forall y: ReviewItem :: y.allowed != [] ==> (y in d.needsReview <==> y in e.needsReview)
    requires forall y :: y in e.needsReview ==> y in d.needsReview || (y.excluded && y.allowed == [])
    ensures Answerable(lex, units, d, x)
  {
    hide Stands, Choosable, CanBeMinted, KeyOf, ItemAmounts, OptionAmounts, CriterionAmounts, CriterionIdentity;
    assert Answerable(lex, units, e, x);
    if !ScoredAlready(lex, e, x) {
      var y :| Creates(lex, units, e, y, x);
      assert Creates(lex, units, d, y, x);
    }
  }

  lemma {:induction false} AnswerableBeforeClick(
      lex: Lexicon, units: seq<SourceUnit>, d: Draft, minted: map<string, Params>, click: Edit)
    requires Covers(units, d) && Inv(lex, units, d, minted) && !click.Message?
    requires AllAnswerable(lex, units, Apply(lex, d, click))
    ensures AllAnswerable(lex, units, d)
  {
    hide Inv, Covers, ResolveModality, ResolveConflict, Exclude, Answerable, Answers, Origin;
    var e := Apply(lex, d, click);
    match click
    case ModalityClick(s, m) =>
      if ResolveModality(lex, d, s, m).Ok? {
        var x0, c := TypeAnswers(lex, units, d, e, minted, s, m);
        forall x | x in d.needsReview && x.allowed != [] ensures Answerable(lex, units, d, x) { AnswerableBefore(lex, units, d, e, x0, c, x); }
      }
    case ConflictChoice(s, k) =>
      if ResolveConflict(lex, d, s, k).Ok? {
        var x0, c := ChoiceAnswers(lex, units, d, e, minted, s, k);
        forall x | x in d.needsReview && x.allowed != [] ensures Answerable(lex, units, d, x) { AnswerableBefore(lex, units, d, e, x0, c, x); }
      }
    case ExcludeClick(s) =>
      if Exclude(d, s).Ok? {
        AnswerableBeforeExclusion(lex, units, d, e, minted, s);
      }
  }

  // ------------------------------------------------------------------ sessions

  lemma {:induction false} StaysInSession(lex: Lexicon, units: seq<SourceUnit>, d: Draft, edit: Edit)
    requires InSession(lex, units, d)
    ensures InSession(lex, units, Apply(lex, d, edit))
  {
    hide Inv, Covers, ResolveModality, ResolveConflict, Exclude, FollowUp, OffersBoth, SourcesAgree, MergesAgree,
         SameSpan;
    var minted :| Inv(lex, units, d, minted);
    var e := Apply(lex, d, edit);
    EditKept(lex, units, d, minted, edit);
    assert Covers(units, e) by { CoversKept(units, d, e); }
    OffersKept(lex, units, d, minted, edit);
  }

  lemma {:induction false} CoversKept(units: seq<SourceUnit>, d: Draft, e: Draft)
    requires Covers(units, d) && |e.requirements| == |d.requirements|
    ensures Covers(units, e)
  {
  }

  lemma {:induction false} OffersKept(
      lex: Lexicon, units: seq<SourceUnit>, d: Draft, minted: map<string, Params>, edit: Edit)
    requires Covers(units, d) && Inv(lex, units, d, minted) && OffersBoth(d)
    ensures OffersBoth(Apply(lex, d, edit))
  {
    hide Inv, Covers, ResolveModality, ResolveConflict, Exclude, FollowUp, Origin, CriterionIdentity, KeyOf;
    var e := Apply(lex, d, edit);
    match edit
    case ModalityClick(s, m) =>
      if ResolveModality(lex, d, s, m).Ok? { var x0, c := TypeAnswers(lex, units, d, e, minted, s, m); }
    case ConflictChoice(s, k) =>
      if ResolveConflict(lex, d, s, k).Ok? { var x0, c := ChoiceAnswers(lex, units, d, e, minted, s, k); }
    case ExcludeClick(s) =>
      if Exclude(d, s).Ok? { ExclusionAsksTheSame(lex, units, d, e, minted, s); }
    case Message(m, freshId) =>
      MessagesLeaveItems(lex, d, m, freshId);
  }

  lemma {:induction false} MessagesLeaveItems(lex: Lexicon, d: Draft, m: Reading, freshId: nat)
    ensures var r := FollowUp(lex, d, m, freshId); r.Some? ==> r.value.needsReview == d.needsReview
  {
    hide Targets, RequestedChange, EncodedChange, ApplyField, CriterionOk, ChangeOk, ReplaceCriterion, WithoutCriterion,
         Retyped;
  }

  lemma {:induction false} AnswerableBeforeRun(lex: Lexicon, units: seq<SourceUnit>, d: Draft, clicks: seq<Edit>)
    requires InSession(lex, units, d) && AreClicks(clicks)
    ensures InSession(lex, units, Run(lex, d, clicks))
    ensures AllAnswerable(lex, units, Run(lex, d, clicks)) ==> AllAnswerable(lex, units, d)
  {
    hide Inv, Covers, OffersBoth, AllAnswerable, Apply;
    if clicks != [] {
      var n := |clicks| - 1;
      AnswerableBeforeRun(lex, units, d, clicks[..n]);
      var here := Run(lex, d, clicks[..n]);
      StaysInSession(lex, units, here, clicks[n]);
      if AllAnswerable(lex, units, Run(lex, d, clicks)) {
        var minted :| Inv(lex, units, here, minted);
        AnswerableBeforeClick(lex, units, here, minted, clicks[n]);
      }
    }
  }

  // ------------------------------------------------------------------ finishing

  function OpenItems(d: Draft): set<ReviewItem> {
    set x | x in d.needsReview && Open(x)
  }

  lemma {:induction false} OneFewer(d: Draft, e: Draft, x: ReviewItem)
    requires x in d.needsReview && Open(x)
    requires forall y :: y in e.needsReview && Open(y) ==> y in d.needsReview && y != x
    ensures |OpenItems(e)| < |OpenItems(d)|
  {
    hide Open;
    assert x in OpenItems(d) && OpenItems(e) <= OpenItems(d) - {x};
    SubsetSize(OpenItems(e), OpenItems(d) - {x});
  }

  /** What scores the subject, if anything does, is one criterion. */
  lemma {:induction false} OneScored(
      lex: Lexicon, units: seq<SourceUnit>, d: Draft, minted: map<string, Params>, x: ReviewItem, a: Criterion, b: Criterion)
    requires Covers(units, d) && Inv(lex, units, d, minted) && a in Criteria(d) && b in Criteria(d)
    requires KeyOf(lex, x) == Some(CriterionIdentity(lex, a)) && KeyOf(lex, x) == Some(CriterionIdentity(lex, b))
    ensures a == b
  {
    CriteriaApart(lex, units, d, minted);
    hide *;
    ApartIsOneScored(lex, d, x, a, b);
  }

  lemma {:induction false} ApartIsOneScored(lex: Lexicon, d: Draft, x: ReviewItem, a: Criterion, b: Criterion)
    requires CriteriaDistinct(lex, d) && a in Criteria(d) && b in Criteria(d)
    requires KeyOf(lex, x) == Some(CriterionIdentity(lex, a)) && KeyOf(lex, x) == Some(CriterionIdentity(lex, b))
    ensures a == b
  {
    hide CriterionIdentity, CriteriaDistinct, Identity, CriterionWithIdentity, AlreadyScored;
    FoundIsTheOne(lex, d, x.kind.value, x.subject.value);
    assert IsAbout(lex, a, x.kind.value, x.subject.value) && IsAbout(lex, b, x.kind.value, x.subject.value);
  }

  lemma {:induction false} TypeIsAccepted(
      lex: Lexicon, units: seq<SourceUnit>, d: Draft, minted: map<string, Params>, x: ReviewItem, m: Modality)
    requires Covers(units, d) && Inv(lex, units, d, minted) && x in d.needsReview && m in x.allowed
    requires Answerable(lex, units, d, x) && (ScoredAlready(lex, d, x) || CanBeMinted(lex, x))
    requires forall c :: c in Criteria(d) && KeyOf(lex, x) == Some(CriterionIdentity(lex, c)) ==> c.modality == m
    ensures x.spanId.Some? && ResolveModality(lex, d, x.spanId.value, m).Ok?
  {
    var s := x.spanId.value;
    ItemHasItsAmounts(lex, units, d, minted, x, s, m);
    CanDecideNow(lex, units, d, x, m);
    hide Inv, Covers, ResolveModality, CanDecide, Answerable, ScoredAlready, CanBeMinted, KeyOf;
    ModalityAcceptedIff(lex, units, d, minted, s, m);
  }

  lemma {:induction false} CanDecideNow(lex: Lexicon, units: seq<SourceUnit>, d: Draft, x: ReviewItem, m: Modality)
    requires Answerable(lex, units, d, x) && (ScoredAlready(lex, d, x) || CanBeMinted(lex, x)) && ItemReads(units, x, x.spanId.value)
    requires forall c :: c in Criteria(d) && KeyOf(lex, x) == Some(CriterionIdentity(lex, c)) ==> c.modality == m
    ensures CanDecide(lex, units, d, x, x.spanId.value, m)
  {
    var s := x.spanId.value;
    hide StillStands, CriterionIdentity, Identity, Validates, CanBeMinted, Creates, NormalizedLevel;
    TypeDoesNotMatter(lex, x, Params(m, units[s].years, units[s].level));
    assert forall c :: IsAbout(lex, c, x.kind.value, x.subject.value) <==> KeyOf(lex, x) == Some(CriterionIdentity(lex, c));
    assert ScoredAlready(lex, d, x) ==> AlreadyScored(lex, d, x.kind.value, x.subject.value);
  }

  lemma {:induction false} ChoiceIsAccepted(
      lex: Lexicon, units: seq<SourceUnit>, d: Draft, minted: map<string, Params>, y: ReviewItem, k: int)
    requires Covers(units, d) && Inv(lex, units, d, minted) && y in d.needsReview && !y.excluded && Choosable(lex, units, y, k)
    requires !ScoredAlready(lex, d, y)
    ensures y.spanId.Some? && ResolveConflict(lex, d, y.spanId.value, k).Ok? && Open(y)
  {
    PartsOf(lex, units, d, minted);
    assert ReviewOk(units, d, y);
    hide Inv, Covers, ResolveConflict, CriterionIdentity, Identity, Validates, SpansAligned, OptionsAreTheSource,
         ResolutionOk;
    assert IsConflict(y);
    hide ReviewsOk, ReviewOk;
    assert CanChoose(lex, units, d, y, k) by {
      assert forall c :: IsAbout(lex, c, y.kind.value, y.subject.value) ==> KeyOf(lex, y) == Some(CriterionIdentity(lex, c));
    }
    assert OpenConflict(d, y, y.spanId.value);
    ConflictAcceptedIff(lex, units, d, minted, y.spanId.value, k);
  }

  /** The click leaves fewer items open and everything answerable. */
  ghost predicate Advances(lex: Lexicon, units: seq<SourceUnit>, d: Draft, click: Edit) {
    && !click.Message?
    && var e := Apply(lex, d, click);
       AllAnswerable(lex, units, e) && |OpenItems(e)| < |OpenItems(d)|
  }

  lemma {:induction false} TypeAdvances(
      lex: Lexicon, units: seq<SourceUnit>, d: Draft, minted: map<string, Params>, s: SpanId, m: Modality)
    requires Covers(units, d) && Inv(lex, units, d, minted) && AllAnswerable(lex, units, d) && ResolveModality(lex, d, s, m).Ok?
    ensures Advances(lex, units, d, ModalityClick(s, m))
  {
    hide Inv, Covers, ResolveModality, Stands, CanBeMinted, KeyOf, ItemAmounts, CriterionAmounts, CriterionIdentity,
         Creates, ScoredAlready;
    var e := ResolveModality(lex, d, s, m).value;
    var x0, c := TypeAnswers(lex, units, d, e, minted, s, m);
    forall x | x in e.needsReview && x.allowed != []
      ensures Answerable(lex, units, e, x)
    {
      assert Answerable(lex, units, d, x);
      AnswerableAfter(lex, units, d, e, x0, c, x);
    }
    OneFewer(d, e, x0);
  }

  lemma {:induction false} ChoiceAdvances(
      lex: Lexicon, units: seq<SourceUnit>, d: Draft, minted: map<string, Params>, y: ReviewItem, k: int, x: ReviewItem)
    requires Covers(units, d) && Inv(lex, units, d, minted) && AllAnswerable(lex, units, d)
    requires x in d.needsReview && x.allowed != [] && y in d.needsReview && y.spanId.Some? && Open(y)
    requires ResolveConflict(lex, d, y.spanId.value, k).Ok? && KeyOf(lex, y) == KeyOf(lex, x)
    requires 0 <= k < |y.conflictOptions| && OptionAmounts(y.conflictOptions[k]) == ItemAmounts(x)
    ensures Advances(lex, units, d, ConflictChoice(y.spanId.value, k))
  {
    hide Inv, Covers, ResolveConflict, Stands, CanBeMinted, Choosable, KeyOf, ItemAmounts, OptionAmounts, CriterionAmounts, CriterionIdentity, Creates,
         ScoredAlready, Open;
    var e := ResolveConflict(lex, d, y.spanId.value, k).value;
    var x0, c := ChoiceAnswers(lex, units, d, e, minted, y.spanId.value, k);
    OneItemPerSpan(lex, units, d, minted, x0, y);
    forall z | z in e.needsReview && z.allowed != []
      ensures Answerable(lex, units, e, z)
    {
      assert Answerable(lex, units, d, z);
      AnswerableAfter(lex, units, d, e, x0, c, z);
    }
    OneFewer(d, e, x0);
  }

  lemma {:induction false} ExclusionAdvances(
      lex: Lexicon, units: seq<SourceUnit>, d: Draft, minted: map<string, Params>, x: ReviewItem)
    requires Covers(units, d) && Inv(lex, units, d, minted) && x in d.needsReview && Open(x)
    requires forall y :: y in d.needsReview ==> y.allowed == []
    ensures x.spanId.Some? && Advances(lex, units, d, ExcludeClick(x.spanId.value))
  {
    assert x.blocking && x.spanId.Some? by { BlockersAreBound(lex, units, d, minted, x); }
    hide Inv, Covers, Exclude, Answerable;
    hide Advances, AllAnswerable, OpenItems, Open;
    var s := x.spanId.value;
    ExcludeAcceptedIff(lex, units, d, minted, s);
    ExclusionShrinks(lex, units, d, Exclude(d, s).value, minted, s);
    hide *;
    AdvancesByExclusion(lex, units, d, s);
  }

  lemma {:induction false} AdvancesByExclusion(lex: Lexicon, units: seq<SourceUnit>, d: Draft, s: SpanId)
    requires Exclude(d, s).Ok?
    requires AllAnswerable(lex, units, Exclude(d, s).value) && |OpenItems(Exclude(d, s).value)| < |OpenItems(d)|
    ensures Advances(lex, units, d, ExcludeClick(s))
  {
    hide Exclude, AllAnswerable, OpenItems;
  }

  lemma {:induction false} ExclusionShrinks(
      lex: Lexicon, units: seq<SourceUnit>, d: Draft, e: Draft, minted: map<string, Params>, s: SpanId)
    requires Covers(units, d) && Inv(lex, units, d, minted) && Exclude(d, s) == Ok(e)
    requires forall y :: y in d.needsReview ==> y.allowed == []
    ensures AllAnswerable(lex, units, e) && |OpenItems(e)| < |OpenItems(d)|
  {
    hide Inv, Covers, Exclude, AllAnswerable, OpenItems, Open;
    ExclusionAsksTheSame(lex, units, d, e, minted, s);
    NothingAsked(lex, units, d, e);
    var x0 := ExclusionIsCarriedOut(lex, units, d, e, minted, s);
    FewerAfterExclusion(d, e, x0);
  }

  lemma {:induction false} NothingAsked(lex: Lexicon, units: seq<SourceUnit>, d: Draft, e: Draft)
    requires forall y :: y in d.needsReview ==> y.allowed == []
    requires forall y: ReviewItem :: y.allowed != [] ==> (y in d.needsReview <==> y in e.needsReview)
    ensures AllAnswerable(lex, units, e)
  {
    hide Answerable;
  }

  lemma {:induction false} BlockersAreBound(
      lex: Lexicon, units: seq<SourceUnit>, d: Draft, minted: map<string, Params>, x: ReviewItem)
    requires Covers(units, d) && Inv(lex, units, d, minted) && x in d.needsReview && Open(x) && x.allowed == []
    ensures x.blocking && x.spanId.Some?
  {
    PartsOf(lex, units, d, minted);
    hide Inv, Covers, SpansAligned;
    assert ReviewOk(units, d, x);
  }

  lemma {:induction false} FewerAfterExclusion(d: Draft, e: Draft, x: ReviewItem)
    requires x in d.needsReview && x.blocking && !x.excluded && forall y :: y in d.needsReview ==> y.allowed == []
    requires |e.needsReview| == |d.needsReview|
    requires forall i :: 0 <= i < |d.needsReview| ==>
      e.needsReview[i] == if d.needsReview[i] == x then x.(excluded := true) else d.needsReview[i]
    ensures |OpenItems(e)| < |OpenItems(d)|
  {
    forall y | y in e.needsReview && Open(y)
      ensures y in d.needsReview && y != x
    {
      var i :| 0 <= i < |e.needsReview| && e.needsReview[i] == y;
      assert d.needsReview[i] in d.needsReview;
    }
    OneFewer(d, e, x);
  }

  /** While something is open, some click brings the review forward. */
  lemma {:induction false} NextClick(
      lex: Lexicon, units: seq<SourceUnit>, d: Draft, minted: map<string, Params>) returns (click: Edit)
    requires Covers(units, d) && Inv(lex, units, d, minted) && OffersBoth(d)
    requires AllAnswerable(lex, units, d) && NeedsResolution(d)
    ensures Advances(lex, units, d, click)
  {
    hide Inv, Covers, Advances, Stands, CanBeMinted, Choosable, KeyOf, ItemAmounts, OptionAmounts, CriterionAmounts, CriterionIdentity,
         ResolveModality, ResolveConflict;
    if x :| x in d.needsReview && x.allowed != [] {
      assert Answerable(lex, units, d, x);
      if ScoredAlready(lex, d, x) {
        var c :| c in Criteria(d) && KeyOf(lex, x) == Some(CriterionIdentity(lex, c));
        forall b | b in Criteria(d) && KeyOf(lex, x) == Some(CriterionIdentity(lex, b))
          ensures b.modality == c.modality
        {
          OneScored(lex, units, d, minted, x, b, c);
        }
        TypeIsAccepted(lex, units, d, minted, x, c.modality);
        TypeAdvances(lex, units, d, minted, x.spanId.value, c.modality);
        click := ModalityClick(x.spanId.value, c.modality);
      } else {
        click := CreateFor(lex, units, d, minted, x);
      }
    } else {
      var x :| x in d.needsReview && Open(x);
      ExclusionAdvances(lex, units, d, minted, x);
      click := ExcludeClick(x.spanId.value);
    }
  }

  lemma {:induction false} CreateFor(
      lex: Lexicon, units: seq<SourceUnit>, d: Draft, minted: map<string, Params>, x: ReviewItem) returns (click: Edit)
    requires Covers(units, d) && Inv(lex, units, d, minted) && OffersBoth(d) && AllAnswerable(lex, units, d)
    requires x in d.needsReview && x.allowed != [] && !ScoredAlready(lex, d, x)
    ensures Advances(lex, units, d, click)
  {
    hide Inv, Covers, Advances, CanBeMinted, KeyOf, ItemAmounts, OptionAmounts, CriterionAmounts, CriterionIdentity, StillStands, Validates,
         ResolveModality, ResolveConflict;
    assert Answerable(lex, units, d, x);
    var y :| Creates(lex, units, d, y, x);
    if y.allowed != [] && CanBeMinted(lex, y) {
      assert Answerable(lex, units, d, y);
      TypeIsAccepted(lex, units, d, minted, y, MustHave);
      TypeAdvances(lex, units, d, minted, y.spanId.value, MustHave);
      click := ModalityClick(y.spanId.value, MustHave);
    } else {
      var k :| Choosable(lex, units, y, k) && OptionAmounts(y.conflictOptions[k]) == ItemAmounts(x);
      ChoiceIsAccepted(lex, units, d, minted, y, k);
      ChoiceAdvances(lex, units, d, minted, y, k, x);
      click := ConflictChoice(y.spanId.value, k);
    }
  }

  lemma {:induction false} RunAfterFirst(lex: Lexicon, d: Draft, first: Edit, rest: seq<Edit>)
    ensures Run(lex, d, [first] + rest) == Run(lex, Apply(lex, d, first), rest)
  {
    hide Apply;
    var all := [first] + rest;
    if rest == [] {
      assert all[..0] == [] && Run(lex, d, []) == d;
    } else {
      var n := |rest| - 1;
      assert all[..|all| - 1] == [first] + rest[..n];
      RunAfterFirst(lex, d, first, rest[..n]);
    }
  }

  lemma {:induction false} Finished(lex: Lexicon, units: seq<SourceUnit>, d: Draft) returns (clicks: seq<Edit>)
    requires InSession(lex, units, d) && AllAnswerable(lex, units, d)
    ensures AreClicks(clicks) && !NeedsResolution(Run(lex, d, clicks))
    decreases |OpenItems(d)|
  {
    hide Inv, Covers, Apply, AllAnswerable, OffersBoth, NeedsResolution, OpenItems;
    if NeedsResolution(d) {
      var minted :| Inv(lex, units, d, minted);
      var click := NextClick(lex, units, d, minted);
      StaysInSession(lex, units, d, click);
      var rest := Finished(lex, units, Apply(lex, d, click));
      clicks := [click] + rest;
      RunAfterFirst(lex, d, click, rest);
    } else {
      clicks := [];
      assert Run(lex, d, []) == d;
    }
  }

  /**
   Clicks alone can finish the review of a draft if and only if every question it still asks is
   answerable: the shape stands, everything scored or asked about its subject has its amounts, and there
   is or can be a criterion for it.
   */
  lemma {:induction false} ReviewCanBeFinishedIff(lex: Lexicon, units: seq<SourceUnit>, d: Draft)
    requires InSession(lex, units, d)
    ensures (exists clicks :: AreClicks(clicks) && !NeedsResolution(Run(lex, d, clicks))) <==> AllAnswerable(lex, units, d)
  {
    hide InSession, Answerable, Run;
    if clicks :| AreClicks(clicks) && !NeedsResolution(Run(lex, d, clicks)) {
      AnswerableBeforeRun(lex, units, d, clicks);
    }
    if AllAnswerable(lex, units, d) {
      var clicks := Finished(lex, units, d);
    }
  }

  // ------------------------------------------------------------------ from the vacancy text on

  lemma {:induction false} SpokenOffers(u: SourceUnit, c: Canonical, r: SpanResult, x: ReviewItem, i: SpanId)
    requires Speaks(u, c, r, x, i)
    ensures OffersBothOrNone(x)
  {
  }

  lemma {:induction false} ConflictOffersNone(
      lex: Lexicon, units: seq<SourceUnit>, canonical: seq<Canonical>, x: ReviewItem)
    requires ConflictSpeaks(lex, units, canonical, x)
    ensures OffersBothOrNone(x)
  {
    hide InSourceOrder, JoinedText;
  }

  lemma {:induction false} BuiltOffersBoth(lex: Lexicon, text: string, proposals: seq<Proposal>, blank: Draft, d: Draft)
    requires VocabularyOk(lex) && BuiltFrom(lex, text, proposals, blank, d)
    ensures OffersBoth(d)
  {
    ItemsSayTheirSpans(lex, text, proposals, blank, d);
    hide BuiltFrom, VocabularyOk, Canonicalize, OwnItem, Speaks, ConflictSpeaks;
    var units := lex.analyze(text);
    var canonical := Canonicalize(lex, units, proposals);
    forall x | x in d.needsReview
      ensures OffersBothOrNone(x)
    {
      if x.conflictSpans == [] && x.conflictOptions == [] {
        var i: nat :| i < |units| && Speaks(units[i], canonical[i], d.requirements[i], x, i);
        SpokenOffers(units[i], canonical[i], d.requirements[i], x, i);
      } else {
        ConflictOffersNone(lex, units, canonical, x);
      }
    }
  }

  lemma {:induction false} BuiltIsInSession(
      lex: Lexicon, text: string, proposals: seq<Proposal>, blank: Draft, d: Draft)
    requires VocabularyOk(lex) && BuiltFrom(lex, text, proposals, blank, d)
    ensures InSession(lex, lex.analyze(text), d)
  {
    BuiltStartsTheLifecycle(lex, text, proposals, blank, d);
    BuiltOffersBoth(lex, text, proposals, blank, d);
    hide BuiltFrom, VocabularyOk, Inv, Covers, Sourced, MintedOf, SourcesAgree, EvidenceGrounded, OffersBoth;
  }

  lemma {:induction false} SessionGoesOn(lex: Lexicon, units: seq<SourceUnit>, d: Draft, edits: seq<Edit>)
    requires InSession(lex, units, d)
    ensures InSession(lex, units, Run(lex, d, edits))
  {
    hide InSession, Apply;
    if edits != [] {
      SessionGoesOn(lex, units, d, edits[..|edits| - 1]);
      StaysInSession(lex, units, Run(lex, d, edits[..|edits| - 1]), edits[|edits| - 1]);
    }
  }

  /** At any point of any editing session: clicks alone can finish the review exactly when everything asked is answerable. */
  lemma {:induction false} SessionCanBeFinishedIff(
      lex: Lexicon, text: string, proposals: seq<Proposal>, blank: Draft, d: Draft, edits: seq<Edit>)
    requires VocabularyOk(lex) && BuiltFrom(lex, text, proposals, blank, d)
    ensures var e := Run(lex, d, edits);
      (exists clicks :: AreClicks(clicks) && !NeedsResolution(Run(lex, e, clicks))) <==> AllAnswerable(lex, lex.analyze(text), e)
  {
    hide BuiltFrom, VocabularyOk, InSession, AllAnswerable, Run, NeedsResolution;
    BuiltIsInSession(lex, text, proposals, blank, d);
    SessionGoesOn(lex, lex.analyze(text), d, edits);
    ReviewCanBeFinishedIff(lex, lex.analyze(text), Run(lex, d, edits));
  }
}
