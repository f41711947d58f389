/**
 When each choice that a review item puts to HR is accepted, and what it does to the draft: which choices
 a draft leaves open is decided by its items, its criteria and the source.
 */
module DraftChoices {
  import opened Wrappers
  import opened Sequences
  import opened CoreText
  import opened DraftSchemas
  import opened SemanticProvenance
  import opened DraftEditing
  import opened DraftInvariant
  import opened DraftPreservation

  // ------------------------------------------------------------------ the criterion a choice creates

  function Created(id: string, kind: Kind, subject: string, p: Params): Criterion {
    Criterion(id, kind, p.modality, subject, if kind == Experience then None else Some(subject), p.years, p.level)
  }

  /** The schema accepts it; the id does not matter to that. */
  predicate Validates(lex: Lexicon, kind: Kind, subject: string, p: Params) {
    CriterionOk(lex, Created("", kind, subject, p))
  }

  predicate IsAbout(lex: Lexicon, c: Criterion, kind: Kind, subject: string) {
    CriterionIdentity(lex, c) == Identity(lex, kind, Some(subject))
  }

  /** Exactly that criterion joins the list of its type; the others stay as they are. */
  predicate Joins(d: Draft, e: Draft, c: Criterion) {
    && e.mustHave == d.mustHave + (if c.modality == MustHave then [c] else [])
    && e.preferred == d.preferred + (if c.modality == Preferred then [c] else [])
  }

  /** The spans become evidence of `c`; every other span stays as it is. */
  ghost predicate Supports(d: Draft, e: Draft, spans: seq<SpanId>, c: Criterion) {
    && |e.requirements| == |d.requirements|
    && forall i: nat :: i < |d.requirements| ==>
         e.requirements[i] ==
           if i in spans then d.requirements[i].(state := Scorable, modality := Some(c.modality), criterionId := Some(c.id))
           else d.requirements[i]
  }

  /** Item `x` is settled: all the others stay. */
  ghost predicate Settles(d: Draft, e: Draft, x: ReviewItem) {
    forall y :: y in e.needsReview <==> y in d.needsReview && y != x
  }

  /** Apart from its criteria, spans, items and the human's decisions the draft is the same. */
  predicate OnlyEvidenceMoves(d: Draft, e: Draft) {
    e == d.(mustHave := e.mustHave, preferred := e.preferred, needsReview := e.needsReview, requirements := e.requirements,
            decisions := e.decisions, resolutions := e.resolutions)
  }

  // ------------------------------------------------------------------ counting items and spans

  /** Items that claim one span: at most one can match. */
  lemma {:induction false} OneItem(items: seq<ReviewItem>, keep: ReviewItem -> bool, x: ReviewItem, s: SpanId)
    requires forall i, j :: 0 <= i < j < |items| ==> Claims(items[i]) !! Claims(items[j])
    requires x in items && keep(x) && forall y :: y in items && keep(y) ==> s in Claims(y)
    ensures Filter(keep, items) == [x]
  {
    var k :| 0 <= k < |items| && items[k] == x;
    forall i | 0 <= i < |items| && keep(items[i])
      ensures i == k
    {
      assert items[i] in items && s in Claims(items[i]) && s in Claims(items[k]);
      assert !(Claims(items[i]) !! Claims(items[k]));
    }
    FilterSingleton(keep, items, k);
  }

  function Below(spans: set<SpanId>, n: nat): set<SpanId> {
    set i | i in spans && i < n
  }

  /** Spans are numbered by position, so as many results are picked as spans are asked for. */
  lemma {:induction false} SpansCounted(results: seq<SpanResult>, spans: set<SpanId>, n: nat)
    requires n <= |results| && forall i: nat :: i < |results| ==> results[i].spanId == i
    ensures |Filter(ResultWithin(spans), results[..n])| == |Below(spans, n)|
  {
    if n > 0 {
      var last := results[n - 1];
      assert results[..n] == results[..n - 1] + [last];
      SpansCounted(results, spans, n - 1);
      FilterAppend(ResultWithin(spans), results[..n - 1], last);
      if n - 1 in spans {
        assert Below(spans, n) == Below(spans, n - 1) + {n - 1};
      } else {
        assert Below(spans, n) == Below(spans, n - 1);
      }
    }
  }

  lemma {:induction false} AllSpansFound(results: seq<SpanResult>, spans: set<SpanId>)
    requires forall i: nat :: i < |results| ==> results[i].spanId == i
    requires forall i :: i in spans ==> i < |results|
    ensures |Filter(ResultWithin(spans), results)| == |spans|
  {
    SpansCounted(results, spans, |results|);
    assert results[..|results|] == results;
    assert Below(spans, |results|) == spans;
  }

  lemma {:induction false} NamedSpansAreClaimed(units: seq<SourceUnit>, d: Draft)
    requires ReviewsOk(units, d)
    ensures forall x :: x in d.needsReview && x.spanId.Some? ==> x.spanId.value in Claims(x)
  {
    hide ReviewOk, Claims;
    forall x | x in d.needsReview && x.spanId.Some?
      ensures x.spanId.value in Claims(x)
    {
      NamedSpanIsClaimed(units, d, x);
    }
  }

  // ------------------------------------------------------------------ choosing one side of a contradiction

  /** The contradiction that the source puts to HR at span `s`. */
  ghost predicate OpenConflict(d: Draft, x: ReviewItem, s: SpanId) {
    x in d.needsReview && x.spanId == Some(s) && x.conflictOptions != [] && !x.excluded
  }

  /** Option `k` can be chosen: each span grounds the subject, nothing is scored for it yet, and the option makes a valid criterion. */
  ghost predicate CanChoose(lex: Lexicon, units: seq<SourceUnit>, d: Draft, x: ReviewItem, k: int) {
    && 0 <= k < |x.conflictOptions| && x.kind.Some? && x.subject.Some?
    && (x.kind != Some(Experience) ==>
          forall i :: i in x.conflictSpans ==> i < |units| && lex.groundedIn(x.kind.value, x.subject.value, units[i].text))
    && (forall c :: c in Criteria(d) ==> !IsAbout(lex, c, x.kind.value, x.subject.value))
    && Validates(lex, x.kind.value, x.subject.value, x.conflictOptions[k])
  }

  lemma {:induction false} ConflictAcceptedIff(
      lex: Lexicon, units: seq<SourceUnit>, d: Draft, minted: map<string, Params>, s: SpanId, k: int)
    requires Covers(units, d) && Inv(lex, units, d, minted)
    ensures ResolveConflict(lex, d, s, k).Ok? <==> exists x :: OpenConflict(d, x, s) && CanChoose(lex, units, d, x, k)
  {
    hide Inv, ResolveConflict, CanChoose;
    if ResolveConflict(lex, d, s, k).Ok? {
      var x := ChosenItem(lex, units, d, ResolveConflict(lex, d, s, k).value, minted, s, k);
    }
    if x :| OpenConflict(d, x, s) && CanChoose(lex, units, d, x, k) {
      ChoiceIsTaken(lex, units, d, minted, x, s, k);
    }
  }

  lemma {:induction false} PartsOf(lex: Lexicon, units: seq<SourceUnit>, d: Draft, minted: map<string, Params>)
    requires Covers(units, d) && Inv(lex, units, d, minted)
    ensures SpansAligned(units, d) && ReviewsOk(units, d) && |d.requirements| == |units|
    ensures forall u :: u in units ==> u.text != ""
    ensures forall i: nat :: i < |d.requirements| ==> d.requirements[i].spanId == i
  {
    hide CriteriaDistinct, SpansScored, CriteriaSupported, DecisionsOk, ResolutionsOk, AmendmentsOk, ChainReaches,
         ReviewOk;
  }

  lemma {:induction false} ChosenItem(
      lex: Lexicon, units: seq<SourceUnit>, d: Draft, e: Draft, minted: map<string, Params>, s: SpanId, k: int)
      returns (x: ReviewItem)
    requires Covers(units, d) && Inv(lex, units, d, minted) && ResolveConflict(lex, d, s, k) == Ok(e)
    ensures OpenConflict(d, x, s) && CanChoose(lex, units, d, x, k) && ConflictResult(lex, d, e, x, s, k)
    ensures ReviewOk(units, d, x) && IsConflict(x) && s in Claims(x)
  {
    PartsOf(lex, units, d, minted);
    hide Inv, Covers, SpansAligned, ReviewsOk, ResolveConflict, ConflictResult, CriterionWithIdentity, CanChoose;
    x := ConflictGuard(lex, units, d, e, s, k);
    ClearOnceTaken(lex, units, d, e, x, s, k);
  }

  lemma {:induction false} ClearOnceTaken(
      lex: Lexicon, units: seq<SourceUnit>, d: Draft, e: Draft, x: ReviewItem, s: SpanId, k: int)
    requires x.kind.Some? && x.subject.Some? && 0 <= k < |x.conflictOptions| && ConflictResult(lex, d, e, x, s, k)
    requires ReviewOk(units, d, x) && IsConflict(x)
    requires CriterionWithIdentity(lex, d, x.kind.value, x.subject).None?
    requires forall i :: i in Claims(x) ==>
      i < |units| && (x.kind.value != Experience ==> lex.groundedIn(x.kind.value, x.subject.value, units[i].text))
    ensures CanChoose(lex, units, d, x, k)
  {
    AnyIdWillDo(lex, d, x.kind.value, x.subject.value, x.conflictOptions[k]);
    hide CriterionOk, MintedCriterion, WithoutReview, Scored, CriterionIdentity, Identity, OptionsAreTheSource,
         ResolutionOk;
    assert Claims(x) == Elements(x.conflictSpans);
  }

  lemma {:induction false} ChoiceIsTaken(
      lex: Lexicon, units: seq<SourceUnit>, d: Draft, minted: map<string, Params>, x: ReviewItem, s: SpanId, k: int)
    requires Covers(units, d) && Inv(lex, units, d, minted) && OpenConflict(d, x, s) && CanChoose(lex, units, d, x, k)
    ensures ResolveConflict(lex, d, s, k).Ok?
  {
    PartsOf(lex, units, d, minted);
    NamedSpansAreClaimed(units, d);
    assert ReviewOk(units, d, x);
    hide Inv, Covers, CanChoose, ResolveConflict;
    OneItem(d.needsReview, ConflictOf(s), x, s);
    var spans := Elements(x.conflictSpans);
    assert Claims(x) == spans;
    AllSpansFound(d.requirements, spans);
    AwaitingSpans(units, d, spans);
    hide SpansAligned, ReviewsOk, ReviewOk;
    TakenWhenClear(lex, units, d, x, s, k, spans);
  }

  /** The spans a conflict claims are waiting for it, with their own texts. */
  lemma {:induction false} AwaitingSpans(units: seq<SourceUnit>, d: Draft, spans: set<SpanId>)
    requires SpansAligned(units, d) && |d.requirements| == |units| && forall u :: u in units ==> u.text != ""
    requires forall i :: i in spans ==> i < |units| && d.requirements[i].state == NeedsReview
    ensures forall r :: r in d.requirements && r.spanId in spans ==>
      r.spanId < |units| && r.state == NeedsReview && HasText(r.text) && r.text.value == units[r.spanId].text
  {
  }

  lemma {:induction false} TakenWhenClear(
      lex: Lexicon, units: seq<SourceUnit>, d: Draft, x: ReviewItem, s: SpanId, k: int, spans: set<SpanId>)
    requires Filter(ConflictOf(s), d.needsReview) == [x] && !x.excluded && CanChoose(lex, units, d, x, k)
    requires spans == Elements(x.conflictSpans) && |Filter(ResultWithin(spans), d.requirements)| == |spans|
    requires forall r :: r in d.requirements && r.spanId in spans ==>
      r.spanId < |units| && r.state == NeedsReview && HasText(r.text) && r.text.value == units[r.spanId].text
    ensures ResolveConflict(lex, d, s, k).Ok?
  {
    AnyIdWillDo(lex, d, x.kind.value, x.subject.value, x.conflictOptions[k]);
    hide CriterionOk, MintedCriterion, WithoutReview, Scored, CriterionIdentity, Identity, WithCriterion;
    var kind, subject := x.kind.value, x.subject.value;
    NothingFound(lex, d, kind, subject);
    hide CriterionWithIdentity, Validates, IsAbout;
    var results := Filter(ResultWithin(spans), d.requirements);
    assert forall r :: r in results ==> r in d.requirements && r.spanId in spans;
    assert AllAwaiting(results) && (kind != Experience ==> AllGround(lex, kind, subject, results));
    hide AllAwaiting, AllGround, CanChoose, HasText;
  }

  lemma {:induction false} NothingFound(lex: Lexicon, d: Draft, kind: Kind, subject: string)
    requires forall c :: c in Criteria(d) ==> !IsAbout(lex, c, kind, subject)
    ensures CriterionWithIdentity(lex, d, kind, Some(subject)).None?
  {
    hide CriterionIdentity, Identity;
  }

  lemma {:induction false} AnyIdWillDo(lex: Lexicon, d: Draft, kind: Kind, subject: string, p: Params)
    ensures CriterionOk(lex, MintedCriterion(lex, d, kind, subject, p, p.level)) <==> Validates(lex, kind, subject, p)
  {
    hide Slug, SlugBase;
  }

  /** The criterion has the type and the amounts of that source span. */
  predicate TakenFrom(c: Criterion, u: SourceUnit) {
    u.modality == Some(c.modality) && c.years == u.years && c.level == NormalizedLevel(u.level)
  }

  /**
   The choice, carried out: one new criterion with the option's parameters, which one of the spans states;
   every span of the contradiction becomes evidence of it, the item is settled, and the choice is recorded.
   */
  lemma {:induction false} ChoiceIsCarriedOut(
      lex: Lexicon, units: seq<SourceUnit>, d: Draft, e: Draft, minted: map<string, Params>, s: SpanId, k: int)
      returns (x: ReviewItem, c: Criterion)
    requires Covers(units, d) && Inv(lex, units, d, minted) && ResolveConflict(lex, d, s, k) == Ok(e)
    ensures OpenConflict(d, x, s) && CanChoose(lex, units, d, x, k)
    ensures c == Created(c.id, x.kind.value, x.subject.value, x.conflictOptions[k]) && IsCriterionId(c.id) && c.id !in Ids(d)
    ensures exists i :: i in x.conflictSpans && i < |units| && TakenFrom(c, units[i])
    ensures Joins(d, e, c) && Supports(d, e, x.conflictSpans, c) && Settles(d, e, x) && OnlyEvidenceMoves(d, e)
    ensures e.decisions == d.decisions && e.resolutions == d.resolutions + [Resolution(x.conflictSpans, x.conflictOptions, k)]
  {
    x := ChosenItem(lex, units, d, e, minted, s, k);
    var kind, subject, p := x.kind.value, x.subject.value, x.conflictOptions[k];
    c := MintedCriterion(lex, d, kind, subject, p, p.level);
    PartsOf(lex, units, d, minted);
    MintedIsCreated(lex, units, d, minted, kind, subject, p);
    hide Inv, Covers, SpansAligned, ResolveConflict, CanChoose, ConflictResult, ReviewsOk, OptionsAreTheSource, MintedCriterion,
         Joins, Supports, Settles, OnlyEvidenceMoves;
    var i := OptionIsStated(units, d, x, k);
    assert TakenFrom(c, units[i]);
    hide ReviewOk;
    SettledBy(units, d, x, s);
    EffectOfChoice(lex, d, e, x, s, k);
  }

  /** The id is free, the rest is the item's and the option's. */
  lemma {:induction false} MintedIsCreated(
      lex: Lexicon, units: seq<SourceUnit>, d: Draft, minted: map<string, Params>, kind: Kind, subject: string, p: Params)
    requires Covers(units, d) && Inv(lex, units, d, minted)
    ensures var c := MintedCriterion(lex, d, kind, subject, p, p.level);
      c == Created(c.id, kind, subject, p) && IsCriterionId(c.id) && c.id !in Ids(d) && IsAbout(lex, c, kind, subject)
  {
    SlugIsFree(lex, units, d, minted, subject);
    hide Inv, Covers, Slug, SlugBase, Ids, IsCriterionId;
  }

  lemma {:induction false} EffectOfChoice(lex: Lexicon, d: Draft, e: Draft, x: ReviewItem, s: SpanId, k: int)
    requires x.kind.Some? && x.subject.Some? && 0 <= k < |x.conflictOptions| && ConflictResult(lex, d, e, x, s, k)
    requires Settles(d, d.(needsReview := WithoutReview(d.needsReview, s)), x)
    requires forall i: nat :: i < |d.requirements| ==> d.requirements[i].spanId == i
    ensures var p := x.conflictOptions[k];
      var c := MintedCriterion(lex, d, x.kind.value, x.subject.value, p, p.level);
      && Joins(d, e, c) && Supports(d, e, x.conflictSpans, c) && Settles(d, e, x) && OnlyEvidenceMoves(d, e)
      && e.decisions == d.decisions && e.resolutions == d.resolutions + [Resolution(x.conflictSpans, x.conflictOptions, k)]
  {
    hide CriterionOk, WithoutReview, Slug, SlugBase, Ids;
    assert d.mustHave + [] == d.mustHave && d.preferred + [] == d.preferred;
  }

  lemma {:induction false} SettledBy(units: seq<SourceUnit>, d: Draft, x: ReviewItem, s: SpanId)
    requires ReviewsOk(units, d) && x in d.needsReview && x.spanId == Some(s)
    ensures Settles(d, d.(needsReview := WithoutReview(d.needsReview, s)), x)
  {
    NamedSpansAreClaimed(units, d);
    hide ReviewOk, Claims;
    forall y | y in d.needsReview && y.spanId == Some(s)
      ensures y == x
    {
      SameClaim(d.needsReview, x, y, s);
    }
  }

  lemma {:induction false} SlugIsFree(
      lex: Lexicon, units: seq<SourceUnit>, d: Draft, minted: map<string, Params>, subject: string)
    requires Covers(units, d) && Inv(lex, units, d, minted)
    ensures var id := Slug(SlugBase(lex.foldedLabel(subject)), Ids(d)); id !in Ids(d) && IsCriterionId(id)
  {
    hide SpansAligned, CriteriaDistinct, SpansScored, CriteriaSupported, DecisionsOk, ResolutionsOk, ReviewsOk, AmendmentsOk, ChainReaches,
         Slug, SlugBase, IsCriterionId;
    CoversBounded(units, d);
    IdsBounded(lex, units, d, minted);
    SlugIsFresh(lex.foldedLabel(subject), Ids(d));
  }

  lemma {:induction false} OptionIsStated(units: seq<SourceUnit>, d: Draft, x: ReviewItem, k: int) returns (i: SpanId)
    requires ReviewOk(units, d, x) && IsConflict(x) && 0 <= k < |x.conflictOptions|
    ensures var p := x.conflictOptions[k];
      i in x.conflictSpans && i < |units| && units[i].modality == Some(p.modality)
      && p.years == units[i].years && p.level == NormalizedLevel(units[i].level)
  {
    var r := Resolution(x.conflictSpans, x.conflictOptions, 0);
    assert x.conflictOptions[k] in Elements(r.options);
    assert x.conflictOptions[k] in SourceOptions(units, r.spans);
    i :| i in r.spans && x.conflictOptions[k] == OptionOf(units[i]);
  }

  /** A span is asked about by one item at most. */
  lemma {:induction false} OneItemPerSpan(
      lex: Lexicon, units: seq<SourceUnit>, d: Draft, minted: map<string, Params>, x: ReviewItem, y: ReviewItem)
    requires Covers(units, d) && Inv(lex, units, d, minted) && x in d.needsReview && y in d.needsReview
    requires x.spanId.Some? && y.spanId == x.spanId
    ensures x == y
  {
    PartsOf(lex, units, d, minted);
    hide Inv, Covers, SpansAligned, ReviewOk, Claims;
    NamedSpansAreClaimed(units, d);
    SameClaim(d.needsReview, x, y, x.spanId.value);
  }

  // ------------------------------------------------------------------ giving the type the source left out

  /** The item of span `s` asks for a type, and `m` is one it allows. */
  ghost predicate AsksFor(d: Draft, x: ReviewItem, s: SpanId, m: Modality) {
    x in d.needsReview && x.spanId == Some(s) && m in x.allowed
  }

  /** The criterion has type `m` and the amounts that the source span states. */
  predicate Says(c: Criterion, m: Modality, u: SourceUnit) {
    c.modality == m && c.years == u.years && NormalizedLevel(c.level) == NormalizedLevel(u.level)
  }

  /** The vocabulary still accepts the subject in the words of the span. */
  predicate StillStands(lex: Lexicon, kind: Kind, subject: string, text: string) {
    && kind != Other
    && !lex.nonProfessional(text)
    && (kind == Experience || (lex.canonicalTerm(kind, subject) && lex.groundedIn(kind, subject, text)))
    && (text == "" || !lex.prohibited(text)) && (subject == "" || !lex.prohibited(subject))
  }

  ghost predicate AlreadyScored(lex: Lexicon, d: Draft, kind: Kind, subject: string) {
    exists c :: c in Criteria(d) && IsAbout(lex, c, kind, subject)
  }

  /** Type `m` can be given: the shape still stands, and a criterion about it says the same or, if none exists, can be created. */
  ghost predicate CanDecide(lex: Lexicon, units: seq<SourceUnit>, d: Draft, x: ReviewItem, s: SpanId, m: Modality) {
    && s < |units| && x.kind.Some? && x.subject.Some?
    && StillStands(lex, x.kind.value, x.subject.value, units[s].text)
    && (forall c :: c in Criteria(d) && IsAbout(lex, c, x.kind.value, x.subject.value) ==> Says(c, m, units[s]))
    && (!AlreadyScored(lex, d, x.kind.value, x.subject.value) ==>
          Validates(lex, x.kind.value, x.subject.value, Params(m, units[s].years, units[s].level)))
  }

  lemma {:induction false} ModalityAcceptedIff(
      lex: Lexicon, units: seq<SourceUnit>, d: Draft, minted: map<string, Params>, s: SpanId, m: Modality)
    requires Covers(units, d) && Inv(lex, units, d, minted)
    ensures ResolveModality(lex, d, s, m).Ok? <==> exists x :: AsksFor(d, x, s, m) && CanDecide(lex, units, d, x, s, m)
  {
    hide Inv, ResolveModality, CanDecide;
    if ResolveModality(lex, d, s, m).Ok? {
      var x := DecidedItem(lex, units, d, ResolveModality(lex, d, s, m).value, minted, s, m);
    }
    if x :| AsksFor(d, x, s, m) && CanDecide(lex, units, d, x, s, m) {
      DecisionIsTaken(lex, units, d, minted, x, s, m);
    }
  }

  lemma {:induction false} DecidedItem(
      lex: Lexicon, units: seq<SourceUnit>, d: Draft, e: Draft, minted: map<string, Params>, s: SpanId, m: Modality)
      returns (x: ReviewItem)
    requires Covers(units, d) && Inv(lex, units, d, minted) && ResolveModality(lex, d, s, m) == Ok(e)
    ensures AsksFor(d, x, s, m) && CanDecide(lex, units, d, x, s, m) && ModalityResult(lex, d, e, x, s, m)
    ensures ItemReads(units, x, s)
  {
    PartsOf(lex, units, d, minted);
    CriteriaApart(lex, units, d, minted);
    hide Inv, Covers, SpansAligned, ReviewsOk, ResolveModality, ModalityResult, CanDecide, ShapeRevalidates,
         CriteriaDistinct;
    x := ModalityGuard(lex, units, d, e, s, m);
    AllowedReads(units, d, x, s, m);
    StandsMeans(lex, x.kind.value, x.subject.value, units[s].text);
    FitOnceDecided(lex, units, d, e, x, s, m);
  }

  predicate ItemReads(units: seq<SourceUnit>, x: ReviewItem, s: SpanId) {
    s < |units| && x.kind.Some? && x.subject.Some? && x.years == units[s].years && x.level == units[s].level
  }

  lemma {:induction false} AllowedReads(units: seq<SourceUnit>, d: Draft, x: ReviewItem, s: SpanId, m: Modality)
    requires ReviewOk(units, d, x) && m in x.allowed && x.spanId == Some(s)
    ensures ItemReads(units, x, s) && Claims(x) == {s} && s < |units|
    ensures s < |d.requirements| ==> d.requirements[s].state == NeedsReview
  {
    assert x.allowed != [];
  }

  lemma {:induction false} StandsMeans(lex: Lexicon, kind: Kind, subject: string, text: string)
    ensures ShapeRevalidates(lex, kind, subject, text) <==> StillStands(lex, kind, subject, text)
  {
  }

  lemma {:induction false} CriteriaApart(lex: Lexicon, units: seq<SourceUnit>, d: Draft, minted: map<string, Params>)
    requires Covers(units, d) && Inv(lex, units, d, minted)
    ensures CriteriaDistinct(lex, d)
  {
    hide SpansAligned, CriteriaDistinct, SpansScored, CriteriaSupported, DecisionsOk, ResolutionsOk, ReviewsOk,
         AmendmentsOk, ChainReaches;
  }

  /** The criterion the code finds is the only one about the subject. */
  lemma {:induction false} FoundIsTheOne(lex: Lexicon, d: Draft, kind: Kind, subject: string)
    requires CriteriaDistinct(lex, d)
    ensures var found := CriterionWithIdentity(lex, d, kind, Some(subject));
      && (found.Some? <==> AlreadyScored(lex, d, kind, subject))
      && (found.Some? ==> found.value in Criteria(d) && IsAbout(lex, found.value, kind, subject))
      && forall c :: c in Criteria(d) && IsAbout(lex, c, kind, subject) ==> found == Some(c)
  {
    hide Identity, CriterionIdentity, CriterionOk, IsCriterionId, LevelPresent;
    var found := CriterionWithIdentity(lex, d, kind, Some(subject));
    forall c | c in Criteria(d) && IsAbout(lex, c, kind, subject)
      ensures found == Some(c)
    {
      var i :| 0 <= i < |Criteria(d)| && Criteria(d)[i] == c;
      var j :| 0 <= j < |Criteria(d)| && Criteria(d)[j] == found.value;
      assert i == j;
    }
  }

  lemma {:induction false} SaysMeans(c: Criterion, m: Modality, u: SourceUnit)
    ensures Says(c, m, u) <==> ParamsOf(c) == SemanticParameters(m, u.years, u.level)
  {
  }

  lemma {:induction false} FitOnceDecided(
      lex: Lexicon, units: seq<SourceUnit>, d: Draft, e: Draft, x: ReviewItem, s: SpanId, m: Modality)
    requires CriteriaDistinct(lex, d) && ItemReads(units, x, s) && ModalityResult(lex, d, e, x, s, m)
    requires StillStands(lex, x.kind.value, x.subject.value, units[s].text)
    ensures CanDecide(lex, units, d, x, s, m)
  {
    var kind, subject := x.kind.value, x.subject.value;
    FoundIsTheOne(lex, d, kind, subject);
    AnyIdWillDo(lex, d, kind, subject, Params(m, x.years, x.level));
    forall c ensures Says(c, m, units[s]) <==> ParamsOf(c) == SemanticParameters(m, x.years, x.level) { SaysMeans(c, m, units[s]); }
    hide CriterionWithIdentity, MintedCriterion, CriterionOk, WithoutReview, WithDecision, Scored, Says, ParamsOf, SemanticParameters,
         IsAbout, StillStands, Validates, CriteriaDistinct;
  }

  lemma {:induction false} DecisionIsTaken(
      lex: Lexicon, units: seq<SourceUnit>, d: Draft, minted: map<string, Params>, x: ReviewItem, s: SpanId, m: Modality)
    requires Covers(units, d) && Inv(lex, units, d, minted) && AsksFor(d, x, s, m) && CanDecide(lex, units, d, x, s, m)
    ensures ResolveModality(lex, d, s, m).Ok?
  {
    PartsOf(lex, units, d, minted);
    CriteriaApart(lex, units, d, minted);
    NamedSpansAreClaimed(units, d);
    assert ReviewOk(units, d, x);
    hide Inv, Covers, CanDecide, ResolveModality, CriteriaDistinct;
    OneItem(d.needsReview, ItemOf(s), x, s);
    AllowedReads(units, d, x, s, m);
    OneSpan(units, d, s);
    hide SpansAligned, ReviewsOk, ReviewOk, Claims;
    TakenWhenFit(lex, units, d, x, s, m);
  }

  lemma {:induction false} OneSpan(units: seq<SourceUnit>, d: Draft, s: SpanId)
    requires SpansAligned(units, d) && s < |d.requirements| && d.requirements[s].state == NeedsReview
    ensures Filter(ResultOf(s), d.requirements) == [d.requirements[s]] && d.requirements[s].text == Some(units[s].text)
  {
    FilterSingleton(ResultOf(s), d.requirements, s);
  }

  lemma {:induction false} TakenWhenFit(
      lex: Lexicon, units: seq<SourceUnit>, d: Draft, x: ReviewItem, s: SpanId, m: Modality)
    requires CriteriaDistinct(lex, d) && ItemReads(units, x, s) && m in x.allowed && CanDecide(lex, units, d, x, s, m)
    requires Filter(ItemOf(s), d.needsReview) == [x] && s < |d.requirements|
    requires Filter(ResultOf(s), d.requirements) == [d.requirements[s]]
    requires d.requirements[s].state == NeedsReview && d.requirements[s].text == Some(units[s].text)
    ensures ResolveModality(lex, d, s, m).Ok?
  {
    var kind, subject := x.kind.value, x.subject.value;
    FoundIsTheOne(lex, d, kind, subject);
    AnyIdWillDo(lex, d, kind, subject, Params(m, x.years, x.level));
    StandsMeans(lex, kind, subject, units[s].text);
    forall c ensures Says(c, m, units[s]) <==> ParamsOf(c) == SemanticParameters(m, x.years, x.level) { SaysMeans(c, m, units[s]); }
    hide CriterionWithIdentity, MintedCriterion, CriterionOk, WithoutReview, WithDecision, Scored, Says, ParamsOf, SemanticParameters,
         IsAbout, StillStands, ShapeRevalidates, Validates, CriteriaDistinct;
  }

  /**
   The decision, carried out: the span becomes evidence of the criterion about its subject, a new one when
   there was none; the item is settled, and the type given is the one decision about the span.
   */
  lemma {:induction false} DecisionIsCarriedOut(
      lex: Lexicon, units: seq<SourceUnit>, d: Draft, e: Draft, minted: map<string, Params>, s: SpanId, m: Modality)
      returns (x: ReviewItem, c: Criterion)
    requires Covers(units, d) && Inv(lex, units, d, minted) && ResolveModality(lex, d, s, m) == Ok(e)
    ensures AsksFor(d, x, s, m) && CanDecide(lex, units, d, x, s, m)
    ensures Says(c, m, units[s]) && IsAbout(lex, c, x.kind.value, x.subject.value)
    ensures if AlreadyScored(lex, d, x.kind.value, x.subject.value)
            then c in Criteria(d) && e.mustHave == d.mustHave && e.preferred == d.preferred
            else c == Created(c.id, x.kind.value, x.subject.value, Params(m, units[s].years, units[s].level))
                 && IsCriterionId(c.id) && c.id !in Ids(d) && Joins(d, e, c)
    ensures Supports(d, e, [s], c) && Settles(d, e, x) && OnlyEvidenceMoves(d, e) && e.resolutions == d.resolutions
    ensures forall y :: y in e.decisions <==>
      (y in d.decisions && y.spanId != s) || y == Decision(s, if m == MustHave then ChoseMustHave else ChosePreferred)
  {
    x := DecidedItem(lex, units, d, e, minted, s, m);
    var kind, subject := x.kind.value, x.subject.value;
    PartsOf(lex, units, d, minted);
    CriteriaApart(lex, units, d, minted);
    MintedIsCreated(lex, units, d, minted, kind, subject, Params(m, x.years, x.level));
    hide Inv, Covers, SpansAligned, ResolveModality, CanDecide, CriteriaDistinct, Joins, Supports, Settles, OnlyEvidenceMoves,
         CriterionWithIdentity, MintedCriterion, ModalityResult, Says, WithDecision;
    FoundIsTheOne(lex, d, kind, subject);
    var found := CriterionWithIdentity(lex, d, kind, Some(subject));
    c := if found.Some? then found.value else MintedCriterion(lex, d, kind, subject, Params(m, x.years, x.level), x.level);
    SaysMeans(c, m, units[s]);
    SettledBy(units, d, x, s);
    hide ReviewsOk;
    DecisionsApart(lex, units, d, minted);
    WithDecisionFacts(d.decisions, s, VerdictOf(m));
    EffectOfDecision(lex, d, e, x, s, m);
    assert Says(c, m, units[s]) by { DecidedSays(lex, d, e, units, x, s, m); }
  }

  lemma {:induction false} DecisionsApart(lex: Lexicon, units: seq<SourceUnit>, d: Draft, minted: map<string, Params>)
    requires Inv(lex, units, d, minted)
    ensures DecisionsOnce(d.decisions)
  {
    hide SpansAligned, CriteriaDistinct, SpansScored, CriteriaSupported, ResolutionsOk, ReviewsOk, AmendmentsOk,
         ChainReaches, DecisionsOnce;
  }

  lemma {:induction false} DecidedSays(
      lex: Lexicon, d: Draft, e: Draft, units: seq<SourceUnit>, x: ReviewItem, s: SpanId, m: Modality)
    requires ItemReads(units, x, s) && ModalityResult(lex, d, e, x, s, m)
    ensures var found := CriterionWithIdentity(lex, d, x.kind.value, x.subject);
      Says(if found.Some? then found.value else MintedCriterion(lex, d, x.kind.value, x.subject.value, Params(m, x.years, x.level), x.level),
           m, units[s])
  {
    hide CriterionOk, CriterionWithIdentity, WithoutReview, WithDecision, Scored, Slug, SlugBase, NormalizedLevel;
  }

  lemma {:induction false} EffectOfDecision(lex: Lexicon, d: Draft, e: Draft, x: ReviewItem, s: SpanId, m: Modality)
    requires x.kind.Some? && x.subject.Some? && ModalityResult(lex, d, e, x, s, m)
    requires Settles(d, d.(needsReview := WithoutReview(d.needsReview, s)), x)
    requires forall i: nat :: i < |d.requirements| ==> d.requirements[i].spanId == i
    ensures var found := CriterionWithIdentity(lex, d, x.kind.value, x.subject);
      var c := if found.Some? then found.value
               else MintedCriterion(lex, d, x.kind.value, x.subject.value, Params(m, x.years, x.level), x.level);
      && (if found.Some? then e.mustHave == d.mustHave && e.preferred == d.preferred else Joins(d, e, c))
      && Supports(d, e, [s], c) && Settles(d, e, x) && OnlyEvidenceMoves(d, e)
      && e.decisions == WithDecision(d.decisions, s, VerdictOf(m)) && e.resolutions == d.resolutions
  {
    hide CriterionOk, WithoutReview, WithDecision, CriterionWithIdentity, Slug, SlugBase, Ids;
    assert d.mustHave + [] == d.mustHave && d.preferred + [] == d.preferred;
  }

  // ------------------------------------------------------------------ setting a blocking requirement aside

  lemma {:induction false} ExcludeAcceptedIff(
      lex: Lexicon, units: seq<SourceUnit>, d: Draft, minted: map<string, Params>, s: SpanId)
    requires Covers(units, d) && Inv(lex, units, d, minted)
    ensures Exclude(d, s).Ok? <==> exists x :: x in d.needsReview && x.spanId == Some(s) && x.blocking && !x.excluded
  {
    PartsOf(lex, units, d, minted);
    NamedSpansAreClaimed(units, d);
    hide Inv, Covers, SpansAligned, ReviewOk, Claims;
    var matches := Filter(ItemOf(s), d.needsReview);
    if Exclude(d, s).Ok? {
      assert matches[0] in matches;
    }
    if x :| x in d.needsReview && x.spanId == Some(s) && x.blocking && !x.excluded {
      OneItem(d.needsReview, ItemOf(s), x, s);
    }
  }

  /** Setting aside marks that one item and records it; nothing is scored and no item goes. */
  lemma {:induction false} ExclusionIsCarriedOut(
      lex: Lexicon, units: seq<SourceUnit>, d: Draft, e: Draft, minted: map<string, Params>, s: SpanId) returns (x: ReviewItem)
    requires Covers(units, d) && Inv(lex, units, d, minted) && Exclude(d, s) == Ok(e)
    ensures x in d.needsReview && x.spanId == Some(s) && x.blocking && !x.excluded
    ensures |e.needsReview| == |d.needsReview|
    ensures forall i :: 0 <= i < |d.needsReview| ==>
      e.needsReview[i] == if d.needsReview[i] == x then x.(excluded := true) else d.needsReview[i]
    ensures e == d.(needsReview := e.needsReview, decisions := e.decisions)
    ensures forall y :: y in e.decisions <==> y in d.decisions || y == Decision(s, ExcludedByReviewer)
  {
    PartsOf(lex, units, d, minted);
    NamedSpansAreClaimed(units, d);
    ExcludeKeepsInv(lex, units, d, e, minted, s);
    hide Inv, Covers, SpansAligned, ReviewOk, Claims, WithDecision;
    var matches := Filter(ItemOf(s), d.needsReview);
    x := matches[0];
    assert x in matches;
    forall i | 0 <= i < |d.needsReview| && d.needsReview[i].spanId == Some(s)
      ensures d.needsReview[i] == x
    {
      SameClaim(d.needsReview, x, d.needsReview[i], s);
    }
  }
}
