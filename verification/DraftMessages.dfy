/**
 What a follow-up message does to a pending draft: which one criterion it can mean, which one field of it
 changes and to what, and when the message is turned down instead.
 */
module DraftMessages {
  import opened Wrappers
  import opened Sequences
  import opened CoreText
  import opened YearValues
  import opened DraftSchemas
  import opened SemanticProvenance
  import opened DraftEditing
  import opened DraftInvariant
  import opened DraftPreservation
  import opened DraftAmendments

  // ------------------------------------------------------------------ the criterion a message can mean

  predicate SameWord(a: string, b: string) {
    Upper(a) == Upper(b)
  }

  /** A language at this level; one without a level counts as the empty word. */
  predicate AtLevel(c: Criterion, level: string) {
    c.kind == Language && SameWord(if c.level.Some? then c.level.value else "", level)
  }

  predicate LastsFor(c: Criterion, years: real) {
    (c.kind == SkillExperience || c.kind == DomainExperience) && c.years == Some(years)
  }

  /** The message counts people or results, and has an old and a new number. */
  predicate SetsLimit(m: Reading) {
    |m.integers| >= 2 && m.hasResultNoun
  }

  /** Named outright; else identified by the old level; else, when no levels are given, by the old number of years. */
  predicate Identifies(d: Draft, m: Reading, c: Criterion) {
    if exists x :: x in Criteria(d) && m.mentions(x) then m.mentions(c)
    else if |m.levels| >= 2 then AtLevel(c, m.levels[0])
    else |m.numbers| >= 2 && LastsFor(c, m.numbers[0])
  }

  /** A criterion the message can mean: an identified one, else, spoken of only as "this requirement", one of the other type. */
  predicate CanMean(d: Draft, m: Reading, c: Criterion) {
    && c in Criteria(d)
    && if exists x :: x in Criteria(d) && Identifies(d, m, x) then Identifies(d, m, c)
       else m.contextOnly && m.requestedType.Some? && c.modality != m.requestedType.value
  }

  /** There is one criterion that the message can mean, and it is `c`. */
  ghost predicate MeansOnly(d: Draft, m: Reading, c: Criterion) {
    CanMean(d, m, c) && forall x :: CanMean(d, m, x) ==> x == c
  }

  // ------------------------------------------------------------------ the change it asks for

  /** `after` is `c` with the one field changed that the message is about, to the last value it gives. */
  predicate AsksFor(m: Reading, c: Criterion, after: Criterion) {
    if c.kind == Language && |m.levels| >= 2 then
      && c.level.Some? && SameWord(c.level.value, m.levels[0])
      && after == c.(level := Some(Upper(m.levels[|m.levels| - 1])))
    else if |m.numbers| >= 2 && LastsFor(c, m.numbers[0]) then
      after == c.(years := Some(m.numbers[|m.numbers| - 1]))
    else
      m.requestedType.Some? && m.requestedType.value != c.modality && after == c.(modality := m.requestedType.value)
  }

  /** The change can be written down: as text the two values differ, and both are well formed. */
  predicate CanBeRecorded(c: Criterion, after: Criterion) {
    if c.modality != after.modality then true
    else if c.years != after.years then
      && c.years.Some? && after.years.Some?
      && ToSixDigits(c.years.value) != ToSixDigits(after.years.value)
      && YearsTextOk(ToSixDigits(c.years.value)) && YearsTextOk(ToSixDigits(after.years.value))
    else
      && c.level.Some? && after.level.Some?
      && UpperStrip(c.level.value) != UpperStrip(after.level.value)
      && LevelTextOk(UpperStrip(c.level.value)) && LevelTextOk(UpperStrip(after.level.value))
  }

  /** The amendment says what changed from what to what, as text. */
  predicate Describes(change: Change, c: Criterion, after: Criterion) {
    match change
    case TypeChange(from, to) => from == c.modality && to == after.modality && after == c.(modality := to)
    case YearsChange(from, to) =>
      && c.years.Some? && after.years.Some? && after == c.(years := after.years)
      && from == ToSixDigits(c.years.value) && to == ToSixDigits(after.years.value)
    case LevelChange(from, to) =>
      && c.level.Some? && after.level.Some? && after == c.(level := after.level)
      && from == UpperStrip(c.level.value) && to == UpperStrip(after.level.value)
  }

  // ------------------------------------------------------------------ the target

  lemma {:induction false} TargetsAreMeant(d: Draft, m: Reading, c: Criterion)
    ensures c in Targets(d, m) <==> CanMean(d, m, c)
  {
    var all := Criteria(d);
    IdentifiedAre(d, m);
    var mentioned := Filter(m.mentions, all);
    var byValue :=
      if mentioned == [] && |m.levels| >= 2 then
        Filter(WithLevel(m.levels[0]), all)
      else if mentioned == [] && |m.numbers| >= 2 then
        Filter(WithYears(m.numbers[0]), all)
      else mentioned;
    assert forall x :: x in byValue <==> x in all && Identifies(d, m, x);
    if byValue != [] { assert byValue[0] in byValue; }
    hide Identifies;
  }

  lemma {:induction false} IdentifiedAre(d: Draft, m: Reading)
    ensures Filter(m.mentions, Criteria(d)) == [] <==> !exists x :: x in Criteria(d) && m.mentions(x)
  {
    var mentioned := Filter(m.mentions, Criteria(d));
    if mentioned != [] { assert mentioned[0] in mentioned; }
    if x :| x in Criteria(d) && m.mentions(x) { assert x in mentioned; }
  }

  /** Every list of targets is a filtering of the criteria, so no criterion is in it twice. */
  lemma {:induction false} TargetsAreDistinct(lex: Lexicon, d: Draft, m: Reading, i: nat, j: nat)
    requires CriteriaDistinct(lex, d) && i < j < |Targets(d, m)|
    ensures Targets(d, m)[i] != Targets(d, m)[j]
  {
    hide CriteriaDistinct, WithLevel, WithYears, OfOtherType;
    var targets := Targets(d, m);
    if targets == Filter(m.mentions, Criteria(d)) {
      FilteredApart(lex, d, m.mentions, i, j);
    } else if |m.levels| >= 2 && targets == Filter(WithLevel(m.levels[0]), Criteria(d)) {
      FilteredApart(lex, d, WithLevel(m.levels[0]), i, j);
    } else if |m.numbers| >= 2 && targets == Filter(WithYears(m.numbers[0]), Criteria(d)) {
      FilteredApart(lex, d, WithYears(m.numbers[0]), i, j);
    } else {
      FilteredApart(lex, d, OfOtherType(m.requestedType.value), i, j);
    }
  }

  lemma {:induction false} FilteredApart(lex: Lexicon, d: Draft, keep: Criterion -> bool, i: nat, j: nat)
    requires CriteriaDistinct(lex, d) && i < j < |Filter(keep, Criteria(d))|
    ensures Filter(keep, Criteria(d))[i] != Filter(keep, Criteria(d))[j]
  {
    var i', j' := FilterPair(keep, Criteria(d), i, j);
  }

  /** One target, and it is `c`, exactly when `c` is the one criterion that the message can mean. */
  lemma {:induction false} OneTargetIff(lex: Lexicon, d: Draft, m: Reading, c: Criterion)
    requires CriteriaDistinct(lex, d)
    ensures Targets(d, m) == [c] <==> MeansOnly(d, m, c)
  {
    var targets := Targets(d, m);
    forall x ensures x in targets <==> CanMean(d, m, x) { TargetsAreMeant(d, m, x); }
    hide Targets, CanMean, CriteriaDistinct;
    if MeansOnly(d, m, c) {
      assert c in targets;
      if |targets| >= 2 {
        assert targets[0] in targets && targets[1] in targets;
        TargetsAreDistinct(lex, d, m, 0, 1);
      }
      assert targets[0] in targets;
    }
    if targets == [c] {
      assert c in targets;
      forall x | CanMean(d, m, x) ensures x == c { assert x in targets; }
    }
  }

  // ------------------------------------------------------------------ the change

  lemma {:induction false} ChangeIsAskedFor(lex: Lexicon, c: Criterion, m: Reading, f: FieldChange)
    requires CriterionOk(lex, c) && RequestedChange(c, m) == Some(f)
    ensures AsksFor(m, c, ApplyField(c, f))
    ensures EncodedChange(c, f).Some? ==> Describes(EncodedChange(c, f).value, c, ApplyField(c, f))
    ensures EncodedChange(c, f).Some? && ChangeOk(EncodedChange(c, f).value) <==> CanBeRecorded(c, ApplyField(c, f))
  {
    hide ToSixDigits, YearsTextOk, LevelTextOk, UpperStrip, Upper;
  }

  lemma {:induction false} AskedForIsChange(lex: Lexicon, c: Criterion, m: Reading, after: Criterion)
    requires CriterionOk(lex, c) && AsksFor(m, c, after)
    ensures RequestedChange(c, m).Some? && ApplyField(c, RequestedChange(c, m).value) == after
  {
    hide Upper;
  }

  /** Every criterion has a span, the first of which the amendment names. */
  lemma {:induction false} HasSpan(
      lex: Lexicon, units: seq<SourceUnit>, d: Draft, minted: map<string, Params>, c: Criterion)
    requires Inv(lex, units, d, minted) && c in Criteria(d)
    ensures Filter(Naming(c.id), d.requirements) != []
  {
    hide SpanOrigin, CriteriaDistinct, SpansScored, DecisionsOk, ResolutionsOk, ReviewsOk, AmendmentsOk, ChainReaches;
    var i: nat :| MintedFrom(units, d, i, c, minted);
    assert d.requirements[i] in Filter(Naming(c.id), d.requirements);
  }

  /**
   A message about criteria is accepted if and only if it asks for a change, there is exactly one criterion
   it can mean, the value it asks for makes a valid criterion, and the change can be written down.
   */
  lemma {:induction false} MessageAcceptedIff(
      lex: Lexicon, units: seq<SourceUnit>, d: Draft, minted: map<string, Params>, m: Reading, freshId: nat)
    requires Inv(lex, units, d, minted) && !SetsLimit(m)
    ensures FollowUp(lex, d, m, freshId).Some? <==>
      m.isFollowup && exists c, after :: MeansOnly(d, m, c) && AsksFor(m, c, after) && CriterionOk(lex, after) && CanBeRecorded(c, after)
  {
    hide Inv, CriterionOk, CanBeRecorded, AsksFor, MeansOnly, FollowUp;
    if FollowUp(lex, d, m, freshId).Some? {
      var c, after := MessageIs(lex, units, d, FollowUp(lex, d, m, freshId).value, minted, m, freshId);
    }
    if c, after :| m.isFollowup && MeansOnly(d, m, c) && AsksFor(m, c, after) && CriterionOk(lex, after) && CanBeRecorded(c, after) {
      MessageIsTaken(lex, units, d, minted, m, freshId, c, after);
    }
  }

  lemma {:induction false} MessageIsTaken(
      lex: Lexicon, units: seq<SourceUnit>, d: Draft, minted: map<string, Params>, m: Reading, freshId: nat,
      c: Criterion, after: Criterion)
    requires Inv(lex, units, d, minted) && m.isFollowup && !SetsLimit(m)
    requires MeansOnly(d, m, c) && AsksFor(m, c, after) && CriterionOk(lex, after) && CanBeRecorded(c, after)
    ensures FollowUp(lex, d, m, freshId).Some?
  {
    hide Inv, CriterionOk, CanBeRecorded, AsksFor, CriteriaDistinct, Targets, RequestedChange, EncodedChange, ChangeOk, Describes, CanMean,
         ReplaceCriterion, WithoutCriterion, Retyped;
    assert c in Criteria(d) by { MeantIsThere(d, m, c); }
    HasSpan(lex, units, d, minted, c);
    CriteriaValidate(lex, units, d, minted, c);
    OneTargetIff(lex, d, m, c);
    AskedForIsChange(lex, c, m, after);
    ChangeIsAskedFor(lex, c, m, RequestedChange(c, m).value);
    var spans := Filter(Naming(c.id), d.requirements);
    AmendsWhenFine(lex, d, c, spans[0].spanId, RequestedChange(c, m).value, freshId);
  }

  lemma {:induction false} MeantIsThere(d: Draft, m: Reading, c: Criterion)
    requires CanMean(d, m, c)
    ensures c in Criteria(d)
  {
  }

  lemma {:induction false} CriteriaValidate(
      lex: Lexicon, units: seq<SourceUnit>, d: Draft, minted: map<string, Params>, c: Criterion)
    requires Inv(lex, units, d, minted) && c in Criteria(d)
    ensures CriterionOk(lex, c) && CriteriaDistinct(lex, d)
  {
    hide SpansAligned, SpansScored, CriteriaSupported, DecisionsOk, ResolutionsOk, ReviewsOk, AmendmentsOk,
         ChainReaches, CriterionOk;
  }

  lemma {:induction false} AmendsWhenFine(
      lex: Lexicon, d: Draft, c: Criterion, span: SpanId, f: FieldChange, freshId: nat)
    requires EncodedChange(c, f).Some? && ChangeOk(EncodedChange(c, f).value) && CriterionOk(lex, ApplyField(c, f))
    ensures AmendedDraft(lex, d, c, span, f, freshId).Some?
  {
    hide EncodedChange, ChangeOk, CriterionOk, ApplyField;
  }

  lemma {:induction false} MessageIs(
      lex: Lexicon, units: seq<SourceUnit>, d: Draft, e: Draft, minted: map<string, Params>, m: Reading, freshId: nat)
      returns (c: Criterion, after: Criterion)
    requires Inv(lex, units, d, minted) && !SetsLimit(m) && FollowUp(lex, d, m, freshId) == Some(e)
    ensures m.isFollowup && MeansOnly(d, m, c) && AsksFor(m, c, after) && CriterionOk(lex, after) && CanBeRecorded(c, after)
  {
    hide Inv, CriterionOk, CanBeRecorded, AsksFor, CriteriaDistinct, Targets, RequestedChange, EncodedChange, ChangeOk,
         Describes, CanMean;
    c := Targets(d, m)[0];
    assert Targets(d, m) == [c];
    TargetsAreMeant(d, m, c);
    MeantIsThere(d, m, c);
    CriteriaValidate(lex, units, d, minted, c);
    OneTargetIff(lex, d, m, c);
    var f := RequestedChange(c, m).value;
    after := ApplyField(c, f);
    ChangeIsAskedFor(lex, c, m, f);
  }

  /** When two criteria can be meant, or none, nothing changes. */
  lemma {:induction false} AmbiguousMessageIsTurnedDown(
      lex: Lexicon, units: seq<SourceUnit>, d: Draft, minted: map<string, Params>, m: Reading, freshId: nat)
    requires Inv(lex, units, d, minted) && !SetsLimit(m)
    requires (exists x, y :: CanMean(d, m, x) && CanMean(d, m, y) && x != y) || forall x :: !CanMean(d, m, x)
    ensures FollowUp(lex, d, m, freshId) == None
  {
    hide Inv, CanMean, AsksFor, CanBeRecorded, CriterionOk;
    MessageAcceptedIff(lex, units, d, minted, m, freshId);
  }

  // ------------------------------------------------------------------ the effect

  /** The draft that `d` becomes when `c` changes to `after`: one field of one criterion, and one amendment that says so. */
  predicate ChangesOne(d: Draft, e: Draft, c: Criterion, after: Criterion, freshId: nat) {
    && e.draftId == freshId
    && e.(draftId := d.draftId, mustHave := d.mustHave, preferred := d.preferred, requirements := d.requirements,
          amendments := d.amendments) == d
    && |e.requirements| == |d.requirements|
    && (forall i :: 0 <= i < |d.requirements| ==>
          e.requirements[i] == if d.requirements[i].criterionId == Some(c.id) then d.requirements[i].(modality := Some(after.modality))
                               else d.requirements[i])
    && |e.amendments| == |d.amendments| + 1 && e.amendments[..|d.amendments|] == d.amendments
    && var a := e.amendments[|d.amendments|];
       && a.sequence == |e.amendments| && a.criterionId == c.id && Describes(a.change, c, after)
       && NamesFirstSpan(d, a.spanId, c)
  }

  /** The first span that the draft lists for the criterion. */
  predicate NamesFirstSpan(d: Draft, s: SpanId, c: Criterion) {
    exists i :: 0 <= i < |d.requirements| && d.requirements[i].spanId == s && d.requirements[i].criterionId == Some(c.id)
      && forall j :: 0 <= j < i ==> d.requirements[j].criterionId != Some(c.id)
  }

  ghost predicate ListsOne(list: seq<Criterion>, before: seq<Criterion>, c: Criterion, after: Criterion, holds: bool) {
    forall x :: x in list <==> (x in before && x.id != c.id) || (x == after && holds)
  }

  lemma {:induction false} FirstOfFilter(d: Draft, c: Criterion)
    requires Filter(Naming(c.id), d.requirements) != []
    ensures NamesFirstSpan(d, Filter(Naming(c.id), d.requirements)[0].spanId, c)
  {
    FirstAt(d.requirements, c);
    var i :| 0 <= i < |d.requirements| && IsFirst(d.requirements, i, c);
  }

  predicate IsFirst(results: seq<SpanResult>, i: nat, c: Criterion) {
    && i < |results| && results[i].criterionId == Some(c.id)
    && (forall j :: 0 <= j < i ==> results[j].criterionId != Some(c.id))
    && var spans := Filter(Naming(c.id), results); spans != [] && spans[0] == results[i]
  }

  lemma {:induction false} FirstAt(results: seq<SpanResult>, c: Criterion)
    requires Filter(Naming(c.id), results) != []
    ensures exists i :: 0 <= i < |results| && IsFirst(results, i, c)
  {
    if results[0].criterionId == Some(c.id) {
      assert IsFirst(results, 0, c);
    } else {
      FirstAt(results[1..], c);
      var i :| 0 <= i < |results[1..]| && IsFirst(results[1..], i, c);
      assert forall j :: 0 <= j < i + 1 ==> results[j] == (if j == 0 then results[0] else results[1..][j - 1]);
      assert IsFirst(results, i + 1, c);
    }
  }

  /**
   An accepted message about criteria changes one field of the one criterion it can mean, to the last
   value it gives; the criterion is then listed by its type, everything else in the draft is as it was, and
   one more amendment records the change.
   */
  lemma {:induction false} MessageChangesOneField(
      lex: Lexicon, units: seq<SourceUnit>, d: Draft, e: Draft, minted: map<string, Params>, m: Reading, freshId: nat)
      returns (c: Criterion, after: Criterion)
    requires Inv(lex, units, d, minted) && !SetsLimit(m) && FollowUp(lex, d, m, freshId) == Some(e)
    ensures MeansOnly(d, m, c) && AsksFor(m, c, after) && CriterionOk(lex, after) && CanBeRecorded(c, after)
    ensures ChangesOne(d, e, c, after, freshId)
    ensures ListsOne(e.mustHave, d.mustHave, c, after, after.modality == MustHave)
    ensures ListsOne(e.preferred, d.preferred, c, after, after.modality == Preferred)
  {
    hide Inv, CriterionOk, CanBeRecorded, AsksFor, CriteriaDistinct, Targets, RequestedChange, EncodedChange, ChangeOk, Describes, CanMean,
         ChangesOne, ListsOne, AmendedDraft;
    c := Targets(d, m)[0];
    assert Targets(d, m) == [c];
    TargetsAreMeant(d, m, c);
    MeantIsThere(d, m, c);
    CriteriaValidate(lex, units, d, minted, c);
    OneTargetIff(lex, d, m, c);
    var f := RequestedChange(c, m).value;
    after := ApplyField(c, f);
    ChangeIsAskedFor(lex, c, m, f);
    FirstOfFilter(d, c);
    var span := Filter(Naming(c.id), d.requirements)[0].spanId;
    SpansCarryTheType(lex, units, d, minted, c);
    AmendedWasFine(lex, d, e, c, span, f, freshId);
    AmendedIs(lex, d, e, c, span, f, freshId);
    assert Steps(lex, d, e, c, span, f) by { FirstSpanIsListed(lex, units, d, minted, c, span); }
    AmendedLists(lex, d, e, c, span, f);
  }

  lemma {:induction false} AmendedWasFine(
      lex: Lexicon, d: Draft, e: Draft, c: Criterion, span: SpanId, f: FieldChange, freshId: nat)
    requires AmendedDraft(lex, d, c, span, f, freshId) == Some(e)
    ensures EncodedChange(c, f).Some? && ChangeOk(EncodedChange(c, f).value) && CriterionOk(lex, ApplyField(c, f))
  {
    hide EncodedChange, ChangeOk, CriterionOk, ApplyField;
  }

  lemma {:induction false} FirstSpanIsListed(
      lex: Lexicon, units: seq<SourceUnit>, d: Draft, minted: map<string, Params>, c: Criterion, span: SpanId)
    requires Inv(lex, units, d, minted) && NamesFirstSpan(d, span, c)
    ensures span < |d.requirements| && d.requirements[span].criterionId == Some(c.id)
  {
    hide SpanOrigin, CriteriaDistinct, SpansScored, CriteriaSupported, DecisionsOk, ResolutionsOk, ReviewsOk,
         AmendmentsOk, ChainReaches;
  }

  lemma {:induction false} SpansCarryTheType(
      lex: Lexicon, units: seq<SourceUnit>, d: Draft, minted: map<string, Params>, c: Criterion)
    requires Inv(lex, units, d, minted) && c in Criteria(d)
    ensures forall i :: 0 <= i < |d.requirements| && d.requirements[i].criterionId == Some(c.id) ==> d.requirements[i].modality == Some(c.modality)
  {
    hide SpanOrigin, CriteriaSupported, DecisionsOk, ResolutionsOk, ReviewsOk, AmendmentsOk, ChainReaches, CriterionOk;
    forall i | 0 <= i < |d.requirements| && d.requirements[i].criterionId == Some(c.id)
      ensures d.requirements[i].modality == Some(c.modality)
    {
      var x :| x in Criteria(d) && Evidence(lex, units, d, i, x);
      SameId(lex, d, x, c);
    }
  }

  lemma {:induction false} AmendedIs(
      lex: Lexicon, d: Draft, e: Draft, c: Criterion, span: SpanId, f: FieldChange, freshId: nat)
    requires AmendedDraft(lex, d, c, span, f, freshId) == Some(e) && NamesFirstSpan(d, span, c)
    requires Describes(EncodedChange(c, f).value, c, ApplyField(c, f))
    requires forall i :: 0 <= i < |d.requirements| && d.requirements[i].criterionId == Some(c.id) ==> d.requirements[i].modality == Some(c.modality)
    ensures ChangesOne(d, e, c, ApplyField(c, f), freshId)
  {
    hide EncodedChange, ChangeOk, CriterionOk, ReplaceCriterion, WithoutCriterion, Describes, NamesFirstSpan;
    assert e.requirements == if f.NewType? then Retyped(d.requirements, c.id, f.modality) else d.requirements;
  }

  lemma {:induction false} AmendedLists(lex: Lexicon, d: Draft, e: Draft, c: Criterion, span: SpanId, f: FieldChange)
    requires Steps(lex, d, e, c, span, f) && CriteriaDistinct(lex, d)
    ensures ListsOne(e.mustHave, d.mustHave, c, ApplyField(c, f), ApplyField(c, f).modality == MustHave)
    ensures ListsOne(e.preferred, d.preferred, c, ApplyField(c, f), ApplyField(c, f).modality == Preferred)
  {
    hide Steps, CriteriaDistinct, ApplyField;
    AmendedBuckets(lex, d, e, c, span, f);
  }

  // ------------------------------------------------------------------ the other messages

  /** The limit stays within 1 to 100: the number asked for where it does, else the nearer end. */
  predicate IsBounded(limit: int, asked: int) {
    1 <= limit <= 100 && (1 <= asked <= 100 ==> limit == asked) && (asked < 1 ==> limit == 1) && (asked > 100 ==> limit == 100)
  }

  /** A message that counts results is accepted exactly when it names the present limit, and only sets the new one. */
  lemma {:induction false} MessageSetsTheLimit(lex: Lexicon, d: Draft, m: Reading, freshId: nat)
    requires m.isFollowup && SetsLimit(m)
    ensures var r := FollowUp(lex, d, m, freshId);
      && (r.Some? <==> m.integers[0] == d.resultLimit)
      && (r.Some? ==>
            && IsBounded(r.value.resultLimit, m.integers[|m.integers| - 1])
            && r.value == d.(draftId := freshId, resultLimit := r.value.resultLimit))
  {
  }
}
