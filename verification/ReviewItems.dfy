/**
 What a built draft tells its reader: which review items block confirmation, what they offer, and what is
 disclosed or counted, all in terms of the source spans.
 */
module ReviewItems {
  import opened Wrappers
  import opened Sequences
  import opened CoreText
  import opened DraftSchemas
  import opened SemanticProvenance
  import opened DraftEditing
  import opened DraftInvariant
  import opened DraftPreservation
  import opened DraftLifecycle
  import opened CanonicalRequirements
  import opened DraftBuilding
  import opened DraftBuilt
  import opened VacancyDraft

  // ------------------------------------------------------------------ what an item says

  /** The span's shape was validated and names a subject; only its type may be missing. */
  predicate HasShape(c: Canonical) {
    c.state == NeedsReview && c.shape && HasText(c.subject)
  }

  /** Item `x` is span `i`'s own, says what the span says, and offers and blocks what the span calls for. */
  predicate Speaks(u: SourceUnit, c: Canonical, r: SpanResult, x: ReviewItem, i: SpanId) {
    && x.conflictSpans == [] && x.conflictOptions == [] && !x.excluded
    && x.requirement == u.text && x.modality == u.modality && x.years == u.years && x.level == u.level
    && (r.state == NeedsReview || (r.state == Unsupported && u.modality.None?))
    && (x.blocking <==> r.state == NeedsReview && u.modality == Some(MustHave))
    && (if r.state == NeedsReview && HasShape(c) then x.kind == u.family && x.kind.Some? && x.subject == c.subject
        else x.kind == None && x.subject == None)
    && x.spanId == (if x.blocking || x.kind.Some? then Some(i) else None)
    && x.allowed == (if x.kind.Some? && u.modality.None? then [MustHave, Preferred] else [])
  }

  /** The span states these parameters. */
  predicate States(canonical: seq<Canonical>, s: SpanId, p: Params) {
    s < |canonical| && canonical[s].modality.Some? && ParametersOf(canonical[s]) == p
  }

  predicate FirstStates(canonical: seq<Canonical>, spans: seq<SpanId>, k: nat, p: Params) {
    k < |spans| && States(canonical, spans[k], p) && forall j :: 0 <= j < k ==> !States(canonical, spans[j], p)
  }

  ghost predicate StatedBefore(canonical: seq<Canonical>, spans: seq<SpanId>, p: Params, q: Params) {
    exists k: nat :: FirstStates(canonical, spans, k, p) && forall j :: 0 <= j <= k ==> j < |spans| ==> !States(canonical, spans[j], q)
  }

  /** The alternatives come in the order in which the source first states them. */
  ghost predicate InSourceOrder(canonical: seq<Canonical>, spans: seq<SpanId>, options: seq<Params>) {
    forall a, b :: 0 <= a < b < |options| ==> StatedBefore(canonical, spans, options[a], options[b])
  }

  /** The one item of a conflict: it blocks, offers only the choice of an option, and shows all its spans. */
  ghost predicate ConflictSpeaks(lex: Lexicon, units: seq<SourceUnit>, canonical: seq<Canonical>, x: ReviewItem) {
    && x.conflictSpans != [] && x.conflictSpans[0] < |canonical| == |units|
    && (forall k :: 0 <= k < |x.conflictSpans| ==> x.conflictSpans[k] < |units|)
    && var c := canonical[x.conflictSpans[0]];
       && x.blocking && !x.excluded && x.allowed == [] && x.modality == None && x.years == None && x.level == None
       && x.spanId == Some(x.conflictSpans[0])
       && x.kind == c.kind && x.kind.Some? && c.subject.Some?
       && x.subject == Some(if c.kind == Some(DomainExperience) then lex.domainDisplay(c.subject.value) else c.subject.value)
       && x.requirement == Take(JoinedText(units, x.conflictSpans), MAX_REVIEW_TEXT)
       && InSourceOrder(canonical, x.conflictSpans, x.conflictOptions)
  }

  /** Criterion `x` says what span `i` says, under the subject shown for it. */
  predicate CriterionSpeaks(lex: Lexicon, u: SourceUnit, c: Canonical, r: SpanResult, x: Criterion) {
    && r.state == Scorable && r.criterionId == Some(x.id)
    && u.family == Some(x.kind) && u.modality == Some(x.modality) && x.years == u.years && x.level == u.level
    && var shown := if HasText(c.subject) then c.subject.value else u.text;
       && x.name == (if x.kind == DomainExperience then lex.domainDisplay(shown) else shown)
       && x.value == (if x.kind == Experience then None else Some(x.name))
  }

  function UnsupportedOf(units: seq<SourceUnit>, results: seq<SpanResult>): seq<(string, Modality)>
    requires |results| <= |units|
  {
    if results == [] then []
    else
      var n := |results| - 1;
      UnsupportedOf(units, results[..n])
      + if results[n].state == Unsupported && units[n].modality.Some? then [(units[n].text, units[n].modality.value)] else []
  }

  function ProhibitedSpans(results: seq<SpanResult>): (all: set<nat>)
    ensures forall i: nat :: i in all <==> i < |results| && results[i].state == Prohibited
  {
    set i: nat | i < |results| && results[i].state == Prohibited
  }

  // ------------------------------------------------------------------ the draft so far

  ghost predicate ItemTold(lex: Lexicon, units: seq<SourceUnit>, canonical: seq<Canonical>, d: Draft, x: ReviewItem) {
    if IsConflict(x) then ConflictSpeaks(lex, units, canonical, x)
    else exists i: nat :: i < |d.requirements| <= |units| && i < |canonical| && Speaks(units[i], canonical[i], d.requirements[i], x, i)
  }

  /** The span has an item of its own: under review by itself, or unsupported without a type. */
  predicate OwnItem(u: SourceUnit, c: Canonical, r: SpanResult) {
    !InConflictGroup(c) && (r.state == NeedsReview || (r.state == Unsupported && u.modality.None?))
  }

  ghost predicate OwnTold(units: seq<SourceUnit>, canonical: seq<Canonical>, d: Draft, i: nat)
    requires i < |d.requirements| <= |units| == |canonical|
  {
    OwnItem(units[i], canonical[i], d.requirements[i]) ==>
      exists x :: x in d.needsReview && Speaks(units[i], canonical[i], d.requirements[i], x, i)
  }

  ghost predicate CriterionTold(
      lex: Lexicon, units: seq<SourceUnit>, canonical: seq<Canonical>, d: Draft, x: Criterion)
  {
    exists i: nat :: i < |d.requirements| <= |units| && i < |canonical| && CriterionSpeaks(lex, units[i], canonical[i], d.requirements[i], x)
  }

  ghost predicate Told(lex: Lexicon, units: seq<SourceUnit>, canonical: seq<Canonical>, d: Draft, n: nat) {
    && |d.requirements| == n <= |units| == |canonical|
    && (forall x :: x in d.needsReview ==> ItemTold(lex, units, canonical, d, x))
    && (forall i: nat :: i < n ==> OwnTold(units, canonical, d, i))
    && (forall c :: c in Criteria(d) ==> CriterionTold(lex, units, canonical, d, c))
    && d.unsupported == UnsupportedOf(units, d.requirements)
    && d.prohibitedCount == |ProhibitedSpans(d.requirements)|
  }

  lemma {:induction false} ToldGrows(
      lex: Lexicon, units: seq<SourceUnit>, canonical: seq<Canonical>, d: Draft, e: Draft, r: SpanResult)
    requires Told(lex, units, canonical, d, |d.requirements|) && |d.requirements| < |units|
    requires e.requirements == d.requirements + [r]
    requires forall x :: x in d.needsReview ==> x in e.needsReview
    requires forall x :: x in e.needsReview ==> x in d.needsReview || ItemTold(lex, units, canonical, e, x)
    requires forall c :: c in Criteria(e) ==> c in Criteria(d) || CriterionTold(lex, units, canonical, e, c)
    requires OwnTold(units, canonical, e, |d.requirements|)
    requires e.unsupported == UnsupportedOf(units, e.requirements) && e.prohibitedCount == |ProhibitedSpans(e.requirements)|
    ensures Told(lex, units, canonical, e, |d.requirements| + 1)
  {
    var n := |d.requirements|;
    hide Speaks, ConflictSpeaks, CriterionSpeaks, UnsupportedOf, ProhibitedSpans, IsConflict;
    assert forall i: nat :: i < n ==> e.requirements[i] == d.requirements[i];
    forall x | x in e.needsReview
      ensures ItemTold(lex, units, canonical, e, x)
    {
      if x in d.needsReview {
        assert ItemTold(lex, units, canonical, d, x);
      }
    }
    forall c | c in Criteria(e)
      ensures CriterionTold(lex, units, canonical, e, c)
    {
      if c in Criteria(d) {
        assert CriterionTold(lex, units, canonical, d, c);
      }
    }
    forall i: nat | i < n + 1
      ensures OwnTold(units, canonical, e, i)
    {
      if i < n {
        assert OwnTold(units, canonical, d, i);
      }
    }
  }

  lemma {:induction false} ProhibitedGrows(results: seq<SpanResult>, r: SpanResult)
    ensures |ProhibitedSpans(results + [r])| == |ProhibitedSpans(results)| + (if r.state == Prohibited then 1 else 0)
  {
    var all := results + [r];
    assert forall i: nat :: i < |results| ==> all[i] == results[i];
    if r.state == Prohibited {
      assert ProhibitedSpans(all) == ProhibitedSpans(results) + {|results|};
    } else {
      assert ProhibitedSpans(all) == ProhibitedSpans(results);
    }
  }

  lemma {:induction false} UnsupportedGrows(units: seq<SourceUnit>, results: seq<SpanResult>, r: SpanResult)
    requires |results| < |units|
    ensures UnsupportedOf(units, results + [r]) == UnsupportedOf(units, results)
      + if r.state == Unsupported && units[|results|].modality.Some? then [(units[|results|].text, units[|results|].modality.value)] else []
  {
    assert (results + [r])[..|results|] == results;
  }

  // ------------------------------------------------------------------ span by span

  lemma {:induction false} AsideSpeaks(
      u: SourceUnit, c: Canonical, i: nat, state: SpanState, shape: bool, hasModel: bool)
    requires InterpretationOk(u, i, c, hasModel) && (state == NeedsReview || (state == Unsupported && u.modality.None?))
    requires (state == c.state && shape == c.shape) || (c.state == Scorable && state == NeedsReview && !shape)
    ensures Speaks(u, c, ResultFor(c, u, i, state, None, shape), OrdinaryItem(c, u, i, state, shape), i)
  {
  }

  lemma {:induction false} AsideTells(
      lex: Lexicon, units: seq<SourceUnit>, canonical: seq<Canonical>, b: Building, i: nat, state: SpanState, shape: bool, hasModel: bool)
    requires Told(lex, units, canonical, b.d, i) && i < |units| && InterpretationOk(units[i], i, canonical[i], hasModel)
    requires state != Scorable && !InConflictGroup(canonical[i])
    requires (state == canonical[i].state && shape == canonical[i].shape) || (canonical[i].state == Scorable && state == NeedsReview && !shape)
    ensures var r := StepAside(b, canonical[i], units[i], i, state, shape);
      r.Ok? ==> Told(lex, units, canonical, r.value.d, i + 1)
  {
    var u, c := units[i], canonical[i];
    var r := StepAside(b, c, u, i, state, shape);
    if r.Ok? {
      var e, result, x := r.value.d, ResultFor(c, u, i, state, None, shape), OrdinaryItem(c, u, i, state, shape);
      assert e.requirements == b.d.requirements + [result] && Criteria(e) == Criteria(b.d);
      assert u.modality == c.modality && result.state == state by { SameModality(u, i, c, hasModel); }
      UnsupportedGrows(units, b.d.requirements, result);
      ProhibitedGrows(b.d.requirements, result);
      if state == NeedsReview || (state == Unsupported && u.modality.None?) {
        AsideSpeaks(u, c, i, state, shape, hasModel);
        assert e.requirements[i] == result && x in e.needsReview;
        assert ItemTold(lex, units, canonical, e, x) by { NoConflict(u, c, result, x, i); }
      }
      hide Speaks, OrdinaryItem, InterpretationOk, ItemTold, UnsupportedOf, ProhibitedSpans, CriterionTold, Told,
           ResultFor;
      assert Told(lex, units, canonical, b.d, |b.d.requirements|) by { ToldLength(lex, units, canonical, b.d, i); }
      ToldGrows(lex, units, canonical, b.d, e, result);
    }
  }

  lemma {:induction false} ToldLength(lex: Lexicon, units: seq<SourceUnit>, canonical: seq<Canonical>, d: Draft, n: nat)
    requires Told(lex, units, canonical, d, n)
    ensures |d.requirements| == n <= |units| == |canonical| && d.unsupported == UnsupportedOf(units, d.requirements)
    ensures d.prohibitedCount == |ProhibitedSpans(d.requirements)|
  {
  }

  lemma {:induction false} SameModality(u: SourceUnit, i: nat, c: Canonical, hasModel: bool)
    requires InterpretationOk(u, i, c, hasModel)
    ensures u.modality == c.modality && u.years == c.years && u.level == c.level
  {
  }

  lemma {:induction false} NoConflict(u: SourceUnit, c: Canonical, r: SpanResult, x: ReviewItem, i: SpanId)
    requires Speaks(u, c, r, x, i)
    ensures !IsConflict(x)
  {
  }

  lemma {:induction false} ScoredTells(
      lex: Lexicon, units: seq<SourceUnit>, canonical: seq<Canonical>, b: Building, i: nat, x: Criterion, key: RequirementKey, isNew: bool,
      hasModel: bool)
    requires Told(lex, units, canonical, b.d, i) && i < |units| && InterpretationOk(units[i], i, canonical[i], hasModel) && Ready(canonical[i])
    requires if isNew then x == CriterionNamed(lex, canonical[i], units[i], x.id) else x in Criteria(b.d)
    ensures Told(lex, units, canonical, StepScored(b, canonical[i], units[i], i, x, key, isNew).d, i + 1)
  {
    var u, c := units[i], canonical[i];
    var e, result := StepScored(b, c, u, i, x, key, isNew).d, ResultFor(c, u, i, Scorable, Some(x.id), c.shape);
    UnsupportedGrows(units, b.d.requirements, result);
    ProhibitedGrows(b.d.requirements, result);
    AddedCriteria(b.d, e, x, isNew);
    if isNew {
      NamedSpeaks(lex, u, c, i, x, hasModel);
      assert e.requirements[i] == result;
      assert CriterionTold(lex, units, canonical, e, x);
    }
    hide CriterionSpeaks, CriterionNamed, InterpretationOk, ItemTold, UnsupportedOf, ProhibitedSpans, CriterionTold,
         Ready;
    ToldGrows(lex, units, canonical, b.d, e, result);
  }

  lemma {:induction false} NamedSpeaks(lex: Lexicon, u: SourceUnit, c: Canonical, i: nat, x: Criterion, hasModel: bool)
    requires InterpretationOk(u, i, c, hasModel) && Ready(c) && x == CriterionNamed(lex, c, u, x.id)
    ensures CriterionSpeaks(lex, u, c, ResultFor(c, u, i, Scorable, Some(x.id), c.shape), x)
  {
  }

  lemma {:induction false} ScorableTells(
      lex: Lexicon, units: seq<SourceUnit>, canonical: seq<Canonical>, b: Building, i: nat, hasModel: bool)
    requires Told(lex, units, canonical, b.d, i) && i < |units| && InterpretationOk(units[i], i, canonical[i], hasModel)
    requires canonical[i].state == Scorable && KeysOk(lex, canonical, b, i)
    ensures var r := StepScorable(lex, b, canonical[i], units[i], i);
      r.Ok? ==> Told(lex, units, canonical, r.value.d, i + 1)
  {
    var u, c := units[i], canonical[i];
    hide Told, StepScored, StepAside, CriterionOk, CriterionNamed, InterpretationOk, ReadAs, CriterionIdentity, Slug;
    if Ready(c) {
      var key := IdentityOf(lex, c);
      if key in b.byKey {
        ScoredTells(lex, units, canonical, b, i, b.byKey[key], key, false, hasModel);
      } else {
        var x := Materialized(lex, c, u, b.used);
        NamedByItself(lex, c, u, b.used);
        ScoredTells(lex, units, canonical, b, i, x, key, true, hasModel);
        AsideTells(lex, units, canonical, b.(used := b.used + {x.id}), i, NeedsReview, false, hasModel);
      }
    }
  }

  lemma {:induction false} NamedByItself(lex: Lexicon, c: Canonical, u: SourceUnit, used: set<string>)
    requires Ready(c)
    ensures var x := Materialized(lex, c, u, used); x == CriterionNamed(lex, c, u, x.id)
  {
  }

  lemma {:induction false} ConflictTells(
      lex: Lexicon, units: seq<SourceUnit>, canonical: seq<Canonical>, b: Building, i: nat)
    requires Told(lex, units, canonical, b.d, i) && i < |units| && InConflictGroup(canonical[i])
    ensures var r := StepConflict(lex, units, canonical, b, i);
      r.Ok? ==> Told(lex, units, canonical, r.value.d, i + 1)
  {
    var c := canonical[i];
    var r := StepConflict(lex, units, canonical, b, i);
    if r.Ok? {
      var e, result := r.value.d, ResultFor(c, units[i], i, c.state, None, c.shape);
      var members := Members(canonical, c.conflict.value);
      UnsupportedGrows(units, b.d.requirements, result);
      ProhibitedGrows(b.d.requirements, result);
      assert e.requirements == b.d.requirements + [result] && Criteria(e) == Criteria(b.d);
      if members != [] && members[0] == i {
        ConflictItemSpeaks(lex, units, canonical, i, members);
        assert ItemTold(lex, units, canonical, e, ConflictItem(lex, units, canonical, i, members));
      }
      hide Members, ConflictItem, OptionsOf, ItemTold, UnsupportedOf, ProhibitedSpans, CriterionTold, MembersReadable;
      ToldGrows(lex, units, canonical, b.d, e, result);
    }
  }

  lemma {:induction false} ConflictItemSpeaks(
      lex: Lexicon, units: seq<SourceUnit>, canonical: seq<Canonical>, i: nat, members: seq<SpanId>)
    requires |units| == |canonical| && i < |units| && members != [] && members[0] == i && MembersReadable(canonical, members)
    requires canonical[i].subject.Some? && canonical[i].kind.Some?
    ensures ConflictSpeaks(lex, units, canonical, ConflictItem(lex, units, canonical, i, members))
    ensures IsConflict(ConflictItem(lex, units, canonical, i, members))
  {
    OptionsInOrder(canonical, members);
    hide OptionsOf, JoinedText, InSourceOrder;
  }

  /** The texts of the members one after the other, with nothing but the separator between them. */
  function StartOf(units: seq<SourceUnit>, members: seq<SpanId>, k: nat): nat
    requires k <= |members| && forall j :: 0 <= j < |members| ==> members[j] < |units|
  {
    if k == 0 then 0 else StartOf(units, members, k - 1) + |units[members[k - 1]].text| + 3
  }

  predicate StandsAt(text: string, part: string, at: nat) {
    at + |part| <= |text| && text[at..at + |part|] == part
  }

  lemma {:induction false} JoinedPrefix(units: seq<SourceUnit>, members: seq<SpanId>, n: nat)
    requires 1 <= n <= |members| && forall j :: 0 <= j < |members| ==> members[j] < |units|
    ensures JoinedText(units, members[..n]) <= JoinedText(units, members)
    decreases |members| - n
  {
    if n < |members| {
      assert members[..n + 1][..n] == members[..n];
      JoinedPrefix(units, members, n + 1);
    } else {
      assert members[..n] == members;
    }
  }

  lemma {:induction false} JoinedLength(units: seq<SourceUnit>, members: seq<SpanId>, n: nat)
    requires 1 <= n <= |members| && forall j :: 0 <= j < |members| ==> members[j] < |units|
    ensures |JoinedText(units, members[..n])| == StartOf(units, members, n - 1) + |units[members[n - 1]].text|
  {
    if n > 1 {
      assert members[..n][..n - 1] == members[..n - 1];
      JoinedLength(units, members, n - 1);
    }
  }

  /** The joined text of a conflict shows the whole text of every member, in order, and nothing else but separators. */
  lemma {:induction false} JoinedShowsEveryText(units: seq<SourceUnit>, members: seq<SpanId>, k: nat)
    requires k < |members| && forall j :: 0 <= j < |members| ==> members[j] < |units|
    ensures var text, at := JoinedText(units, members), StartOf(units, members, k);
      && StandsAt(text, units[members[k]].text, at)
      && (k > 0 ==> StandsAt(text, " \U{B7} ", at - 3))
      && (k == |members| - 1 ==> |text| == at + |units[members[k]].text|)
  {
    var upTo := JoinedText(units, members[..k + 1]);
    JoinedPrefix(units, members, k + 1);
    JoinedLength(units, members, k + 1);
    assert k == |members| - 1 ==> members[..k + 1] == members;
    if k > 0 {
      JoinedLength(units, members, k);
      assert members[..k + 1][..k] == members[..k];
      assert upTo == JoinedText(units, members[..k]) + " \U{B7} " + units[members[k]].text;
    }
  }

  lemma {:induction false} OptionsInOrder(canonical: seq<Canonical>, members: seq<SpanId>)
    requires MembersReadable(canonical, members)
    ensures InSourceOrder(canonical, members, OptionsOf(canonical, members))
  {
    if members != [] {
      var n := |members| - 1;
      var before, options := OptionsOf(canonical, members[..n]), OptionsOf(canonical, members);
      OptionsInOrder(canonical, members[..n]);
      assert options == before || options == before + [ParametersOf(canonical[members[n]])];
      assert options != before ==> ParametersOf(canonical[members[n]]) !in before;
      forall a, b | 0 <= a < b < |options|
        ensures StatedBefore(canonical, members, options[a], options[b])
      {
        if b < |before| {
          assert StatedBefore(canonical, members[..n], before[a], before[b]);
          StatedEarlier(canonical, members, n, before[a], before[b]);
        } else {
          OnlyOneIsStated(canonical, members[..n], before[a], options[b]);
          StatedEarlier(canonical, members, n, before[a], options[b]);
        }
      }
    }
  }

  lemma {:induction false} StatedEarlier(canonical: seq<Canonical>, members: seq<SpanId>, n: nat, p: Params, q: Params)
    requires n <= |members| && StatedBefore(canonical, members[..n], p, q)
    ensures StatedBefore(canonical, members, p, q)
  {
    hide States;
    var k: nat :| FirstStates(canonical, members[..n], k, p)
                  && forall j :: 0 <= j <= k ==> j < n ==> !States(canonical, members[..n][j], q);
    assert FirstStates(canonical, members, k, p);
  }

  lemma {:induction false} OnlyOneIsStated(canonical: seq<Canonical>, members: seq<SpanId>, p: Params, q: Params)
    requires MembersReadable(canonical, members) && p in OptionsOf(canonical, members) && q !in OptionsOf(canonical, members)
    ensures StatedBefore(canonical, members, p, q)
  {
    hide ParametersOf;
    var at :| 0 <= at < |members| && p == ParametersOf(canonical[members[at]]);
    var k := FirstStated(canonical, members, at, p);
    assert forall j :: 0 <= j < |members| ==> !States(canonical, members[j], q);
  }

  lemma {:induction false} FirstStated(
      canonical: seq<Canonical>, members: seq<SpanId>, at: nat, p: Params) returns (k: nat)
    requires at < |members| && States(canonical, members[at], p)
    ensures FirstStates(canonical, members, k, p)
  {
    hide States;
    if j :| 0 <= j < at && States(canonical, members[j], p) {
      k := FirstStated(canonical, members, j, p);
    } else {
      k := at;
    }
  }

  lemma {:induction false} ToldAfterBuilding(
      lex: Lexicon, units: seq<SourceUnit>, canonical: seq<Canonical>, blank: Draft, n: nat)
    requires VocabularyOk(lex) && SourceOk(units) && CanonicalOk(lex, units, canonical, blank.model.Some?) && IsBlank(blank)
    requires n <= |units| == |canonical| && BuildTo(lex, units, canonical, blank, n).Ok?
    ensures Told(lex, units, canonical, BuildTo(lex, units, canonical, blank, n).value.d, n)
  {
    hide VocabularyOk, SourceOk, CanonicalOk, BuiltTo, StepScorable, StepConflict, StepAside, KeysOk, Told;
    if n == 0 {
      assert Told(lex, units, canonical, blank, 0) by { NothingTold(lex, units, canonical, blank); }
    } else {
      var i := n - 1;
      ToldAfterBuilding(lex, units, canonical, blank, i);
      var minted := BuildKeepsInvariant(lex, units, canonical, blank, i);
      var b := BuildTo(lex, units, canonical, blank, i).value;
      SpanFacts(lex, units, canonical, blank.model.Some?, i);
      if canonical[i].state == Scorable {
        assert KeysOk(lex, canonical, b, i) by { BuiltLength(lex, units, canonical, b, i, minted); }
        ScorableTells(lex, units, canonical, b, i, blank.model.Some?);
      } else if InConflictGroup(canonical[i]) {
        ConflictTells(lex, units, canonical, b, i);
      } else {
        AsideTells(lex, units, canonical, b, i, canonical[i].state, canonical[i].shape, blank.model.Some?);
      }
    }
  }

  lemma {:induction false} NothingTold(lex: Lexicon, units: seq<SourceUnit>, canonical: seq<Canonical>, blank: Draft)
    requires IsBlank(blank) && |units| == |canonical|
    ensures Told(lex, units, canonical, blank, 0)
  {
    assert Criteria(blank) == [];
    assert ProhibitedSpans(blank.requirements) == {};
  }

  // ------------------------------------------------------------------ what the reader of a built draft is told

  lemma {:induction false} BuiltIsTold(lex: Lexicon, text: string, proposals: seq<Proposal>, blank: Draft, d: Draft)
    requires VocabularyOk(lex) && BuiltFrom(lex, text, proposals, blank, d)
    ensures var units := lex.analyze(text);
      && Told(lex, units, Canonicalize(lex, units, proposals), d, |units|)
      && ShownTo(units, Canonicalize(lex, units, proposals), d, |units|)
      && Inv(lex, units, d, MintedOf(d))
  {
    hide VocabularyOk, SourceOk, IsBlank, Canonicalize, CanonicalOk, Told, ShownTo, Inv, MintedOf;
    var units := lex.analyze(text);
    CanonicalizeIsOk(lex, units, proposals, blank.model.Some?);
    ToldAfterBuilding(lex, units, Canonicalize(lex, units, proposals), blank, |units|);
    ShownAfterBuilding(lex, units, Canonicalize(lex, units, proposals), blank, |units|);
    BuiltStartsTheLifecycle(lex, text, proposals, blank, d);
  }

  /** The item holds up confirmation, and HR has not waived it. */
  predicate Blocks(x: ReviewItem) {
    x.blocking && !x.excluded
  }

  /** It is bound to the span, or to the conflict that the span is part of. */
  predicate BoundTo(x: ReviewItem, i: SpanId) {
    if x.conflictSpans == [] then x.spanId == Some(i) else i in x.conflictSpans && x.spanId == Some(x.conflictSpans[0])
  }

  /**
   A span that states a must-have and is left under review is claimed by exactly one item; that item
   blocks confirmation, is not waived, and is bound to the span or to its conflict.
   */
  lemma {:induction false} MustHavesBlock(
      lex: Lexicon, text: string, proposals: seq<Proposal>, blank: Draft, d: Draft, i: nat) returns (x: ReviewItem)
    requires VocabularyOk(lex) && BuiltFrom(lex, text, proposals, blank, d)
    requires i < |lex.analyze(text)| && i < |d.requirements|
    requires lex.analyze(text)[i].modality == Some(MustHave) && d.requirements[i].state == NeedsReview
    ensures x in d.needsReview && i in Claims(x) && Blocks(x) && BoundTo(x, i)
    ensures forall y :: y in d.needsReview && i in Claims(y) ==> y == x
  {
    var units := lex.analyze(text);
    var canonical := Canonicalize(lex, units, proposals);
    BuiltIsTold(lex, text, proposals, blank, d);
    hide BuiltFrom, VocabularyOk, Canonicalize, Represented;
    assert ReviewsOk(units, d);
    hide Inv, ReviewOk;
    if InConflictGroup(canonical[i]) {
      x :| x in d.needsReview && SpeaksFor(canonical, x, canonical[i].conflict.value);
      MembersIs(canonical, canonical[i].conflict.value);
      assert i in x.conflictSpans && ItemTold(lex, units, canonical, d, x);
    } else {
      assert OwnTold(units, canonical, d, i);
      x :| x in d.needsReview && Speaks(units[i], canonical[i], d.requirements[i], x, i);
    }
    forall y | y in d.needsReview && i in Claims(y) ensures y == x { SameClaim(d.needsReview, x, y, i); }
  }

  /** Every item that is no conflict says one span, and every span under review by itself has such an item. */
  lemma {:induction false} ItemsSayTheirSpans(
      lex: Lexicon, text: string, proposals: seq<Proposal>, blank: Draft, d: Draft)
    requires VocabularyOk(lex) && BuiltFrom(lex, text, proposals, blank, d)
    ensures var units := lex.analyze(text);
      var canonical := Canonicalize(lex, units, proposals);
      && |d.requirements| == |units| == |canonical|
      && (forall x :: x in d.needsReview && x.conflictSpans == [] && x.conflictOptions == [] ==>
            exists i: nat :: i < |units| && Speaks(units[i], canonical[i], d.requirements[i], x, i))
      && (forall i: nat :: i < |units| && OwnItem(units[i], canonical[i], d.requirements[i]) ==>
            exists x :: x in d.needsReview && Speaks(units[i], canonical[i], d.requirements[i], x, i))
      && (forall x :: x in d.needsReview && (x.conflictSpans != [] || x.conflictOptions != []) ==>
            ConflictSpeaks(lex, units, canonical, x))
  {
    var units := lex.analyze(text);
    var canonical := Canonicalize(lex, units, proposals);
    BuiltIsTold(lex, text, proposals, blank, d);
    hide BuiltFrom, VocabularyOk, Canonicalize, Represented, Speaks, ConflictSpeaks, OwnItem, Inv, ShownTo;
    forall x | x in d.needsReview && x.conflictSpans == [] && x.conflictOptions == []
      ensures exists i: nat :: i < |units| && Speaks(units[i], canonical[i], d.requirements[i], x, i)
    {
      assert ItemTold(lex, units, canonical, d, x);
    }
    forall i: nat | i < |units| && OwnItem(units[i], canonical[i], d.requirements[i])
      ensures exists x :: x in d.needsReview && Speaks(units[i], canonical[i], d.requirements[i], x, i)
    {
      assert OwnTold(units, canonical, d, i);
    }
    forall x | x in d.needsReview && (x.conflictSpans != [] || x.conflictOptions != [])
      ensures ConflictSpeaks(lex, units, canonical, x)
    {
      assert ItemTold(lex, units, canonical, d, x);
    }
  }

  /** Unsupported requirements are disclosed with their type, in source order, and prohibited ones are counted. */
  lemma {:induction false} DisclosedAndCounted(
      lex: Lexicon, text: string, proposals: seq<Proposal>, blank: Draft, d: Draft)
    requires VocabularyOk(lex) && BuiltFrom(lex, text, proposals, blank, d)
    ensures |d.requirements| == |lex.analyze(text)| && d.unsupported == UnsupportedOf(lex.analyze(text), d.requirements)
    ensures d.prohibitedCount == |set i: nat | i < |d.requirements| && d.requirements[i].state == Prohibited|
  {
    BuiltIsTold(lex, text, proposals, blank, d);
    hide BuiltFrom, VocabularyOk, Canonicalize, UnsupportedOf, Inv, ShownTo;
    ToldLength(lex, lex.analyze(text), Canonicalize(lex, lex.analyze(text), proposals), d, |lex.analyze(text)|);
    assert ProhibitedSpans(d.requirements) == set i: nat | i < |d.requirements| && d.requirements[i].state == Prohibited;
  }

  /** Every criterion says what a scored span of the source says, under the subject shown for that span. */
  lemma {:induction false} CriteriaSayTheirSpans(
      lex: Lexicon, text: string, proposals: seq<Proposal>, blank: Draft, d: Draft, c: Criterion)
    requires VocabularyOk(lex) && BuiltFrom(lex, text, proposals, blank, d) && c in Criteria(d)
    ensures var units := lex.analyze(text);
      var canonical := Canonicalize(lex, units, proposals);
      && |d.requirements| == |units| == |canonical|
      && exists i: nat :: i < |units| && CriterionSpeaks(lex, units[i], canonical[i], d.requirements[i], c)
  {
    BuiltIsTold(lex, text, proposals, blank, d);
    hide BuiltFrom, VocabularyOk, Canonicalize, CriterionSpeaks, Inv, ShownTo;
    assert CriterionTold(lex, lex.analyze(text), Canonicalize(lex, lex.analyze(text), proposals), d, c);
  }
}
