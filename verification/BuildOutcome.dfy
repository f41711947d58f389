/**
 When building a draft succeeds, decided before it starts: what each span will do to the loop does not
 depend on the loop's state.
 */
module BuildOutcome {
  import opened Wrappers
  import opened Sequences
  import opened CoreText
  import opened DraftSchemas
  import opened DraftInvariant
  import opened CanonicalRequirements
  import opened DraftBuilding
  import opened DraftBuilt

  // ------------------------------------------------------------------ reading the outcome off the spans

  /** A scorable span whose own criterion validates; the id does not matter to that. */
  predicate Mints(lex: Lexicon, units: seq<SourceUnit>, canonical: seq<Canonical>, i: nat)
    requires i < |units| == |canonical|
  {
    Ready(canonical[i]) && CriterionOk(lex, CriterionNamed(lex, canonical[i], units[i], ""))
  }

  /** Some earlier span has already given the requirement of span `i` its criterion. */
  predicate AlreadyMinted(lex: Lexicon, units: seq<SourceUnit>, canonical: seq<Canonical>, i: nat)
    requires i < |units| == |canonical|
  {
    exists j :: 0 <= j < i && Mints(lex, units, canonical, j) && SameRequirement(lex, canonical[j], canonical[i])
  }

  /** The span becomes an item of its own, with its whole text: neither scored, nor in a conflict, nor redacted. */
  predicate PutAside(lex: Lexicon, units: seq<SourceUnit>, canonical: seq<Canonical>, i: nat)
    requires i < |units| == |canonical|
  {
    if canonical[i].state == Scorable then !Mints(lex, units, canonical, i) && !AlreadyMinted(lex, units, canonical, i)
    else !InConflictGroup(canonical[i]) && canonical[i].state != Prohibited
  }

  /** The first span of its conflict, whose item speaks for all of it. */
  predicate LeadsConflict(canonical: seq<Canonical>, i: nat)
    requires i < |canonical|
  {
    && InConflictGroup(canonical[i])
    && forall j :: 0 <= j < i && InConflictGroup(canonical[j]) ==> canonical[j].conflict != canonical[i].conflict
  }

  /** The different parameter sets that the conflict of span `i` states. */
  function Alternatives(canonical: seq<Canonical>, i: nat): set<Params>
    requires i < |canonical|
  {
    set j | 0 <= j < |canonical| && InConflictGroup(canonical[j]) && canonical[j].conflict == canonical[i].conflict
            && canonical[j].modality.Some? :: ParametersOf(canonical[j])
  }

  /** What is wrong with span `i` by itself, if anything. */
  function Obstacle(lex: Lexicon, units: seq<SourceUnit>, canonical: seq<Canonical>, i: nat): Option<BuildError>
    requires i < |units| == |canonical|
  {
    if LeadsConflict(canonical, i) && canonical[i].subject.None? then Some(SubjectMissing)
    else if LeadsConflict(canonical, i) && |Alternatives(canonical, i)| > MAX_OPTIONS then Some(OptionsOverflow)
    else if PutAside(lex, units, canonical, i) && |units[i].text| > MAX_REVIEW_TEXT then Some(ReviewTextTooLong)
    else None
  }

  // ------------------------------------------------------------------ the loop meets exactly those obstacles

  predicate Claimed(lex: Lexicon, units: seq<SourceUnit>, canonical: seq<Canonical>, n: nat, key: RequirementKey)
    requires n <= |units| == |canonical|
  {
    exists j :: 0 <= j < n && Mints(lex, units, canonical, j) && IdentityOf(lex, canonical[j]) == key
  }

  /** The requirements that have a criterion are those of the minting spans so far. */
  ghost predicate KeysAre(lex: Lexicon, units: seq<SourceUnit>, canonical: seq<Canonical>, b: Building, n: nat)
    requires n <= |units| == |canonical|
  {
    forall key: RequirementKey :: key in b.byKey <==> Claimed(lex, units, canonical, n, key)
  }

  lemma {:induction false} ClaimedNext(
      lex: Lexicon, units: seq<SourceUnit>, canonical: seq<Canonical>, n: nat, key: RequirementKey)
    requires n < |units| == |canonical|
    ensures Claimed(lex, units, canonical, n + 1, key) <==>
      Claimed(lex, units, canonical, n, key) || (Mints(lex, units, canonical, n) && IdentityOf(lex, canonical[n]) == key)
  {
    hide Mints;
  }

  lemma {:induction false} AnyIdValidates(lex: Lexicon, c: Canonical, u: SourceUnit, id: string, id': string)
    requires Ready(c)
    ensures CriterionOk(lex, CriterionNamed(lex, c, u, id)) <==> CriterionOk(lex, CriterionNamed(lex, c, u, id'))
  {
  }

  lemma {:induction false} ScorableMeets(
      lex: Lexicon, units: seq<SourceUnit>, canonical: seq<Canonical>, b: Building, n: nat)
    requires n < |units| == |canonical| && KeysAre(lex, units, canonical, b, n)
    requires canonical[n].state == Scorable && Ready(canonical[n])
    requires var r := StepScorable(lex, b, canonical[n], units[n], n); r.Err? ==> r.error == ReviewTextTooLong
    ensures var r := StepScorable(lex, b, canonical[n], units[n], n);
      && (r.Err? <==> PutAside(lex, units, canonical, n) && |units[n].text| > MAX_REVIEW_TEXT)
      && (r.Ok? ==> KeysAre(lex, units, canonical, r.value, n + 1))
  {
    var c := canonical[n];
    var key := IdentityOf(lex, c);
    assert key in b.byKey <==> Claimed(lex, units, canonical, n, key);
    assert AlreadyMinted(lex, units, canonical, n) <==> Claimed(lex, units, canonical, n, key);
    AnyIdValidates(lex, c, units[n], "", Slug(SlugBase(SlugText(lex, c, units[n])), b.used));
    hide Claimed, KeysAre, CriterionOk, ResultFor, CriterionNamed, OrdinaryItem, SameRequirement;
    var r := StepScorable(lex, b, c, units[n], n);
    if r.Ok? {
      assert r.value.byKey.Keys == b.byKey.Keys + (if Mints(lex, units, canonical, n) then {key} else {});
      KeysGrow(lex, units, canonical, b, r.value, n);
    }
  }

  lemma {:induction false} KeysGrow(
      lex: Lexicon, units: seq<SourceUnit>, canonical: seq<Canonical>, b: Building, b': Building, n: nat)
    requires n < |units| == |canonical| && KeysAre(lex, units, canonical, b, n) && Ready(canonical[n])
    requires b'.byKey.Keys == b.byKey.Keys + (if Mints(lex, units, canonical, n) then {IdentityOf(lex, canonical[n])} else {})
    ensures KeysAre(lex, units, canonical, b', n + 1)
  {
    hide Mints, Claimed;
    forall k: RequirementKey
      ensures k in b'.byKey <==> Claimed(lex, units, canonical, n + 1, k)
    {
      ClaimedNext(lex, units, canonical, n, k);
      assert k in b.byKey <==> Claimed(lex, units, canonical, n, k);
    }
  }

  lemma {:induction false} AsideMeets(
      lex: Lexicon, units: seq<SourceUnit>, canonical: seq<Canonical>, b: Building, n: nat)
    requires n < |units| == |canonical| && KeysAre(lex, units, canonical, b, n)
    requires canonical[n].state != Scorable && !InConflictGroup(canonical[n])
    ensures var r := StepAside(b, canonical[n], units[n], n, canonical[n].state, canonical[n].shape);
      && (r.Err? <==> PutAside(lex, units, canonical, n) && |units[n].text| > MAX_REVIEW_TEXT)
      && (r.Err? ==> r.error == ReviewTextTooLong)
      && (r.Ok? ==> KeysAre(lex, units, canonical, r.value, n + 1))
  {
    UnreadyClaimsNothing(lex, units, canonical, b, n);
  }

  lemma {:induction false} UnreadyClaimsNothing(
      lex: Lexicon, units: seq<SourceUnit>, canonical: seq<Canonical>, b: Building, n: nat)
    requires n < |units| == |canonical| && KeysAre(lex, units, canonical, b, n) && canonical[n].state != Scorable
    ensures KeysAre(lex, units, canonical, b, n + 1)
    ensures forall b': Building :: b'.byKey == b.byKey ==> KeysAre(lex, units, canonical, b', n + 1)
  {
    forall k: RequirementKey
      ensures k in b.byKey <==> Claimed(lex, units, canonical, n + 1, k)
    {
      ClaimedNext(lex, units, canonical, n, k);
      assert k in b.byKey <==> Claimed(lex, units, canonical, n, k);
    }
  }

  lemma {:induction false} OptionsAreAlternatives(canonical: seq<Canonical>, i: nat)
    requires i < |canonical| && InConflictGroup(canonical[i]) && MembersReadable(canonical, Members(canonical, canonical[i].conflict.value))
    ensures |OptionsOf(canonical, Members(canonical, canonical[i].conflict.value))| == |Alternatives(canonical, i)|
  {
    var members := Members(canonical, canonical[i].conflict.value);
    var options := OptionsOf(canonical, members);
    hide OptionsOf;
    forall p | p in options
      ensures p in Alternatives(canonical, i)
    {
      var k :| 0 <= k < |members| && p == ParametersOf(canonical[members[k]]);
      assert members[k] in members;
    }
    forall p | p in Alternatives(canonical, i)
      ensures p in options
    {
      var j :| 0 <= j < |canonical| && InConflictGroup(canonical[j]) && canonical[j].conflict == canonical[i].conflict
               && canonical[j].modality.Some? && p == ParametersOf(canonical[j]);
      assert j in members;
      var k :| 0 <= k < |members| && members[k] == j;
    }
    DistinctSize(options);
    assert Alternatives(canonical, i) == set p | p in options;
  }

  lemma {:induction false} LeaderIsFirst(canonical: seq<Canonical>, i: nat)
    requires i < |canonical| && InConflictGroup(canonical[i])
    ensures var members := Members(canonical, canonical[i].conflict.value);
      members != [] && (members[0] == i <==> LeadsConflict(canonical, i))
  {
    var members := Members(canonical, canonical[i].conflict.value);
    assert i in members && members[0] in members;
    forall j | j in members
      ensures members[0] <= j
    {
      var k :| 0 <= k < |members| && members[k] == j;
      assert k > 0 ==> members[0] < members[k];
    }
    assert LeadsConflict(canonical, i) ==> members[0] >= i;
    assert members[0] == i ==> forall j :: 0 <= j < i ==> j !in members;
  }

  lemma {:induction false} ConflictMeets(
      lex: Lexicon, units: seq<SourceUnit>, canonical: seq<Canonical>, b: Building, n: nat)
    requires n < |units| == |canonical| && KeysAre(lex, units, canonical, b, n)
    requires InConflictGroup(canonical[n]) && canonical[n].kind.Some?
    requires MembersReadable(canonical, Members(canonical, canonical[n].conflict.value))
    ensures var r := StepConflict(lex, units, canonical, b, n);
      && (if r.Err? then Obstacle(lex, units, canonical, n) == Some(r.error) else Obstacle(lex, units, canonical, n) == None)
      && (r.Ok? ==> KeysAre(lex, units, canonical, r.value, n + 1))
  {
    LeaderIsFirst(canonical, n);
    OptionsAreAlternatives(canonical, n);
    UnreadyClaimsNothing(lex, units, canonical, b, n);
    GroupedIsNotAside(lex, units, canonical, n);
    ConflictReservesNothing(lex, units, canonical, b, n);
    ConflictOutcome(lex, units, canonical, b, n);
    hide KeysAre, PutAside, InConflictGroup, Members, LeadsConflict, Alternatives, MembersReadable, StepConflict,
         OptionsOf;
  }

  lemma {:induction false} ConflictOutcome(
      lex: Lexicon, units: seq<SourceUnit>, canonical: seq<Canonical>, b: Building, n: nat)
    requires n < |units| == |canonical| && InConflictGroup(canonical[n]) && canonical[n].kind.Some?
    requires var members := Members(canonical, canonical[n].conflict.value); members != [] && MembersReadable(canonical, members)
    ensures var members := Members(canonical, canonical[n].conflict.value);
      var r := StepConflict(lex, units, canonical, b, n);
      if members[0] != n then r.Ok?
      else if canonical[n].subject.None? then r == Err(SubjectMissing)
      else if |OptionsOf(canonical, members)| > MAX_OPTIONS then r == Err(OptionsOverflow)
      else r.Ok?
  {
    hide Members, MembersReadable, ConflictItem, OptionsOf, ResultFor, WithResult;
    var members := Members(canonical, canonical[n].conflict.value);
    if canonical[n].subject.Some? {
      ItemOptions(lex, units, canonical, n, members);
    }
  }

  lemma {:induction false} GroupedIsNotAside(lex: Lexicon, units: seq<SourceUnit>, canonical: seq<Canonical>, i: nat)
    requires i < |units| == |canonical| && InConflictGroup(canonical[i])
    ensures !PutAside(lex, units, canonical, i)
  {
  }

  /** One turn of the loop fails exactly at an obstacle, and with it. */
  lemma {:induction false} StepMeets(
      lex: Lexicon, units: seq<SourceUnit>, canonical: seq<Canonical>, b: Building, n: nat, minted: map<string, Params>)
    requires VocabularyOk(lex) && SourceOk(units) && CanonicalOk(lex, units, canonical, b.d.model.Some?)
    requires BuiltTo(lex, units, canonical, b, n, minted) && n < |units| == |canonical| && KeysAre(lex, units, canonical, b, n)
    ensures var r := BuildStep(lex, units, canonical, b, n);
      && (if r.Err? then Obstacle(lex, units, canonical, n) == Some(r.error) else Obstacle(lex, units, canonical, n) == None)
      && (r.Ok? ==> KeysAre(lex, units, canonical, r.value, n + 1))
  {
    hide VocabularyOk, SourceOk, CanonicalOk, BuiltTo, KeysAre, StepScorable, StepConflict, StepAside, PutAside, Alternatives, WholeConflict,
         MembersReadable, OptionsOf, Members, InterpretationOk;
    SpanFacts(lex, units, canonical, b.d.model.Some?, n);
    StateFacts(units[n], n, canonical[n], b.d.model.Some?);
    if canonical[n].state == Scorable {
      var minted' := ScorableStep(lex, units, canonical, b, n, minted);
      ScorableMeets(lex, units, canonical, b, n);
    } else if InConflictGroup(canonical[n]) {
      MembersAre(lex, units, canonical, b.d.model.Some?, n);
      WholeIsReadable(units, canonical, n, Members(canonical, canonical[n].conflict.value));
      ConflictMeets(lex, units, canonical, b, n);
    } else {
      AsideMeets(lex, units, canonical, b, n);
    }
  }

  lemma {:induction false} StateFacts(u: SourceUnit, n: nat, c: Canonical, hasModel: bool)
    requires InterpretationOk(u, n, c, hasModel)
    ensures (c.state == Scorable ==> Ready(c)) && (c.conflict.Some? ==> c.kind.Some?)
  {
  }

  /** No obstacle before span `n`. */
  ghost predicate ClearTo(lex: Lexicon, units: seq<SourceUnit>, canonical: seq<Canonical>, n: nat)
    requires n <= |units| == |canonical|
  {
    forall i :: 0 <= i < n ==> Obstacle(lex, units, canonical, i) == None
  }

  ghost predicate FirstObstacle(lex: Lexicon, units: seq<SourceUnit>, canonical: seq<Canonical>, i: nat, e: BuildError)
    requires |units| == |canonical|
  {
    i < |units| && ClearTo(lex, units, canonical, i) && Obstacle(lex, units, canonical, i) == Some(e)
  }

  lemma {:induction false} LoopMeets(
      lex: Lexicon, units: seq<SourceUnit>, canonical: seq<Canonical>, blank: Draft, n: nat)
    requires VocabularyOk(lex) && SourceOk(units) && CanonicalOk(lex, units, canonical, blank.model.Some?) && IsBlank(blank)
    requires n <= |units| == |canonical|
    ensures var r := BuildTo(lex, units, canonical, blank, n);
      && (r.Ok? ==> KeysAre(lex, units, canonical, r.value, n) && ClearTo(lex, units, canonical, n))
      && (r.Err? ==> exists i: nat :: i < n && FirstObstacle(lex, units, canonical, i, r.error))
  {
    hide VocabularyOk, SourceOk, CanonicalOk, IsBlank, BuiltTo, KeysAre, BuildStep, Obstacle;
    if n == 0 {
      NothingClaimed(lex, units, canonical, blank);
    } else {
      LoopMeets(lex, units, canonical, blank, n - 1);
      var before := BuildTo(lex, units, canonical, blank, n - 1);
      if before.Ok? {
        var minted := BuildKeepsInvariant(lex, units, canonical, blank, n - 1);
        StepMeets(lex, units, canonical, before.value, n - 1, minted);
        var r := BuildTo(lex, units, canonical, blank, n);
        assert r.Err? ==> FirstObstacle(lex, units, canonical, n - 1, r.error);
      }
    }
  }

  lemma {:induction false} NothingClaimed(lex: Lexicon, units: seq<SourceUnit>, canonical: seq<Canonical>, blank: Draft)
    requires |units| == |canonical|
    ensures KeysAre(lex, units, canonical, Building(blank, {}, map[]), 0)
  {
  }

  // ------------------------------------------------------------------ the outcome

  /**
   Building succeeds if and only if every conflict has a subject and at most 16 alternatives, and every
   span that becomes an item of its own fits the item's 500 characters.
   */
  lemma {:induction false} BuildSucceedsIff(
      lex: Lexicon, units: seq<SourceUnit>, proposals: seq<Proposal>, blank: Draft)
    requires VocabularyOk(lex) && SourceOk(units) && IsBlank(blank) && (proposals != [] ==> blank.model.Some?)
    ensures var canonical := Canonicalize(lex, units, proposals);
      Build(lex, units, canonical, blank).Ok? <==>
        && (forall i :: 0 <= i < |units| && LeadsConflict(canonical, i) ==>
              canonical[i].subject.Some? && |Alternatives(canonical, i)| <= MAX_OPTIONS)
        && (forall i :: 0 <= i < |units| && PutAside(lex, units, canonical, i) ==> |units[i].text| <= MAX_REVIEW_TEXT)
  {
    hide VocabularyOk, SourceOk, IsBlank, Canonicalize, CanonicalOk, KeysAre, LeadsConflict, PutAside, Alternatives;
    var canonical := Canonicalize(lex, units, proposals);
    CanonicalizeIsOk(lex, units, proposals, blank.model.Some?);
    LoopMeets(lex, units, canonical, blank, |units|);
    assert Build(lex, units, canonical, blank).Ok? <==> ClearTo(lex, units, canonical, |units|);
    hide Build;
    forall i | 0 <= i < |units|
      ensures Obstacle(lex, units, canonical, i) == None <==>
        && (LeadsConflict(canonical, i) ==> canonical[i].subject.Some? && |Alternatives(canonical, i)| <= MAX_OPTIONS)
        && (PutAside(lex, units, canonical, i) ==> |units[i].text| <= MAX_REVIEW_TEXT)
    {
    }
  }

  /** A failed build names the first obstacle of the source, of the three there are. */
  lemma {:induction false} BuildFailsAtFirstObstacle(
      lex: Lexicon, units: seq<SourceUnit>, proposals: seq<Proposal>, blank: Draft, e: BuildError)
    requires VocabularyOk(lex) && SourceOk(units) && IsBlank(blank) && (proposals != [] ==> blank.model.Some?)
    ensures var canonical := Canonicalize(lex, units, proposals);
      Build(lex, units, canonical, blank) == Err(e) <==> exists i: nat :: FirstObstacle(lex, units, canonical, i, e)
  {
    hide VocabularyOk, SourceOk, IsBlank, Canonicalize, CanonicalOk, KeysAre, Obstacle;
    var canonical := Canonicalize(lex, units, proposals);
    CanonicalizeIsOk(lex, units, proposals, blank.model.Some?);
    LoopMeets(lex, units, canonical, blank, |units|);
    var r := Build(lex, units, canonical, blank);
    if i: nat :| FirstObstacle(lex, units, canonical, i, e) {
      assert !ClearTo(lex, units, canonical, |units|);
      assert r.Err?;
      var k: nat :| FirstObstacle(lex, units, canonical, k, r.error);
      assert i == k;
    }
  }

  // ------------------------------------------------------------------ the state every span ends in

  /** A scorable span falls back to review when its criterion does not validate and no earlier one speaks for it. */
  function FinalState(lex: Lexicon, units: seq<SourceUnit>, canonical: seq<Canonical>, i: nat): SpanState
    requires i < |units| == |canonical|
  {
    if canonical[i].state != Scorable then canonical[i].state
    else if Mints(lex, units, canonical, i) || AlreadyMinted(lex, units, canonical, i) then Scorable
    else NeedsReview
  }

  /** A scorable span that fell back lost its shape with its criterion. */
  predicate KeepsShape(lex: Lexicon, units: seq<SourceUnit>, canonical: seq<Canonical>, i: nat)
    requires i < |units| == |canonical|
  {
    canonical[i].shape && (canonical[i].state == Scorable ==> FinalState(lex, units, canonical, i) == Scorable)
  }

  /** What the draft says of span `i`: its place, its text unless prohibited, its type, and an authority when it has a shape. */
  predicate SaysSpan(lex: Lexicon, units: seq<SourceUnit>, canonical: seq<Canonical>, i: nat, r: SpanResult)
    requires i < |units| == |canonical|
  {
    && r.spanId == i && r.start == units[i].start && r.end == units[i].end
    && r.state == FinalState(lex, units, canonical, i)
    && r.text == (if r.state == Prohibited then None else Some(units[i].text))
    && r.modality == canonical[i].modality
    && (r.criterionId.Some? <==> r.state == Scorable)
    && r.source == (if r.state == Scorable || KeepsShape(lex, units, canonical, i) then canonical[i].source else None)
  }

  ghost predicate StatesTo(lex: Lexicon, units: seq<SourceUnit>, canonical: seq<Canonical>, d: Draft, n: nat) {
    && |d.requirements| == n <= |units| == |canonical|
    && forall i: nat :: i < n ==> SaysSpan(lex, units, canonical, i, d.requirements[i])
  }

  lemma {:induction false} ScorableEndsIn(
      lex: Lexicon, units: seq<SourceUnit>, canonical: seq<Canonical>, b: Building, n: nat)
    requires n < |units| == |canonical| && KeysAre(lex, units, canonical, b, n)
    requires canonical[n].state == Scorable && Ready(canonical[n])
    ensures var r := StepScorable(lex, b, canonical[n], units[n], n);
      r.Ok? ==> exists s :: r.value.d.requirements == b.d.requirements + [s] && SaysSpan(lex, units, canonical, n, s)
  {
    var c := canonical[n];
    var key := IdentityOf(lex, c);
    assert key in b.byKey <==> Claimed(lex, units, canonical, n, key);
    assert AlreadyMinted(lex, units, canonical, n) <==> Claimed(lex, units, canonical, n, key);
    AnyIdValidates(lex, c, units[n], "", Slug(SlugBase(SlugText(lex, c, units[n])), b.used));
    hide Claimed, KeysAre, CriterionOk, CriterionNamed, OrdinaryItem, SameRequirement, AlreadyMinted;
    var r := StepScorable(lex, b, c, units[n], n);
    if r.Ok? {
      var s := r.value.d.requirements[|b.d.requirements|];
      assert r.value.d.requirements == b.d.requirements + [s];
    }
  }

  lemma {:induction false} StepEndsIn(
      lex: Lexicon, units: seq<SourceUnit>, canonical: seq<Canonical>, b: Building, n: nat)
    requires n < |units| == |canonical| && KeysAre(lex, units, canonical, b, n) && (canonical[n].state == Scorable ==> Ready(canonical[n]))
    ensures var r := BuildStep(lex, units, canonical, b, n);
      r.Ok? ==> exists s :: r.value.d.requirements == b.d.requirements + [s] && SaysSpan(lex, units, canonical, n, s)
  {
    hide KeysAre, StepScorable, Mints, AlreadyMinted, ConflictItem, OrdinaryItem, Members, OptionsOf, MembersReadable,
         Ready;
    if canonical[n].state == Scorable {
      ScorableEndsIn(lex, units, canonical, b, n);
    } else {
      var r := BuildStep(lex, units, canonical, b, n);
      if r.Ok? {
        var s := ResultFor(canonical[n], units[n], n, canonical[n].state, None, canonical[n].shape);
        assert r.value.d.requirements == b.d.requirements + [s] && SaysSpan(lex, units, canonical, n, s);
      }
    }
  }

  lemma {:induction false} StatesAfterBuilding(
      lex: Lexicon, units: seq<SourceUnit>, canonical: seq<Canonical>, blank: Draft, n: nat)
    requires VocabularyOk(lex) && SourceOk(units) && CanonicalOk(lex, units, canonical, blank.model.Some?) && IsBlank(blank)
    requires n <= |units| == |canonical| && BuildTo(lex, units, canonical, blank, n).Ok?
    ensures StatesTo(lex, units, canonical, BuildTo(lex, units, canonical, blank, n).value.d, n)
  {
    hide VocabularyOk, SourceOk, CanonicalOk, KeysAre, BuildStep, SaysSpan, ClearTo, FirstObstacle, InterpretationOk;
    if n == 0 {
      assert StatesTo(lex, units, canonical, blank, 0);
    } else {
      var i := n - 1;
      StatesAfterBuilding(lex, units, canonical, blank, i);
      LoopMeets(lex, units, canonical, blank, i);
      SpanFacts(lex, units, canonical, blank.model.Some?, i);
      StateFacts(units[i], i, canonical[i], blank.model.Some?);
      StepEndsIn(lex, units, canonical, BuildTo(lex, units, canonical, blank, i).value, i);
    }
  }

  /**
   Every span of a built draft, read off the canonical requirements: a scorable one is scored exactly when
   its own criterion validates or an earlier span of the same requirement has made one, and else left under
   review without a shape; any other keeps its state. All keep their place, text and type.
   */
  lemma {:induction false} SpanStates(
      lex: Lexicon, units: seq<SourceUnit>, proposals: seq<Proposal>, blank: Draft, d: Draft)
    requires VocabularyOk(lex) && SourceOk(units) && IsBlank(blank) && (proposals != [] ==> blank.model.Some?)
    requires Build(lex, units, Canonicalize(lex, units, proposals), blank) == Ok(d)
    ensures var canonical := Canonicalize(lex, units, proposals);
      && |d.requirements| == |units|
      && forall i: nat :: i < |units| ==> SaysSpan(lex, units, canonical, i, d.requirements[i])
  {
    hide VocabularyOk, SourceOk, IsBlank, Canonicalize, CanonicalOk, SaysSpan;
    var canonical := Canonicalize(lex, units, proposals);
    CanonicalizeIsOk(lex, units, proposals, blank.model.Some?);
    StatesAfterBuilding(lex, units, canonical, blank, |units|);
    assert StatesTo(lex, units, canonical, d, |units|);
  }
}
