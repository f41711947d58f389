/** A draft that the builder returns satisfies the edit invariant, and the builder's own guards never fire. */
module DraftBuilt {
  import opened Wrappers
  import opened Sequences
  import opened CoreText
  import opened DraftSchemas
  import opened SemanticProvenance
  import opened DraftInvariant
  import opened DraftPreservation
  import opened CanonicalRequirements
  import opened CanonicalProperties
  import opened DraftBuilding

  // ------------------------------------------------------------------ what canonicalization hands over

  /** The vocabulary's own terms have text, and a displayed domain is still the same domain. */
  ghost predicate VocabularyOk(lex: Lexicon) {
    && (forall k, s :: lex.canonicalTerm(k, s) ==> s != "" && lex.canonicalDisplay(k, s) != "")
    && (forall s :: lex.normalizeSubject(DomainExperience, lex.domainDisplay(s)) == lex.normalizeSubject(DomainExperience, s))
  }

  /** A span with full authority: its shape is validated, and only general experience goes without a subject. */
  predicate Authorized(c: Canonical) {
    && c.kind.Some? && c.kind.value != Other && c.modality.Some? && c.source.Some? && c.shape
    && (c.kind.value != Experience ==> HasText(c.subject))
  }

  predicate InterpretationOk(u: SourceUnit, i: nat, c: Canonical, hasModel: bool) {
    && c.spanId == i && c.modality == u.modality && c.years == u.years && c.level == u.level
    && (c.kind.Some? ==> c.kind == u.family)
    && (c.state == Scorable || c.conflict.Some? ==> Authorized(c))
    && (c.conflict.Some? ==> c.state == NeedsReview)
    && (c.shape ==> c.kind.Some? && c.source.Some?)
    && (c.source == Some(ModelValidated) ==> hasModel)
  }

  lemma {:induction false} InterpretedIsOk(
      lex: Lexicon, u: SourceUnit, i: nat, candidates: seq<Proposal>, hasModel: bool)
    requires VocabularyOk(lex) && (candidates != [] ==> hasModel)
    requires u.state == Scorable ==> u.family.Some? && u.family.value != Other && u.modality.Some?
    ensures var c := Interpreted(lex, u, i, candidates); InterpretationOk(u, i, c, hasModel) && c.conflict.None?
  {
    var valid := Valid(lex, u, candidates);
    if Liftable(FromSemantic(lex, u, i)) && OneSubject(lex, u, valid) {
      assert valid[0] in valid;
      assert candidates != [];
      assert ValidateProposal(lex, valid[0], u).Ok?;
    }
  }

  lemma {:induction false} DemotedIsOk(u: SourceUnit, i: nat, c: Canonical, hasModel: bool)
    requires InterpretationOk(u, i, c, hasModel) && c.state == Scorable && c.conflict.None?
    ensures InterpretationOk(u, i, Demoted(c), hasModel) && Demoted(c).conflict.None?
  {
  }

  ghost predicate AllOk(units: seq<SourceUnit>, canonical: seq<Canonical>, hasModel: bool) {
    |units| == |canonical| && forall i :: 0 <= i < |units| ==> InterpretationOk(units[i], i, canonical[i], hasModel)
  }

  ghost predicate NoConflictYet(canonical: seq<Canonical>) {
    forall i :: 0 <= i < |canonical| ==> canonical[i].conflict.None?
  }

  ghost predicate InSameConflict(canonical: seq<Canonical>, i: int, j: int) {
    && 0 <= i < |canonical| && 0 <= j < |canonical|
    && canonical[i].conflict.Some? && canonical[i].conflict == canonical[j].conflict
  }

  /** What the draft builder may rely on. */
  ghost predicate CanonicalOk(lex: Lexicon, units: seq<SourceUnit>, canonical: seq<Canonical>, hasModel: bool) {
    && AllOk(units, canonical, hasModel)
    && (forall i :: 0 <= i < |canonical| && canonical[i].conflict.Some? ==> HasRival(canonical, i))
    && (forall i, j :: InSameConflict(canonical, i, j) ==> canonical[i].kind == canonical[j].kind)
    && (forall i, j :: 0 <= i < |canonical| && 0 <= j < |canonical| && SameRequirement(lex, canonical[i], canonical[j]) ==>
          ParametersOf(canonical[i]) == ParametersOf(canonical[j]))
  }

  /** Another span of the same conflict states different parameters. */
  ghost predicate HasRival(canonical: seq<Canonical>, i: nat)
    requires i < |canonical|
  {
    exists j :: 0 <= j < |canonical| && canonical[j].conflict == canonical[i].conflict
      && canonical[i].modality.Some? && canonical[j].modality.Some? && ParametersOf(canonical[i]) != ParametersOf(canonical[j])
  }

  lemma {:induction false} CollidedIsOk(lex: Lexicon, units: seq<SourceUnit>, ordered: seq<Canonical>, hasModel: bool)
    requires AllOk(units, ordered, hasModel) && NoConflictYet(ordered)
    ensures CanonicalOk(lex, units, Collided(lex, ordered), hasModel)
  {
    var r := Collided(lex, ordered);
    forall i | 0 <= i < |r|
      ensures InterpretationOk(units[i], i, r[i], hasModel)
      ensures r[i].conflict.Some? ==> InConflict(lex, ordered, i) && Ready(ordered[i]) && r[i] == Conflicting(ordered[i], ConflictNumber(lex, ordered, i))
    {
      assert InterpretationOk(units[i], i, ordered[i], hasModel);
    }
    hide InterpretationOk;
    forall i | 0 <= i < |r| && r[i].conflict.Some?
      ensures HasRival(r, i)
    {
      Rival(lex, ordered, i);
    }
    forall i, j | InSameConflict(r, i, j)
      ensures r[i].kind == r[j].kind
    {
      ConflictNumbersAreRequirements(lex, ordered, i, j);
    }
    forall i, j | 0 <= i < |r| && 0 <= j < |r| && SameRequirement(lex, r[i], r[j])
      ensures ParametersOf(r[i]) == ParametersOf(r[j])
    {
      OneParameterSet(lex, ordered, i, j);
    }
  }

  lemma {:induction false} Rival(lex: Lexicon, ordered: seq<Canonical>, i: nat)
    requires i < |ordered| && NoConflictYet(ordered) && InConflict(lex, ordered, i)
    ensures HasRival(Collided(lex, ordered), i)
  {
    var j :| 0 <= j < |ordered| && SameRequirement(lex, ordered[i], ordered[j]) && ParametersOf(ordered[i]) != ParametersOf(ordered[j]);
    ConflictShared(lex, ordered, i, j);
    ConflictNumbersAreRequirements(lex, ordered, i, j);
    assert Collided(lex, ordered)[j].conflict == Collided(lex, ordered)[i].conflict;
  }

  lemma {:induction false} CanonicalizeIsOk(
      lex: Lexicon, units: seq<SourceUnit>, proposals: seq<Proposal>, hasModel: bool)
    requires VocabularyOk(lex) && SourceOk(units) && (proposals != [] ==> hasModel)
    ensures CanonicalOk(lex, units, Canonicalize(lex, units, proposals), hasModel)
  {
    var start := PerSpan(lex, units, proposals);
    forall i | 0 <= i < |units|
      ensures InterpretationOk(units[i], i, start[i], hasModel) && start[i].conflict.None?
    {
      assert units[i] in units;
      InterpretedIsOk(lex, units[i], i, ForSpan(proposals, i), hasModel);
    }
    hide PerSpan, InterpretationOk, SourceOk;
    var ordered := Symmetric(units, start);
    forall i | 0 <= i < |units|
      ensures InterpretationOk(units[i], i, ordered[i], hasModel) && ordered[i].conflict.None?
    {
      if ordered[i] != start[i] { DemotedIsOk(units[i], i, start[i], hasModel); }
    }
    CollidedIsOk(lex, units, ordered, hasModel);
  }

  // ------------------------------------------------------------------ the loop's invariant

  predicate Unedited(d: Draft) {
    d.decisions == [] && d.resolutions == [] && d.amendments == []
  }

  lemma {:induction false} UneditedOrigin(units: seq<SourceUnit>, d: Draft, i: nat)
    requires Unedited(d)
    ensures SpanOrigin(units, d, i) == if i < |units| && units[i].modality.Some? then Some(OptionOf(units[i])) else None
  {
  }

  predicate AsMinted(d: Draft, minted: map<string, Params>) {
    forall c :: c in Criteria(d) ==> c.id in minted && minted[c.id] == ParamsOf(c)
  }

  /** One criterion per requirement, found under its key, with the parameters of some span already read. */
  ghost predicate KeysOk(lex: Lexicon, canonical: seq<Canonical>, b: Building, n: nat)
    requires n <= |canonical|
  {
    && (forall c :: c in Criteria(b.d) ==> CriterionIdentity(lex, c) in b.byKey && b.byKey[CriterionIdentity(lex, c)] == c)
    && (forall key :: key in b.byKey ==>
          && b.byKey[key] in Criteria(b.d) && CriterionIdentity(lex, b.byKey[key]) == key
          && exists j :: 0 <= j < n && ReadAs(lex, canonical[j], b.byKey[key]))
  }

  ghost predicate ReadAs(lex: Lexicon, c: Canonical, criterion: Criterion) {
    Ready(c) && IdentityOf(lex, c) == CriterionIdentity(lex, criterion) && ParametersOf(c) == ParamsOf(criterion)
  }

  /** A conflict item speaks for a whole conflict met already; any other item for spans met already and in none. */
  ghost predicate ClaimsFollow(canonical: seq<Canonical>, x: ReviewItem, n: nat)
    requires n <= |canonical|
  {
    if IsConflict(x) then
      && x.conflictSpans != [] && x.conflictSpans[0] < n
      && canonical[x.conflictSpans[0]].conflict.Some?
      && x.conflictSpans == Members(canonical, canonical[x.conflictSpans[0]].conflict.value)
    else
      forall s :: s in Claims(x) ==> s < n && canonical[s].conflict.None?
  }

  ghost predicate BuiltTo(
      lex: Lexicon, units: seq<SourceUnit>, canonical: seq<Canonical>, b: Building, n: nat, minted: map<string, Params>)
  {
    && n <= |units| == |canonical|
    && Unedited(b.d) && |b.d.requirements| == n
    && SpansAligned(units, b.d)
    && CriteriaDistinct(lex, b.d)
    && SpansScored(lex, units, b.d)
    && CriteriaSupported(units, b.d, minted)
    && AsMinted(b.d, minted)
    && ReviewsOk(units, b.d)
    && (forall x :: x in b.d.needsReview ==> ClaimsFollow(canonical, x, n))
    && KeysOk(lex, canonical, b, n)
    && ParametersFromSource(units, b.d)
    && Ids(b.d) <= b.used && |b.used| <= n
  }

  /** A scored span contributes exactly the parameters of its criterion. */
  ghost predicate ParametersFromSource(units: seq<SourceUnit>, d: Draft) {
    forall i: nat, c :: i < |d.requirements| && c in Criteria(d) && d.requirements[i].state == Scorable && d.requirements[i].criterionId == Some(c.id) ==>
      SpanOrigin(units, d, i) == Some(ParamsOf(c))
  }

  // ------------------------------------------------------------------ review items

  ghost predicate Grows(d: Draft, e: Draft, r: SpanResult, added: seq<ReviewItem>) {
    && e.requirements == d.requirements + [r] && e.needsReview == d.needsReview + added
    && e.decisions == d.decisions && e.resolutions == d.resolutions && e.amendments == d.amendments && e.model == d.model
  }

  predicate HasAuthority(r: SpanResult, d: Draft) {
    r.source.Some? && (r.source.value == ModelValidated ==> d.model.Some?)
  }

  lemma {:induction false} OldReviewStays(
      units: seq<SourceUnit>, canonical: seq<Canonical>, d: Draft, e: Draft, r: SpanResult, added: seq<ReviewItem>,
      y: ReviewItem)
    requires Grows(d, e, r, added) && Unedited(d) && |d.requirements| < |units| == |canonical|
    requires ReviewOk(units, d, y) && ClaimsFollow(canonical, y, |d.requirements|)
    requires canonical[|d.requirements|].conflict.Some? ==> r.state == NeedsReview && HasAuthority(r, e)
    ensures ReviewOk(units, e, y) && ClaimsFollow(canonical, y, |d.requirements| + 1)
  {
    var n := |d.requirements|;
    forall s | s in Claims(y) && s < |e.requirements|
      ensures e.requirements[s].state == NeedsReview
      ensures ShapeFor(units, d, y, s) ==> ShapeFor(units, e, y, s)
    {
      if s == n {
        assert IsConflict(y) && s in y.conflictSpans;
      }
    }
    forall s | s >= |e.requirements| && ShapeFor(units, d, y, s) ensures ShapeFor(units, e, y, s) { }
  }

  lemma {:induction false} ItemsApart(canonical: seq<Canonical>, n: nat, y: ReviewItem, x: ReviewItem)
    requires n < |canonical| && ClaimsFollow(canonical, y, n) && ClaimsFollow(canonical, x, n + 1)
    requires if IsConflict(x) then x.conflictSpans[0] == n else canonical[n].conflict.None? && Claims(x) <= {n}
    ensures Claims(y) !! Claims(x)
  {
    forall s | s in Claims(x)
      ensures s !in Claims(y)
    {
      assert IsConflict(x) ==> s in x.conflictSpans;
      assert IsConflict(y) && s in Claims(y) ==> s in y.conflictSpans;
    }
  }

  lemma {:induction false} ReviewsGrow(
      units: seq<SourceUnit>, canonical: seq<Canonical>, d: Draft, e: Draft, r: SpanResult, added: seq<ReviewItem>)
    requires Grows(d, e, r, added) && Unedited(d) && |d.requirements| < |units| == |canonical| && |added| <= 1
    requires ReviewsOk(units, d) && forall x :: x in d.needsReview ==> ClaimsFollow(canonical, x, |d.requirements|)
    requires canonical[|d.requirements|].conflict.Some? ==> r.state == NeedsReview && HasAuthority(r, e)
    requires forall x :: x in added ==>
      && ReviewOk(units, e, x) && ClaimsFollow(canonical, x, |d.requirements| + 1)
      && if IsConflict(x) then x.conflictSpans[0] == |d.requirements| else canonical[|d.requirements|].conflict.None? && Claims(x) <= {|d.requirements|}
    ensures ReviewsOk(units, e) && forall x :: x in e.needsReview ==> ClaimsFollow(canonical, x, |d.requirements| + 1)
  {
    hide ReviewOk, ClaimsFollow;
    forall x | x in e.needsReview
      ensures ReviewOk(units, e, x) && ClaimsFollow(canonical, x, |d.requirements| + 1)
    {
      if x in d.needsReview {
        OldReviewStays(units, canonical, d, e, r, added, x);
      } else {
        assert x in added;
      }
    }
    var items := e.needsReview;
    forall i, j | 0 <= i < j < |items|
      ensures Claims(items[i]) !! Claims(items[j])
    {
      assert items[i] == d.needsReview[i];
      if j < |d.needsReview| {
        assert items[j] == d.needsReview[j];
      } else {
        assert items[j] in added && items[i] in d.needsReview;
        ItemsApart(canonical, |d.requirements|, items[i], items[j]);
      }
    }
  }

  // ------------------------------------------------------------------ a span that is not scored

  lemma {:induction false} OtherGrows(
      lex: Lexicon, units: seq<SourceUnit>, d: Draft, e: Draft, minted: map<string, Params>, r: SpanResult,
      added: seq<ReviewItem>)
    requires Grows(d, e, r, added) && e.mustHave == d.mustHave && e.preferred == d.preferred && Unedited(d)
    requires |d.requirements| < |units| && r.state != Scorable && r.criterionId == None
    requires var u := units[|d.requirements|];
      && r.spanId == |d.requirements| && r.start == u.start && r.end == u.end
      && r.text == (if r.state == Prohibited then None else Some(u.text))
    requires SpansAligned(units, d) && CriteriaDistinct(lex, d) && SpansScored(lex, units, d) && CriteriaSupported(units, d, minted)
    ensures SpansAligned(units, e) && CriteriaDistinct(lex, e) && SpansScored(lex, units, e) && CriteriaSupported(units, e, minted)
  {
    assert Criteria(e) == Criteria(d);
    hide CriteriaDistinct, SpanOrigin;
    OtherKeepsScored(lex, units, d, e, r, added);
    OtherKeepsSupport(units, d, e, minted, r, added);
    assert CriteriaDistinct(lex, e) by { SameBuckets(lex, d, e); }
  }

  lemma {:induction false} OtherKeepsScored(
      lex: Lexicon, units: seq<SourceUnit>, d: Draft, e: Draft, r: SpanResult, added: seq<ReviewItem>)
    requires Grows(d, e, r, added) && Criteria(e) == Criteria(d) && Unedited(d)
    requires |d.requirements| < |units| && r.state != Scorable && SpansScored(lex, units, d)
    ensures SpansScored(lex, units, e)
  {
    hide SpanOrigin;
    forall i | 0 <= i < |e.requirements| && e.requirements[i].state == Scorable
      ensures SpanOrigin(units, e, i).Some? && exists c :: c in Criteria(e) && Evidence(lex, units, e, i, c)
    {
      assert e.requirements[i] == d.requirements[i];
      UneditedOrigin(units, d, i);
      UneditedOrigin(units, e, i);
      var c :| c in Criteria(d) && Evidence(lex, units, d, i, c);
      assert Evidence(lex, units, e, i, c);
    }
  }

  lemma {:induction false} OtherKeepsSupport(
      units: seq<SourceUnit>, d: Draft, e: Draft, minted: map<string, Params>, r: SpanResult, added: seq<ReviewItem>)
    requires Grows(d, e, r, added) && Criteria(e) == Criteria(d) && Unedited(d) && CriteriaSupported(units, d, minted)
    ensures CriteriaSupported(units, e, minted)
  {
    hide SpanOrigin;
    forall c | c in Criteria(e)
      ensures exists i: nat :: MintedFrom(units, e, i, c, minted)
    {
      assert c in Criteria(d);
      var i: nat :| MintedFrom(units, d, i, c, minted);
      UneditedOrigin(units, d, i);
      UneditedOrigin(units, e, i);
      assert MintedFrom(units, e, i, c, minted);
    }
  }

  /** Only the list of spans and the review items grow. */
  lemma {:induction false} OtherStep(
      lex: Lexicon, units: seq<SourceUnit>, canonical: seq<Canonical>, b: Building, b': Building,
      minted: map<string, Params>, r: SpanResult, added: seq<ReviewItem>)
    requires BuiltTo(lex, units, canonical, b, |b.d.requirements|, minted) && |b.d.requirements| < |units|
    requires Grows(b.d, b'.d, r, added) && b'.d.mustHave == b.d.mustHave && b'.d.preferred == b.d.preferred
    requires b'.byKey == b.byKey && b.used <= b'.used && |b'.used| <= |b.d.requirements| + 1
    requires r.state != Scorable && r.criterionId == None
    requires var u := units[|b.d.requirements|];
      && r.spanId == |b.d.requirements| && r.start == u.start && r.end == u.end
      && r.text == (if r.state == Prohibited then None else Some(u.text))
    requires canonical[|b.d.requirements|].conflict.Some? ==> r.state == NeedsReview && HasAuthority(r, b'.d)
    requires forall x :: x in added ==>
      && ReviewOk(units, b'.d, x) && ClaimsFollow(canonical, x, |b.d.requirements| + 1)
      && if IsConflict(x) then x.conflictSpans[0] == |b.d.requirements| else canonical[|b.d.requirements|].conflict.None? && Claims(x) <= {|b.d.requirements|}
    requires |added| <= 1
    ensures BuiltTo(lex, units, canonical, b', |b.d.requirements| + 1, minted)
  {
    var n := |b.d.requirements|;
    hide SpansAligned, CriteriaDistinct, SpansScored, CriteriaSupported, ReviewsOk, ReviewOk, ClaimsFollow;
    OtherGrows(lex, units, b.d, b'.d, minted, r, added);
    ReviewsGrow(units, canonical, b.d, b'.d, r, added);
    assert Criteria(b'.d) == Criteria(b.d) && Ids(b'.d) == Ids(b.d);
    assert KeysOk(lex, canonical, b', n + 1) by { SameKeys(lex, canonical, b, b', n); }
    assert ParametersFromSource(units, b'.d) by { OtherKeepsParameters(units, b.d, b'.d, r, added); }
  }

  lemma {:induction false} OtherKeepsParameters(
      units: seq<SourceUnit>, d: Draft, e: Draft, r: SpanResult, added: seq<ReviewItem>)
    requires Grows(d, e, r, added) && Criteria(e) == Criteria(d) && Unedited(d) && r.state != Scorable && ParametersFromSource(units, d)
    ensures ParametersFromSource(units, e)
  {
    hide SpanOrigin;
    forall i: nat ensures SpanOrigin(units, e, i) == SpanOrigin(units, d, i) { UneditedOrigin(units, d, i); UneditedOrigin(units, e, i); }
  }

  lemma {:induction false} SameKeys(lex: Lexicon, canonical: seq<Canonical>, b: Building, b': Building, n: nat)
    requires n < |canonical| && KeysOk(lex, canonical, b, n) && Criteria(b'.d) == Criteria(b.d) && b'.byKey == b.byKey
    ensures KeysOk(lex, canonical, b', n + 1)
  {
  }

  // ------------------------------------------------------------------ a span that is scored

  /** Scoring span `n` for criterion `x`, new or already in the draft. */
  ghost predicate Scores(
      lex: Lexicon, units: seq<SourceUnit>, canonical: seq<Canonical>, b: Building, n: nat, x: Criterion, isNew: bool)
  {
    && n < |units| == |canonical| && |b.d.requirements| == n
    && canonical[n].state == Scorable && InterpretationOk(units[n], n, canonical[n], b.d.model.Some?)
    && ReadAs(lex, canonical[n], x)
    && (if isNew then NewCriterion(lex, b.d, x) && x.id !in b.used else x in Criteria(b.d))
  }

  lemma {:induction false} ScoredKeepsScored(
      lex: Lexicon, units: seq<SourceUnit>, canonical: seq<Canonical>, b: Building, e: Draft, r: SpanResult, n: nat,
      x: Criterion, isNew: bool)
    requires Scores(lex, units, canonical, b, n, x, isNew) && Unedited(b.d) && Grows(b.d, e, r, []) && Added(b.d, e, x, isNew)
    requires r == ResultFor(canonical[n], units[n], n, Scorable, Some(x.id), canonical[n].shape)
    requires SpansScored(lex, units, b.d)
    ensures SpansScored(lex, units, e)
  {
    AddedCriteria(b.d, e, x, isNew);
    hide SpanOrigin, Added;
    forall i | 0 <= i < |e.requirements| && e.requirements[i].state == Scorable
      ensures SpanOrigin(units, e, i).Some? && exists c :: c in Criteria(e) && Evidence(lex, units, e, i, c)
    {
      UneditedOrigin(units, e, i);
      if i < n {
        assert e.requirements[i] == b.d.requirements[i];
        UneditedOrigin(units, b.d, i);
        var c :| c in Criteria(b.d) && Evidence(lex, units, b.d, i, c);
        assert c in Criteria(e) && Evidence(lex, units, e, i, c);
      } else {
        assert x in Criteria(e) && Evidence(lex, units, e, n, x);
      }
    }
  }

  lemma {:induction false} ScoredKeepsSupport(
      lex: Lexicon, units: seq<SourceUnit>, canonical: seq<Canonical>, b: Building, e: Draft, r: SpanResult, n: nat,
      x: Criterion, isNew: bool, minted: map<string, Params>)
    requires Scores(lex, units, canonical, b, n, x, isNew) && Unedited(b.d) && Grows(b.d, e, r, []) && Added(b.d, e, x, isNew)
    requires r == ResultFor(canonical[n], units[n], n, Scorable, Some(x.id), canonical[n].shape)
    requires CriteriaSupported(units, b.d, minted) && AsMinted(b.d, minted) && (isNew ==> x.id !in Ids(b.d))
    ensures var minted' := if isNew then minted[x.id := ParamsOf(x)] else minted;
      CriteriaSupported(units, e, minted') && AsMinted(e, minted')
  {
    var minted' := if isNew then minted[x.id := ParamsOf(x)] else minted;
    AddedCriteria(b.d, e, x, isNew);
    hide SpanOrigin, Added;
    assert forall c :: c in Criteria(b.d) ==> c.id in Ids(b.d);
    forall c | c in Criteria(e)
      ensures exists i: nat :: MintedFrom(units, e, i, c, minted')
    {
      if c in Criteria(b.d) {
        var i: nat :| MintedFrom(units, b.d, i, c, minted);
        UneditedOrigin(units, b.d, i);
        UneditedOrigin(units, e, i);
        assert e.requirements[i] == b.d.requirements[i];
        assert MintedFrom(units, e, i, c, minted');
      } else {
        UneditedOrigin(units, e, n);
        assert e.requirements[n] == r;
        assert MintedFrom(units, e, n, c, minted');
      }
    }
  }

  lemma {:induction false} ScoredKeepsKeys(
      lex: Lexicon, units: seq<SourceUnit>, canonical: seq<Canonical>, b: Building, b': Building, n: nat, x: Criterion,
      key: RequirementKey, isNew: bool)
    requires Scores(lex, units, canonical, b, n, x, isNew) && KeysOk(lex, canonical, b, n) && Added(b.d, b'.d, x, isNew)
    requires key == CriterionIdentity(lex, x) && b'.byKey == if isNew then b.byKey[key := x] else b.byKey
    requires isNew ==> key !in b.byKey
    ensures KeysOk(lex, canonical, b', n + 1)
  {
    AddedCriteria(b.d, b'.d, x, isNew);
    hide ReadAs, Added, CriterionIdentity, InterpretationOk, NewCriterion;
    assert ReadAs(lex, canonical[n], x);
    forall k | k in b'.byKey
      ensures b'.byKey[k] in Criteria(b'.d) && CriterionIdentity(lex, b'.byKey[k]) == k && exists j :: 0 <= j < n + 1 && ReadAs(lex, canonical[j], b'.byKey[k])
    {
      if isNew && k == key {
        assert b'.byKey[k] == x;
      } else {
        assert b'.byKey[k] == b.byKey[k];
      }
    }
  }

  lemma {:induction false} ScoredKeepsParameters(
      lex: Lexicon, units: seq<SourceUnit>, canonical: seq<Canonical>, b: Building, e: Draft, r: SpanResult, n: nat,
      x: Criterion, isNew: bool)
    requires Scores(lex, units, canonical, b, n, x, isNew) && Unedited(b.d) && Grows(b.d, e, r, []) && Added(b.d, e, x, isNew)
    requires r == ResultFor(canonical[n], units[n], n, Scorable, Some(x.id), canonical[n].shape)
    requires SpansScored(lex, units, b.d) && CriteriaDistinct(lex, e) && ParametersFromSource(units, b.d) && (isNew ==> x.id !in Ids(b.d))
    ensures ParametersFromSource(units, e)
  {
    AddedCriteria(b.d, e, x, isNew);
    hide SpanOrigin, Added, CriteriaDistinct, InterpretationOk, NewCriterion;
    forall i: nat, c | i < |e.requirements| && c in Criteria(e) && e.requirements[i].state == Scorable && e.requirements[i].criterionId == Some(c.id)
      ensures SpanOrigin(units, e, i) == Some(ParamsOf(c))
    {
      UneditedOrigin(units, e, i);
      if i < n {
        UneditedOrigin(units, b.d, i);
        assert e.requirements[i] == b.d.requirements[i];
        var y :| y in Criteria(b.d) && Evidence(lex, units, b.d, i, y);
        assert y.id in Ids(b.d);
        SameId(lex, e, c, y);
      } else {
        SameId(lex, e, c, x);
        assert OptionOf(units[n]) == ParametersOf(canonical[n]) by { ReadsItsUnit(units[n], n, canonical[n], b.d.model.Some?); }
      }
    }
  }

  lemma {:induction false} ReadsItsUnit(u: SourceUnit, n: nat, c: Canonical, hasModel: bool)
    requires InterpretationOk(u, n, c, hasModel) && c.state == Scorable
    ensures u.modality.Some? && c.modality.Some? && OptionOf(u) == ParametersOf(c)
  {
  }

  lemma {:induction false} ScoredShape(
      lex: Lexicon, units: seq<SourceUnit>, canonical: seq<Canonical>, b: Building, n: nat, x: Criterion,
      key: RequirementKey, isNew: bool)
    requires Scores(lex, units, canonical, b, n, x, isNew) && SpansAligned(units, b.d) && Unedited(b.d)
    requires Ids(b.d) <= b.used && |b.used| <= n
    ensures var b' := StepScored(b, canonical[n], units[n], n, x, key, isNew);
      var r := ResultFor(canonical[n], units[n], n, Scorable, Some(x.id), canonical[n].shape);
      && Added(b.d, b'.d, x, isNew) && Grows(b.d, b'.d, r, []) && SpansAligned(units, b'.d) && Unedited(b'.d)
      && Ids(b'.d) <= b'.used && |b'.used| <= n + 1
      && b'.byKey == (if isNew then b.byKey[key := x] else b.byKey)
    ensures canonical[n].conflict.None? && (isNew ==> x.id !in Ids(b.d))
  {
    hide CriterionOk, ReadAs;
    var b' := StepScored(b, canonical[n], units[n], n, x, key, isNew);
    AddedCriteria(b.d, b'.d, x, isNew);
    assert b'.d.needsReview == b.d.needsReview + [];
    forall id | id in Ids(b'.d)
      ensures id in b'.used
    {
      var c :| c in Criteria(b'.d) && c.id == id;
      assert c in Criteria(b.d) ==> c.id in Ids(b.d);
    }
  }

  lemma {:induction false} ScoredStep(
      lex: Lexicon, units: seq<SourceUnit>, canonical: seq<Canonical>, b: Building, n: nat, x: Criterion,
      key: RequirementKey, isNew: bool, minted: map<string, Params>)
    requires BuiltTo(lex, units, canonical, b, n, minted) && Scores(lex, units, canonical, b, n, x, isNew)
    requires key == CriterionIdentity(lex, x) && (isNew ==> key !in b.byKey)
    ensures var minted' := if isNew then minted[x.id := ParamsOf(x)] else minted;
      BuiltTo(lex, units, canonical, StepScored(b, canonical[n], units[n], n, x, key, isNew), n + 1, minted')
  {
    hide SpansAligned, CriteriaDistinct, SpansScored, CriteriaSupported, ReviewsOk, ClaimsFollow, InterpretationOk, KeysOk, Added, ReadAs,
         NewCriterion, AsMinted, StepScored, CriterionIdentity, Ids;
    var r := ResultFor(canonical[n], units[n], n, Scorable, Some(x.id), canonical[n].shape);
    var b' := StepScored(b, canonical[n], units[n], n, x, key, isNew);
    var e := b'.d;
    ScoredShape(lex, units, canonical, b, n, x, key, isNew);
    ScoredKeepsScored(lex, units, canonical, b, e, r, n, x, isNew);
    ScoredKeepsSupport(lex, units, canonical, b, e, r, n, x, isNew, minted);
    ScoredKeepsKeys(lex, units, canonical, b, b', n, x, key, isNew);
    AddedDistinct(lex, b.d, e, x, isNew);
    ReviewsGrow(units, canonical, b.d, e, r, []);
    ScoredKeepsParameters(lex, units, canonical, b, e, r, n, x, isNew);
  }

  /** A new requirement gets a criterion of its own, with a free id. */
  lemma {:induction false} MaterializedIsNew(
      lex: Lexicon, units: seq<SourceUnit>, canonical: seq<Canonical>, b: Building, n: nat, minted: map<string, Params>)
    requires VocabularyOk(lex) && SourceOk(units) && BuiltTo(lex, units, canonical, b, n, minted) && n < |units| <= MAX_SPANS
    requires canonical[n].state == Scorable && InterpretationOk(units[n], n, canonical[n], b.d.model.Some?)
    requires IdentityOf(lex, canonical[n]) !in b.byKey
    ensures Ready(canonical[n])
    ensures var x := Materialized(lex, canonical[n], units[n], b.used);
      && x.id !in b.used && IsCriterionId(x.id) && CriterionIdentity(lex, x) == IdentityOf(lex, canonical[n])
      && ReadAs(lex, canonical[n], x)
      && (CriterionOk(lex, x) ==> NewCriterion(lex, b.d, x))
  {
    hide SpansAligned, CriteriaDistinct, SpansScored, CriteriaSupported, ReviewsOk, ClaimsFollow, CriterionOk;
    var c := canonical[n];
    SlugIsFresh(SlugText(lex, c, units[n]), b.used);
    var x := Materialized(lex, c, units[n], b.used);
    assert units[n] in units;
    assert CriterionIdentity(lex, x) == IdentityOf(lex, c);
    forall y | y in Criteria(b.d)
      ensures Apart(lex, y, x)
    {
      assert y.id in Ids(b.d);
    }
  }

  /** The collision guard cannot fire: an equal key was read with equal parameters. */
  lemma {:induction false} KeyedParametersAgree(
      lex: Lexicon, units: seq<SourceUnit>, canonical: seq<Canonical>, b: Building, n: nat, hasModel: bool)
    requires CanonicalOk(lex, units, canonical, hasModel) && n < |units| && canonical[n].state == Scorable
    requires KeysOk(lex, canonical, b, n) && canonical[n].kind.Some? && IdentityOf(lex, canonical[n]) in b.byKey
    ensures ReadAs(lex, canonical[n], b.byKey[IdentityOf(lex, canonical[n])])
  {
    assert InterpretationOk(units[n], n, canonical[n], hasModel);
    var key := IdentityOf(lex, canonical[n]);
    var j :| 0 <= j < n && ReadAs(lex, canonical[j], b.byKey[key]);
    assert SameRequirement(lex, canonical[n], canonical[j]);
  }

  lemma {:induction false} OrdinaryItemIsOk(
      units: seq<SourceUnit>, canonical: seq<Canonical>, e: Draft, n: nat, state: SpanState, shape: bool)
    requires n < |units| == |canonical| && |e.requirements| == n + 1 && canonical[n].conflict.None?
    requires InterpretationOk(units[n], n, canonical[n], e.model.Some?) && (shape ==> canonical[n].shape) && state != Scorable
    requires e.requirements[n] == ResultFor(canonical[n], units[n], n, state, None, shape)
    ensures var x := OrdinaryItem(canonical[n], units[n], n, state, shape);
      ReviewOk(units, e, x) && !IsConflict(x) && Claims(x) <= {n} && ClaimsFollow(canonical, x, n + 1)
  {
  }

  lemma {:induction false} AsideStep(
      lex: Lexicon, units: seq<SourceUnit>, canonical: seq<Canonical>, b: Building, used: set<string>, n: nat,
      state: SpanState, shape: bool, minted: map<string, Params>)
    requires BuiltTo(lex, units, canonical, b, n, minted) && n < |units| && b.used <= used && |used| <= n + 1
    requires InterpretationOk(units[n], n, canonical[n], b.d.model.Some?) && canonical[n].conflict.None?
    requires (shape ==> canonical[n].shape) && state != Scorable
    ensures var r := StepAside(b.(used := used), canonical[n], units[n], n, state, shape);
      && (r.Ok? ==> BuiltTo(lex, units, canonical, r.value, n + 1, minted) && r.value.d.model == b.d.model)
      && (r.Err? ==> r.error == ReviewTextTooLong)
  {
    var c, u := canonical[n], units[n];
    var result := ResultFor(c, u, n, state, None, shape);
    var r := StepAside(b.(used := used), c, u, n, state, shape);
    if r.Ok? {
      var listed := state != Prohibited && !(state == Unsupported && c.modality.Some?);
      var added := if listed then [OrdinaryItem(c, u, n, state, shape)] else [];
      hide BuiltTo, ReviewOk, ClaimsFollow, InterpretationOk, OrdinaryItem;
      assert |b.d.requirements| == n by { BuiltLength(lex, units, canonical, b, n, minted); }
      assert Grows(b.d, r.value.d, result, added);
      if listed {
        OrdinaryItemIsOk(units, canonical, r.value.d, n, state, shape);
      }
      OtherStep(lex, units, canonical, b, r.value, minted, result, added);
    }
  }

  lemma {:induction false} BuiltLength(
      lex: Lexicon, units: seq<SourceUnit>, canonical: seq<Canonical>, b: Building, n: nat, minted: map<string, Params>)
    requires BuiltTo(lex, units, canonical, b, n, minted)
    ensures |b.d.requirements| == n <= |units| == |canonical| && |b.used| <= n && KeysOk(lex, canonical, b, n)
  {
  }

  lemma {:induction false} ScorableStep(
      lex: Lexicon, units: seq<SourceUnit>, canonical: seq<Canonical>, b: Building, n: nat, minted: map<string, Params>)
      returns (minted': map<string, Params>)
    requires VocabularyOk(lex) && SourceOk(units) && CanonicalOk(lex, units, canonical, b.d.model.Some?)
    requires BuiltTo(lex, units, canonical, b, n, minted) && n < |units| && canonical[n].state == Scorable
    ensures var r := StepScorable(lex, b, canonical[n], units[n], n);
      && (r.Ok? ==> BuiltTo(lex, units, canonical, r.value, n + 1, minted') && r.value.d.model == b.d.model)
      && (r.Err? ==> r.error == ReviewTextTooLong)
  {
    hide BuiltTo, VocabularyOk, SourceOk, CriterionOk, StepAside, NewCriterion, ReadAs, Materialized;
    minted' := minted;
    var c := canonical[n];
    assert InterpretationOk(units[n], n, c, b.d.model.Some?);
    assert |units| <= MAX_SPANS by { SourceBounded(units); }
    BuiltLength(lex, units, canonical, b, n, minted);
    hide CanonicalOk, KeysOk;
    var key := IdentityOf(lex, c);
    if key in b.byKey {
      KeyedParametersAgree(lex, units, canonical, b, n, b.d.model.Some?);
      var x := b.byKey[key];
      assert x in Criteria(b.d) && CriterionIdentity(lex, x) == key && ParamsOf(x) == ParametersOf(c) by { KeyedIs(lex, canonical, b, n, key, c); }
      ScoredStep(lex, units, canonical, b, n, x, key, false, minted);
    } else {
      MaterializedIsNew(lex, units, canonical, b, n, minted);
      var x := Materialized(lex, c, units[n], b.used);
      if CriterionOk(lex, x) {
        minted' := minted[x.id := ParamsOf(x)];
        ScoredStep(lex, units, canonical, b, n, x, key, true, minted);
      } else {
        AsideStep(lex, units, canonical, b, b.used + {x.id}, n, NeedsReview, false, minted);
      }
    }
  }

  lemma {:induction false} SourceBounded(units: seq<SourceUnit>)
    requires SourceOk(units)
    ensures |units| <= MAX_SPANS
  {
  }

  lemma {:induction false} KeyedIs(
      lex: Lexicon, canonical: seq<Canonical>, b: Building, n: nat, key: RequirementKey, c: Canonical)
    requires n <= |canonical| && KeysOk(lex, canonical, b, n) && key in b.byKey && ReadAs(lex, c, b.byKey[key])
    ensures b.byKey[key] in Criteria(b.d) && CriterionIdentity(lex, b.byKey[key]) == key && Ready(c) && ParamsOf(b.byKey[key]) == ParametersOf(c)
  {
  }

  // ------------------------------------------------------------------ a span in conflict

  ghost predicate MemberOk(units: seq<SourceUnit>, canonical: seq<Canonical>, n: nat, s: SpanId) {
    && InSameConflict(canonical, s, n) && s < |units|
    && Authorized(canonical[s]) && canonical[s].kind == canonical[n].kind && canonical[s].state == NeedsReview
    && canonical[s].modality == units[s].modality && canonical[s].years == units[s].years && canonical[s].level == units[s].level
    && units[s].family == canonical[n].kind
  }

  /** `members` is the whole conflict of span `n`, in source order: one kind, and full authority everywhere. */
  ghost predicate WholeConflict(units: seq<SourceUnit>, canonical: seq<Canonical>, n: nat, members: seq<SpanId>) {
    && n < |canonical| == |units|
    && (forall k :: 0 <= k < |members| ==> MemberOk(units, canonical, n, members[k]))
    && (forall a, b :: 0 <= a < b < |members| ==> members[a] < members[b])
    && (forall s: nat :: InSameConflict(canonical, s, n) ==> s in members)
  }

  lemma {:induction false} MembersIs(canonical: seq<Canonical>, g: nat)
    ensures forall s: nat :: s in Members(canonical, g) <==> s < |canonical| && canonical[s].conflict == Some(g) && canonical[s].state == NeedsReview
    ensures forall a, b :: 0 <= a < b < |Members(canonical, g)| ==> Members(canonical, g)[a] < Members(canonical, g)[b]
  {
  }

  lemma {:induction false} MembersAre(
      lex: Lexicon, units: seq<SourceUnit>, canonical: seq<Canonical>, hasModel: bool, n: nat)
    requires CanonicalOk(lex, units, canonical, hasModel) && n < |units| == |canonical| && canonical[n].conflict.Some?
    ensures WholeConflict(units, canonical, n, Members(canonical, canonical[n].conflict.value))
    ensures n in Members(canonical, canonical[n].conflict.value)
  {
    hide CanonicalOk, Members, Authorized, MemberOk;
    var members := Members(canonical, canonical[n].conflict.value);
    MembersIs(canonical, canonical[n].conflict.value);
    forall s: nat | InSameConflict(canonical, s, n)
      ensures MemberOk(units, canonical, n, s) && s in members
    {
      MemberAt(lex, units, canonical, hasModel, n, s);
    }
    forall k | 0 <= k < |members|
      ensures MemberOk(units, canonical, n, members[k])
    {
      assert members[k] in members;
      assert InSameConflict(canonical, members[k], n);
    }
    assert InSameConflict(canonical, n, n);
  }

  lemma {:induction false} MemberAt(
      lex: Lexicon, units: seq<SourceUnit>, canonical: seq<Canonical>, hasModel: bool, n: nat, s: nat)
    requires CanonicalOk(lex, units, canonical, hasModel) && InSameConflict(canonical, s, n)
    ensures MemberOk(units, canonical, n, s) && canonical[s].state == NeedsReview
  {
    hide HasRival, SameRequirement, InterpretationOk;
    assert InterpretationOk(units[s], s, canonical[s], hasModel);
    MemberIsOk(units, canonical, n, s, hasModel);
  }

  lemma {:induction false} MemberIsOk(units: seq<SourceUnit>, canonical: seq<Canonical>, n: nat, s: nat, hasModel: bool)
    requires |units| == |canonical| && InSameConflict(canonical, s, n) && InterpretationOk(units[s], s, canonical[s], hasModel)
    requires canonical[s].kind == canonical[n].kind
    ensures MemberOk(units, canonical, n, s) && canonical[s].state == NeedsReview
  {
  }

  lemma {:induction false} WholeIsReadable(
      units: seq<SourceUnit>, canonical: seq<Canonical>, n: nat, members: seq<SpanId>)
    requires WholeConflict(units, canonical, n, members)
    ensures MembersReadable(canonical, members) && SpansStateModality(units, members) && n < |canonical| == |units|
  {
    forall s | s in members
      ensures s < |units| && units[s].modality.Some?
    {
      var k :| 0 <= k < |members| && members[k] == s;
      assert MemberOk(units, canonical, n, members[k]);
    }
  }

  lemma {:induction false} MembersDisagree(
      lex: Lexicon, units: seq<SourceUnit>, canonical: seq<Canonical>, n: nat, members: seq<SpanId>)
    requires WholeConflict(units, canonical, n, members) && HasRival(canonical, n) && n in members && canonical[n].conflict.Some?
    ensures MembersReadable(canonical, members) && 2 <= |members| <= |units| && 2 <= |OptionsOf(canonical, members)|
  {
    WholeIsReadable(units, canonical, n, members);
    var j :| 0 <= j < |canonical| && canonical[j].conflict == canonical[n].conflict
      && canonical[n].modality.Some? && canonical[j].modality.Some? && ParametersOf(canonical[n]) != ParametersOf(canonical[j]);
    assert InSameConflict(canonical, j, n);
    var options := OptionsOf(canonical, members);
    hide MemberOk, ParametersOf, SpansStateModality, MembersReadable, InSameConflict;
    OptionListed(canonical, members, n);
    OptionListed(canonical, members, j);
    TwoMembers(options, ParametersOf(canonical[n]), ParametersOf(canonical[j]));
    TwoMembers(members, n, j);
    WholeIsBounded(units, canonical, n, members);
  }

  lemma {:induction false} OptionListed(canonical: seq<Canonical>, members: seq<SpanId>, s: SpanId)
    requires MembersReadable(canonical, members) && s in members
    ensures s < |canonical| && canonical[s].modality.Some? && ParametersOf(canonical[s]) in OptionsOf(canonical, members)
  {
    var k :| 0 <= k < |members| && members[k] == s;
  }

  lemma {:induction false} WholeIsBounded(
      units: seq<SourceUnit>, canonical: seq<Canonical>, n: nat, members: seq<SpanId>)
    requires WholeConflict(units, canonical, n, members)
    ensures |members| <= |units|
  {
    forall k | 0 <= k < |members| ensures members[k] < |units| { assert MemberOk(units, canonical, n, members[k]); }
    Increasing(members, |units|);
  }

  lemma {:induction false} Increasing(s: seq<nat>, n: nat)
    requires forall a, b :: 0 <= a < b < |s| ==> s[a] < s[b]
    requires forall a :: 0 <= a < |s| ==> s[a] < n
    ensures |s| <= n
  {
    if s != [] {
      StepsUp(s, |s| - 1);
    }
  }

  lemma {:induction false} StepsUp(s: seq<nat>, k: nat)
    requires k < |s| && forall a, b :: 0 <= a < b < |s| ==> s[a] < s[b]
    ensures k <= s[k]
  {
    if k > 0 {
      StepsUp(s, k - 1);
    }
  }

  lemma {:induction false} MembersOptions(
      units: seq<SourceUnit>, canonical: seq<Canonical>, n: nat, members: seq<SpanId>)
    requires WholeConflict(units, canonical, n, members) && MembersReadable(canonical, members) && SpansStateModality(units, members)
    ensures SourceOptions(units, members) == Elements(OptionsOf(canonical, members))
  {
    forall k | 0 <= k < |members|
      ensures members[k] < |units| && units[members[k]].modality.Some? && OptionOf(units[members[k]]) == ParametersOf(canonical[members[k]])
    {
      assert MemberOk(units, canonical, n, members[k]);
    }
    hide WholeConflict, MemberOk;
    forall p | p in SourceOptions(units, members)
      ensures p in OptionsOf(canonical, members)
    {
      var s :| s in members && p == OptionOf(units[s]);
      var k :| 0 <= k < |members| && members[k] == s;
    }
    forall p | p in OptionsOf(canonical, members)
      ensures p in SourceOptions(units, members)
    {
      var k :| 0 <= k < |members| && p == ParametersOf(canonical[members[k]]);
      assert members[k] in members;
    }
  }

  lemma {:induction false} ConflictResolvable(
      units: seq<SourceUnit>, canonical: seq<Canonical>, n: nat, members: seq<SpanId>)
    requires WholeConflict(units, canonical, n, members) && |units| <= MAX_SPANS && MembersReadable(canonical, members)
    requires 2 <= |members| <= |units| && 2 <= |OptionsOf(canonical, members)| <= MAX_OPTIONS
    ensures var r := Resolution(members, OptionsOf(canonical, members), 0); ResolutionOk(r) && OptionsAreTheSource(units, r)
  {
    WholeIsReadable(units, canonical, n, members);
    MembersOptions(units, canonical, n, members);
    hide MemberOk, SpansStateModality;
  }

  lemma {:induction false} ConflictClaims(
      units: seq<SourceUnit>, canonical: seq<Canonical>, n: nat, members: seq<SpanId>, x: ReviewItem)
    requires WholeConflict(units, canonical, n, members) && |members| > 0 && members[0] == n
    requires x.conflictSpans == members && x.kind == canonical[n].kind && x.kind.Some?
    ensures forall s :: s in Claims(x) ==> s < |units| && n <= s && units[s].family == x.kind
  {
    assert Claims(x) == set s | s in members;
    forall s | s in Claims(x)
      ensures s < |units| && n <= s && units[s].family == x.kind
    {
      var k :| 0 <= k < |members| && members[k] == s;
      assert MemberOk(units, canonical, n, members[k]);
      assert k > 0 ==> members[0] < members[k];
    }
  }

  lemma {:induction false} ConflictItemIsOk(
      lex: Lexicon, units: seq<SourceUnit>, canonical: seq<Canonical>, e: Draft, n: nat, members: seq<SpanId>)
    requires |units| <= MAX_SPANS && HasRivalAt(canonical, n) && canonical[n].subject.Some?
    requires n < |units| && InterpretationOk(units[n], n, canonical[n], e.model.Some?)
    requires members == Members(canonical, canonical[n].conflict.value) && WholeConflict(units, canonical, n, members)
    requires n in members && |members| > 0 && members[0] == n
    requires |e.requirements| == n + 1 && e.requirements[n] == ResultFor(canonical[n], units[n], n, NeedsReview, None, canonical[n].shape)
    requires MembersReadable(canonical, members) && |OptionsOf(canonical, members)| <= MAX_OPTIONS
    ensures var x := ConflictItem(lex, units, canonical, n, members);
      ReviewOk(units, e, x) && IsConflict(x) && x.conflictSpans[0] == n && ClaimsFollow(canonical, x, n + 1)
  {
    hide WholeConflict, MemberOk, ResolutionOk, OptionsAreTheSource, Members, HasRival, OptionsOf, JoinedText, Claims,
         MembersReadable;
    WholeIsReadable(units, canonical, n, members);
    MembersDisagree(lex, units, canonical, n, members);
    ConflictResolvable(units, canonical, n, members);
    var x := ConflictItem(lex, units, canonical, n, members);
    ConflictClaims(units, canonical, n, members, x);
    assert forall s :: s in x.conflictSpans ==> s in Claims(x) by { SpansAreClaims(x); }
  }

  lemma {:induction false} SpansAreClaims(x: ReviewItem)
    ensures forall s :: s in x.conflictSpans ==> s in Claims(x)
  {
  }

  ghost predicate HasRivalAt(canonical: seq<Canonical>, n: nat) {
    n < |canonical| && canonical[n].conflict.Some? && HasRival(canonical, n)
  }

  lemma {:induction false} ConflictStep(
      lex: Lexicon, units: seq<SourceUnit>, canonical: seq<Canonical>, b: Building, n: nat, minted: map<string, Params>)
    requires SourceOk(units) && CanonicalOk(lex, units, canonical, b.d.model.Some?)
    requires BuiltTo(lex, units, canonical, b, n, minted) && n < |units| && InConflictGroup(canonical[n])
    ensures var r := StepConflict(lex, units, canonical, b, n);
      && (r.Ok? ==> BuiltTo(lex, units, canonical, r.value, n + 1, minted) && r.value.d.model == b.d.model)
      && (r.Err? ==> r.error == SubjectMissing || r.error == OptionsOverflow)
  {
    hide BuiltTo, CanonicalOk, SourceOk, ReviewOk, ClaimsFollow, Members, ConflictItem, WholeConflict, KeysOk, HasRivalAt, InterpretationOk,
         OptionsOf, MembersReadable, HasAuthority, Authorized;
    BuiltLength(lex, units, canonical, b, n, minted);
    ConflictAt(lex, units, canonical, b.d.model.Some?, n);
    MembersAre(lex, units, canonical, b.d.model.Some?, n);
    SourceBounded(units);
    var c := canonical[n];
    var members := Members(canonical, c.conflict.value);
    WholeIsReadable(units, canonical, n, members);
    var r := StepConflict(lex, units, canonical, b, n);
    var result := ResultFor(c, units[n], n, c.state, None, c.shape);
    assert HasAuthority(result, b.d) by { ShapeHasAuthority(units[n], n, c, result, b.d); }
    if r.Ok? {
      if members[0] == n {
        var item := ConflictItem(lex, units, canonical, n, members);
        ItemOptions(lex, units, canonical, n, members);
        ConflictItemIsOk(lex, units, canonical, r.value.d, n, members);
        SameAuthority(result, b.d, r.value.d);
        OtherStep(lex, units, canonical, b, r.value, minted, result, [item]);
      } else {
        assert r.value.d.needsReview == b.d.needsReview + [];
        SameAuthority(result, b.d, r.value.d);
        OtherStep(lex, units, canonical, b, r.value, minted, result, []);
      }
    }
  }

  lemma {:induction false} SameAuthority(r: SpanResult, d: Draft, e: Draft)
    requires HasAuthority(r, d) && e.model == d.model
    ensures HasAuthority(r, e)
  {
  }

  lemma {:induction false} ShapeHasAuthority(u: SourceUnit, n: nat, c: Canonical, r: SpanResult, d: Draft)
    requires InterpretationOk(u, n, c, d.model.Some?) && c.conflict.Some? && r == ResultFor(c, u, n, c.state, None, c.shape)
    ensures HasAuthority(r, d) && c.kind.Some? && c.state == NeedsReview
  {
  }

  lemma {:induction false} ConflictAt(
      lex: Lexicon, units: seq<SourceUnit>, canonical: seq<Canonical>, hasModel: bool, n: nat)
    requires CanonicalOk(lex, units, canonical, hasModel) && n < |units| && n < |canonical| && canonical[n].conflict.Some?
    ensures HasRivalAt(canonical, n) && InterpretationOk(units[n], n, canonical[n], hasModel)
  {
  }

  lemma {:induction false} ItemOptions(
      lex: Lexicon, units: seq<SourceUnit>, canonical: seq<Canonical>, n: nat, members: seq<SpanId>)
    requires |units| == |canonical| && n < |units| && MembersReadable(canonical, members) && canonical[n].subject.Some?
    ensures ConflictItem(lex, units, canonical, n, members).conflictOptions == OptionsOf(canonical, members)
  {
  }

  // ------------------------------------------------------------------ the whole loop

  predicate IsBlank(d: Draft) {
    && d.mustHave == [] && d.preferred == [] && d.unsupported == [] && d.needsReview == [] && d.prohibitedCount == 0
    && d.requirements == [] && d.decisions == [] && d.resolutions == [] && d.amendments == []
  }

  predicate SameOrigins(d: Draft, e: Draft) {
    e.policyVersion == d.policyVersion && e.sourceDigest == d.sourceDigest && e.sourceText == d.sourceText && e.model == d.model
  }

  lemma {:induction false} StepKeepsOrigins(
      lex: Lexicon, units: seq<SourceUnit>, canonical: seq<Canonical>, b: Building, i: nat)
    requires |units| == |canonical| && i < |units|
    ensures var r := BuildStep(lex, units, canonical, b, i); r.Ok? ==> SameOrigins(b.d, r.value.d)
  {
    hide CriterionOk, Members, ConflictItem, OrdinaryItem, Materialized, MembersReadable;
  }

  lemma {:induction false} BlankIsBuilt(lex: Lexicon, units: seq<SourceUnit>, canonical: seq<Canonical>, blank: Draft)
    requires IsBlank(blank) && |units| == |canonical|
    ensures BuiltTo(lex, units, canonical, Building(blank, {}, map[]), 0, map[])
  {
    assert Criteria(blank) == [] && Ids(blank) == {};
    assert CriteriaDistinct(lex, blank);
    assert SpansScored(lex, units, blank) && CriteriaSupported(units, blank, map[]);
    assert ReviewsOk(units, blank);
    hide CriteriaDistinct, SpansScored, CriteriaSupported, ReviewsOk;
  }

  /** After any number of spans the draft so far is sound, and a failure is one of three. */
  lemma {:induction false} BuildKeepsInvariant(
      lex: Lexicon, units: seq<SourceUnit>, canonical: seq<Canonical>, blank: Draft, n: nat)
      returns (minted: map<string, Params>)
    requires VocabularyOk(lex) && SourceOk(units) && CanonicalOk(lex, units, canonical, blank.model.Some?) && IsBlank(blank)
    requires n <= |units| == |canonical|
    ensures var r := BuildTo(lex, units, canonical, blank, n);
      && (r.Ok? ==> BuiltTo(lex, units, canonical, r.value, n, minted) && SameOrigins(blank, r.value.d))
      && (r.Err? ==> r.error in {SubjectMissing, OptionsOverflow, ReviewTextTooLong})
  {
    hide BuiltTo, VocabularyOk, SourceOk, CanonicalOk, IsBlank, StepScorable, StepConflict, StepAside;
    if n == 0 {
      minted := map[];
      BlankIsBuilt(lex, units, canonical, blank);
    } else {
      minted := BuildKeepsInvariant(lex, units, canonical, blank, n - 1);
      var before := BuildTo(lex, units, canonical, blank, n - 1);
      if before.Ok? {
        var b := before.value;
        StepKeepsOrigins(lex, units, canonical, b, n - 1);
        if canonical[n - 1].state == Scorable {
          minted := ScorableStep(lex, units, canonical, b, n - 1, minted);
        } else if InConflictGroup(canonical[n - 1]) {
          ConflictStep(lex, units, canonical, b, n - 1, minted);
        } else {
          SpanFacts(lex, units, canonical, b.d.model.Some?, n - 1);
          assert |b.used| <= n by { BuiltLength(lex, units, canonical, b, n - 1, minted); }
          assert b.(used := b.used) == b;
          AsideStep(lex, units, canonical, b, b.used, n - 1, canonical[n - 1].state, canonical[n - 1].shape, minted);
        }
      }
    }
  }

  lemma {:induction false} SpanFacts(
      lex: Lexicon, units: seq<SourceUnit>, canonical: seq<Canonical>, hasModel: bool, n: nat)
    requires CanonicalOk(lex, units, canonical, hasModel) && n < |units| && n < |canonical|
    ensures InterpretationOk(units[n], n, canonical[n], hasModel)
    ensures !InConflictGroup(canonical[n]) ==> canonical[n].conflict.None?
  {
    assert InterpretationOk(units[n], n, canonical[n], hasModel);
  }

  // ------------------------------------------------------------------ built drafts start the lifecycle

  /** Each criterion's parameters, by id. */
  ghost function MintedOf(d: Draft): (minted: map<string, Params>)
    ensures minted.Keys == Ids(d)
    ensures forall id :: id in minted ==> exists c :: c in Criteria(d) && c.id == id && minted[id] == ParamsOf(c)
  {
    map id | id in Ids(d) :: (var c :| c in Criteria(d) && c.id == id; ParamsOf(c))
  }

  lemma {:induction false} MintedOfIs(lex: Lexicon, d: Draft)
    requires CriteriaDistinct(lex, d)
    ensures AsMinted(d, MintedOf(d))
  {
    forall c | c in Criteria(d)
      ensures c.id in MintedOf(d) && MintedOf(d)[c.id] == ParamsOf(c)
    {
      assert c.id in Ids(d);
      var c' :| c' in Criteria(d) && c'.id == c.id && MintedOf(d)[c.id] == ParamsOf(c');
      SameId(lex, d, c, c');
    }
  }

  /** Every span is grounded in the criterion it supports. */
  ghost predicate EvidenceGrounded(lex: Lexicon, units: seq<SourceUnit>, d: Draft) {
    forall i, c :: 0 <= i < |d.requirements| && c in Criteria(d) && d.requirements[i].state == Scorable && d.requirements[i].criterionId == Some(c.id) ==>
      i < |units| && GroundedIn(lex, c, units[i].text)
  }

  lemma {:induction false} MintedOfSupports(units: seq<SourceUnit>, d: Draft, minted: map<string, Params>)
    requires CriteriaSupported(units, d, minted) && AsMinted(d, minted) && AsMinted(d, MintedOf(d))
    ensures CriteriaSupported(units, d, MintedOf(d))
  {
    hide SpanOrigin, MintedOf;
    forall c | c in Criteria(d)
      ensures exists i: nat :: MintedFrom(units, d, i, c, MintedOf(d))
    {
      var i: nat :| MintedFrom(units, d, i, c, minted);
      assert MintedFrom(units, d, i, c, MintedOf(d));
    }
  }

  lemma {:induction false} MintedOfReaches(d: Draft)
    requires Unedited(d) && AsMinted(d, MintedOf(d))
    ensures forall c :: c in Criteria(d) ==> ChainReaches(d, c, MintedOf(d))
  {
    hide MintedOf;
    forall c | c in Criteria(d)
      ensures ChainReaches(d, c, MintedOf(d))
    {
      assert ChainOf(d.amendments, c.id) == [];
    }
  }

  lemma {:induction false} UneditedInv(lex: Lexicon, units: seq<SourceUnit>, d: Draft, minted: map<string, Params>)
    requires Unedited(d) && SpansAligned(units, d) && CriteriaDistinct(lex, d) && SpansScored(lex, units, d) && ReviewsOk(units, d)
    requires CriteriaSupported(units, d, minted) && AsMinted(d, minted)
    ensures Inv(lex, units, d, MintedOf(d))
  {
    hide DecisionsOk, ResolutionsOk, AmendmentsOk, SpansAligned, CriteriaDistinct, SpansScored, CriteriaSupported,
         ReviewsOk, AsMinted, MintedOf, ChainReaches;
    MintedOfIs(lex, d);
    NothingEdited(units, d);
    MintedOfSupports(units, d, minted);
    MintedOfReaches(d);
  }

  lemma {:induction false} NothingEdited(units: seq<SourceUnit>, d: Draft)
    requires Unedited(d)
    ensures DecisionsOk(d) && ResolutionsOk(units, d) && AmendmentsOk(d)
  {
  }

  /** Before any edit a span contributes exactly the parameters of the criterion it supports. */
  lemma {:induction false} UneditedSourcesAgree(
      lex: Lexicon, units: seq<SourceUnit>, d: Draft, minted: map<string, Params>)
    requires Unedited(d) && CriteriaDistinct(lex, d) && AsMinted(d, minted) && ParametersFromSource(units, d)
    ensures SourcesAgree(lex, units, d, minted) <==> EvidenceGrounded(lex, units, d)
  {
    hide SpanOrigin;
  }
}
