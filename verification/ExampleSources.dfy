/**
 Concrete sources: sentences laid out one after the other in a text, and what canonicalization and
 building make of them. Each shows that something the code guards against, or promises, does happen.
 */
module ExampleSources {
  import opened Wrappers
  import opened Sequences
  import opened CoreText
  import opened DraftSchemas
  import opened SemanticProvenance
  import opened DraftInvariant
  import opened CanonicalRequirements
  import opened CanonicalProperties
  import opened DraftBuilding
  import opened DraftBuilt
  import opened BuildOutcome

  // ------------------------------------------------------------------ texts

  /** The texts one after the other, each with what separates it from the next. */
  function Joined(texts: seq<string>, after: nat -> string): string {
    if texts == [] then ""
    else Joined(texts[..|texts| - 1], after) + texts[|texts| - 1] + after(|texts| - 1)
  }

  function At(texts: seq<string>, after: nat -> string, i: nat): nat
    requires i < |texts|
  {
    |Joined(texts[..i], after)|
  }

  predicate IsSlice(text: string, u: SourceUnit) {
    u.start < u.end <= |text| && text[u.start..u.end] == u.text
  }

  /** The units are exact slices of the text, none empty, one after the other, as an analysis returns them. */
  predicate SlicedFrom(text: string, units: seq<SourceUnit>) {
    && (forall i :: 0 <= i < |units| ==> IsSlice(text, units[i]))
    && forall i, j :: 0 <= i < j < |units| ==> units[i].end <= units[j].start
  }

  lemma {:induction false} JoinedGrows(texts: seq<string>, after: nat -> string, n: nat)
    requires n <= |texts|
    ensures Joined(texts[..n], after) <= Joined(texts, after)
    decreases |texts| - n
  {
    if n < |texts| {
      assert texts[..n + 1][..n] == texts[..n];
      JoinedGrows(texts, after, n + 1);
    } else {
      assert texts[..n] == texts;
    }
  }

  lemma {:induction false} TextAt(texts: seq<string>, after: nat -> string, i: nat)
    requires i < |texts|
    ensures var at := At(texts, after, i);
      && at + |texts[i]| <= |Joined(texts, after)| && Joined(texts, after)[at..at + |texts[i]|] == texts[i]
    ensures i + 1 < |texts| ==> At(texts, after, i) + |texts[i]| <= At(texts, after, i + 1)
  {
    var upTo := Joined(texts[..i + 1], after);
    assert texts[..i + 1][..i] == texts[..i];
    assert upTo == Joined(texts[..i], after) + texts[i] + after(i);
    JoinedGrows(texts, after, i + 1);
  }

  lemma {:induction false} TextsInOrder(texts: seq<string>, after: nat -> string, i: nat, j: nat)
    requires i < j < |texts|
    ensures At(texts, after, i) + |texts[i]| <= At(texts, after, j)
    decreases j
  {
    TextAt(texts, after, j - 1);
    if i < j - 1 {
      TextsInOrder(texts, after, i, j - 1);
    }
  }

  // ------------------------------------------------------------------ sentences

  /** A sentence that names one requirement, with a modality or still without. */
  datatype Sentence = Sentence(group: Option<nat>, kind: Kind, subject: Option<string>, modality: Option<Modality>, years: Option<real>)

  function UnitFor(at: nat, text: string, s: Sentence): SourceUnit {
    SourceUnit(
      at, at + |text|, text, s.group, Some(s.kind), s.subject, None, s.modality, s.years, None,
      if s.modality.Some? then Scorable else NeedsReview, if s.modality.Some? then None else Some(ModalityUnknown))
  }

  function Units(texts: seq<string>, after: nat -> string, sentences: seq<Sentence>): (r: seq<SourceUnit>)
    requires |texts| == |sentences|
    ensures |r| == |texts| && forall i :: 0 <= i < |r| ==> r[i] == UnitFor(At(texts, after, i), texts[i], sentences[i])
  {
    seq(|texts|, i requires 0 <= i < |texts| => UnitFor(At(texts, after, i), texts[i], sentences[i]))
  }

  /** The vocabulary accepts the sentence as it stands. */
  predicate Plain(lex: Lexicon, text: string, s: Sentence) {
    && 0 < |text| <= MAX_TEXT && !Prohibits(lex, text) && s.kind != Other
    && (s.subject.Some? ==> s.subject.value != "" && !Prohibits(lex, s.subject.value))
    && IsCanonicalSubject(lex, s.kind, s.subject)
  }

  ghost predicate AllPlain(lex: Lexicon, texts: seq<string>, sentences: seq<Sentence>) {
    && |texts| == |sentences| <= MAX_SPANS
    && forall i :: 0 <= i < |texts| ==> Plain(lex, texts[i], sentences[i])
  }

  function Read(i: nat, s: Sentence): Canonical {
    Canonical(
      i, Some(s.kind), s.subject, s.modality, s.years, None, if s.modality.Some? then Scorable else NeedsReview, Some(Deterministic),
      if s.modality.Some? then None else Some(ModalityUnknown), true, None)
  }

  /** Sentences laid out in a text are a source. */
  lemma {:induction false} LaidOut(lex: Lexicon, texts: seq<string>, after: nat -> string, sentences: seq<Sentence>)
    requires AllPlain(lex, texts, sentences)
    ensures SlicedFrom(Joined(texts, after), Units(texts, after, sentences)) && SourceOk(Units(texts, after, sentences))
  {
    LaidOutInOrder(lex, texts, after, sentences);
    LaidOutIsSource(lex, texts, after, sentences);
  }

  lemma {:induction false} LaidOutInOrder(
      lex: Lexicon, texts: seq<string>, after: nat -> string, sentences: seq<Sentence>)
    requires AllPlain(lex, texts, sentences)
    ensures SlicedFrom(Joined(texts, after), Units(texts, after, sentences))
  {
    var text, units := Joined(texts, after), Units(texts, after, sentences);
    hide At, Joined, Plain, AllPlain, Units, UnitFor, IsSlice;
    forall i | 0 <= i < |units| ensures IsSlice(text, units[i]) { UnitIsSliced(lex, texts, after, sentences, i); }
    forall i, j | 0 <= i < j < |units| ensures units[i].end <= units[j].start { UnitsStandApart(texts, after, sentences, i, j); }
  }

  lemma {:induction false} UnitsStandApart(
      texts: seq<string>, after: nat -> string, sentences: seq<Sentence>, i: nat, j: nat)
    requires |texts| == |sentences| && i < j < |texts|
    ensures Units(texts, after, sentences)[i].end <= Units(texts, after, sentences)[j].start
  {
    hide At, Units;
    TextsInOrder(texts, after, i, j);
  }

  lemma {:induction false} UnitIsSliced(
      lex: Lexicon, texts: seq<string>, after: nat -> string, sentences: seq<Sentence>, i: nat)
    requires AllPlain(lex, texts, sentences) && i < |texts|
    ensures IsSlice(Joined(texts, after), Units(texts, after, sentences)[i])
  {
    hide At, Joined, Plain, Units;
    TextAt(texts, after, i);
    PlainIsText(lex, texts[i], sentences[i]);
  }

  lemma {:induction false} PlainIsText(lex: Lexicon, text: string, s: Sentence)
    requires Plain(lex, text, s)
    ensures 0 < |text| <= MAX_TEXT && s.kind != Other
  {
  }

  lemma {:induction false} LaidOutIsSource(
      lex: Lexicon, texts: seq<string>, after: nat -> string, sentences: seq<Sentence>)
    requires AllPlain(lex, texts, sentences)
    ensures SourceOk(Units(texts, after, sentences))
  {
    var units := Units(texts, after, sentences);
    hide At, Joined, Plain, Units;
    forall u | u in units
      ensures u.start < u.end && |u.text| == u.end - u.start && |u.text| <= MAX_TEXT && LevelPresent(u.level)
      ensures u.state == Scorable ==> u.family.Some? && u.family.value != Other && u.modality.Some?
    {
      var i :| 0 <= i < |units| && units[i] == u;
      PlainIsText(lex, texts[i], sentences[i]);
    }
  }

  lemma {:induction false} PlainIsRead(lex: Lexicon, i: nat, at: nat, text: string, s: Sentence)
    requires Plain(lex, text, s)
    ensures Interpreted(lex, UnitFor(at, text, s), i, ForSpan([], i)) == Read(i, s)
  {
  }

  ghost predicate ReadsAll(lex: Lexicon, units: seq<SourceUnit>, sentences: seq<Sentence>) {
    && |units| == |sentences|
    && forall i :: 0 <= i < |units| ==> PerSpan(lex, units, [])[i] == Read(i, sentences[i])
  }

  lemma {:induction false} AllAreRead(lex: Lexicon, texts: seq<string>, after: nat -> string, sentences: seq<Sentence>)
    requires AllPlain(lex, texts, sentences)
    ensures ReadsAll(lex, Units(texts, after, sentences), sentences)
  {
    hide At, Joined, Interpreted, ForSpan;
    var units := Units(texts, after, sentences);
    forall i | 0 <= i < |units|
      ensures PerSpan(lex, units, [])[i] == Read(i, sentences[i])
    {
      assert Plain(lex, texts[i], sentences[i]);
      PlainIsRead(lex, i, units[i].start, texts[i], sentences[i]);
    }
  }

  /** Without clauses the symmetry pass has nothing to do. */
  lemma {:induction false} NoClauses(units: seq<SourceUnit>, start: seq<Canonical>)
    requires |units| == |start| && forall i :: 0 <= i < |units| ==> units[i].group.None?
    ensures Symmetric(units, start) == start
  {
  }

  // ------------------------------------------------------------------ a clause that ends uneven

  function AndThenStop(): nat -> string {
    (i: nat) => if i == 0 then " and " else ". "
  }

  /**
   Plain symmetry fails: "Kotlin and Scala required. Scala preferred." One clause of two sides, and a
   later sentence that contradicts one of them.
   */
  lemma {:induction false} ClauseCanEndUneven(lex: Lexicon, texts: seq<string>, a: string, b: string)
    requires |texts| == 3 && lex.normalizeSubject(Skill, a) != lex.normalizeSubject(Skill, b)
    requires AllPlain(lex, texts, Uneven(a, b))
    ensures var text, units := Joined(texts, AndThenStop()), Units(texts, AndThenStop(), Uneven(a, b));
      var r := Canonicalize(lex, units, []);
      && SlicedFrom(text, units) && SourceOk(units)
      && SameClause(units, 0, 1) && r[0].state == Scorable && r[1].state == NeedsReview && r[1].reason == Some(SemanticConflict)
  {
    var units := Units(texts, AndThenStop(), Uneven(a, b));
    LaidOut(lex, texts, AndThenStop(), Uneven(a, b));
    AllAreRead(lex, texts, AndThenStop(), Uneven(a, b));
    hide AllPlain, Joined, At, SlicedFrom, SourceOk, PerSpan, Collided;
    var start := PerSpan(lex, units, []);
    SettledClause(units, start);
    assert start == [Read(0, Uneven(a, b)[0]), Read(1, Uneven(a, b)[1]), Read(2, Uneven(a, b)[2])];
    hide Symmetric;
    OneSideContradicted(lex, start, a, b);
    CollisionStates(lex, start, 0);
    CollisionStates(lex, start, 1);
  }

  /** When every span is scorable the symmetry pass has nothing to do either. */
  lemma {:induction false} SettledClause(units: seq<SourceUnit>, start: seq<Canonical>)
    requires |units| == |start| && forall i :: 0 <= i < |units| ==> start[i].state == Scorable
    ensures Symmetric(units, start) == start
  {
  }

  lemma {:induction false} OneSideContradicted(lex: Lexicon, start: seq<Canonical>, a: string, b: string)
    requires start == [Read(0, Uneven(a, b)[0]), Read(1, Uneven(a, b)[1]), Read(2, Uneven(a, b)[2])]
    requires lex.normalizeSubject(Skill, a) != lex.normalizeSubject(Skill, b)
    ensures !InConflict(lex, start, 0) && InConflict(lex, start, 1)
  {
    assert SameRequirement(lex, start[1], start[2]) && ParametersOf(start[1]) != ParametersOf(start[2]);
    assert !SameRequirement(lex, start[0], start[1]) && !SameRequirement(lex, start[0], start[2]);
  }

  function Uneven(a: string, b: string): seq<Sentence> {
    [Sentence(Some(0), Skill, Some(a), Some(MustHave), None), Sentence(Some(0), Skill, Some(b), Some(MustHave), None),
     Sentence(None, Skill, Some(b), Some(Preferred), None)]
  }

  // ------------------------------------------------------------------ the three ways building fails

  function Stop(): nat -> string {
    (i: nat) => ". "
  }

  /** All sentences state one requirement, no two with the same years. */
  ghost predicate Rivals(lex: Lexicon, sentences: seq<Sentence>) {
    && (forall i :: 0 <= i < |sentences| ==> sentences[i].group.None? && sentences[i].modality.Some?)
    && (forall i, j :: 0 <= i < |sentences| && 0 <= j < |sentences| ==>
          Identity(lex, sentences[i].kind, sentences[i].subject) == Identity(lex, sentences[j].kind, sentences[j].subject))
    && forall i, j :: 0 <= i < j < |sentences| ==> sentences[i].years != sentences[j].years
  }

  /** Span `i` is in the conflict of span 0, with the parameters of its sentence. */
  ghost predicate Joins(r: seq<Canonical>, sentences: seq<Sentence>, i: nat) {
    && i < |r| == |sentences|
    && InConflictGroup(r[i]) && r[i].conflict == r[0].conflict && r[i].subject == sentences[i].subject
    && sentences[i].modality.Some? && r[i].modality.Some?
    && ParametersOf(r[i]) == Params(sentences[i].modality.value, sentences[i].years, None)
  }

  /** Rivals all end in the one conflict that the first of them leads. */
  lemma {:induction false} RivalsConflict(lex: Lexicon, units: seq<SourceUnit>, sentences: seq<Sentence>)
    requires ReadsAll(lex, units, sentences) && Rivals(lex, sentences) && |units| >= 2
    requires forall i :: 0 <= i < |units| ==> units[i].group == sentences[i].group
    ensures var r := Canonicalize(lex, units, []);
      LeadsConflict(r, 0) && forall i :: 0 <= i < |units| ==> Joins(r, sentences, i)
  {
    var start := PerSpan(lex, units, []);
    NoClauses(units, start);
    hide PerSpan, Symmetric, Joins;
    forall i | 0 <= i < |units|
      ensures Joins(Collided(lex, start), sentences, i)
    {
      RivalJoins(lex, start, sentences, i);
    }
    assert Joins(Collided(lex, start), sentences, 0);
    JoinerIsGrouped(Collided(lex, start), sentences);
  }

  lemma {:induction false} JoinerIsGrouped(r: seq<Canonical>, sentences: seq<Sentence>)
    requires Joins(r, sentences, 0)
    ensures LeadsConflict(r, 0)
  {
  }

  lemma {:induction false} RivalJoins(lex: Lexicon, start: seq<Canonical>, sentences: seq<Sentence>, i: nat)
    requires |start| == |sentences| >= 2 && i < |start| && Rivals(lex, sentences)
    requires forall k :: 0 <= k < |start| ==> start[k] == Read(k, sentences[k])
    ensures Joins(Collided(lex, start), sentences, i)
  {
    RivalIsDisputed(lex, start, sentences, i);
    RivalIsDisputed(lex, start, sentences, 0);
    hide Rivals, InConflict, SameRequirement, ConflictNumber;
    ConflictNumbersAreRequirements(lex, start, i, 0);
    var r := Collided(lex, start);
    assert r[i] == Conflicting(start[i], ConflictNumber(lex, start, i)) && r[0] == Conflicting(start[0], ConflictNumber(lex, start, 0));
  }

  lemma {:induction false} RivalIsDisputed(lex: Lexicon, start: seq<Canonical>, sentences: seq<Sentence>, i: nat)
    requires |start| == |sentences| >= 2 && i < |start| && Rivals(lex, sentences)
    requires forall k :: 0 <= k < |start| ==> start[k] == Read(k, sentences[k])
    ensures Ready(start[i]) && InConflict(lex, start, i) && SameRequirement(lex, start[i], start[0]) && sentences[i].modality.Some?
    ensures ParametersOf(start[i]) == Params(sentences[i].modality.value, sentences[i].years, None)
  {
    var j := if i == 0 then 1 else 0;
    assert start[i] == Read(i, sentences[i]) && start[j] == Read(j, sentences[j]) && start[0] == Read(0, sentences[0]);
    assert sentences[i].years != sentences[j].years;
    assert SameRequirement(lex, start[i], start[j]) && ParametersOf(start[i]) != ParametersOf(start[j]);
  }

  function Experience5And3(): seq<Sentence> {
    [Sentence(None, Experience, None, Some(MustHave), Some(5.0)), Sentence(None, Experience, None, Some(Preferred), Some(3.0))]
  }

  /**
   "Five years of experience required. Three years preferred." General experience has no subject, so two
   amounts of it are a conflict that the review item cannot name.
   */
  lemma {:induction false} UnscopedExperienceStopsBuilding(lex: Lexicon, texts: seq<string>, blank: Draft)
    requires VocabularyOk(lex) && IsBlank(blank) && |texts| == 2 && AllPlain(lex, texts, Experience5And3())
    ensures var units := Units(texts, Stop(), Experience5And3());
      && SlicedFrom(Joined(texts, Stop()), units) && SourceOk(units)
      && Build(lex, units, Canonicalize(lex, units, []), blank) == Err(SubjectMissing)
  {
    hide AllPlain, Joined, At, SlicedFrom, SourceOk, PerSpan, ReadsAll, VocabularyOk, IsBlank, Canonicalize, Build,
         Units, FirstObstacle;
    var sentences := Experience5And3();
    var units := Units(texts, Stop(), sentences);
    LaidOut(lex, texts, Stop(), sentences);
    AllAreRead(lex, texts, Stop(), sentences);
    AmountsHaveNoSubject(lex, units);
    BuildFailsAtFirstObstacle(lex, units, [], blank, SubjectMissing);
  }

  lemma {:induction false} AmountsHaveNoSubject(lex: Lexicon, units: seq<SourceUnit>)
    requires |units| == 2 && ReadsAll(lex, units, Experience5And3()) && units[0].group.None? && units[1].group.None?
    ensures FirstObstacle(lex, units, Canonicalize(lex, units, []), 0, SubjectMissing)
  {
    hide PerSpan, ReadsAll, Canonicalize, LeadsConflict, Alternatives;
    RivalsConflict(lex, units, Experience5And3());
    assert Joins(Canonicalize(lex, units, []), Experience5And3(), 0);
  }

  /** The same skill, once for each amount of years. */
  function EachYear(n: nat, a: string): (r: seq<Sentence>)
    ensures |r| == n && forall i :: 0 <= i < n ==> r[i] == Sentence(None, SkillExperience, Some(a), Some(MustHave), Some((i + 1) as real))
  {
    seq(n, i requires 0 <= i < n => Sentence(None, SkillExperience, Some(a), Some(MustHave), Some((i + 1) as real)))
  }

  function EachOption(n: nat): (r: seq<Params>)
    ensures |r| == n && forall i :: 0 <= i < n ==> r[i] == Params(MustHave, Some((i + 1) as real), None)
  {
    seq(n, i requires 0 <= i < n => Params(MustHave, Some((i + 1) as real), None))
  }

  /** Seventeen or more different amounts of one skill overflow the review item's options. */
  lemma {:induction false} ManyAmountsStopBuilding(lex: Lexicon, texts: seq<string>, a: string, blank: Draft)
    requires VocabularyOk(lex) && IsBlank(blank) && |texts| > MAX_OPTIONS && AllPlain(lex, texts, EachYear(|texts|, a))
    ensures var units := Units(texts, Stop(), EachYear(|texts|, a));
      && SlicedFrom(Joined(texts, Stop()), units) && SourceOk(units)
      && Build(lex, units, Canonicalize(lex, units, []), blank) == Err(OptionsOverflow)
  {
    hide AllPlain, Joined, At, SlicedFrom, SourceOk, PerSpan, ReadsAll, VocabularyOk, IsBlank, Canonicalize, Build,
         Units, EachYear, FirstObstacle;
    var sentences := EachYear(|texts|, a);
    var units := Units(texts, Stop(), sentences);
    LaidOut(lex, texts, Stop(), sentences);
    AllAreRead(lex, texts, Stop(), sentences);
    assert FirstObstacle(lex, units, Canonicalize(lex, units, []), 0, OptionsOverflow) by { AmountsOverflow(lex, units, |texts|, a); }
    BuildFailsAtFirstObstacle(lex, units, [], blank, OptionsOverflow);
  }

  lemma {:induction false} AmountsOverflow(lex: Lexicon, units: seq<SourceUnit>, n: nat, a: string)
    requires |units| == n > MAX_OPTIONS && ReadsAll(lex, units, EachYear(n, a)) && forall i :: 0 <= i < n ==> units[i].group.None?
    ensures FirstObstacle(lex, units, Canonicalize(lex, units, []), 0, OptionsOverflow)
  {
    EachYearRivals(lex, n, a);
    hide Alternatives, Rivals, Joins, Canonicalize, LeadsConflict, ReadsAll;
    RivalsConflict(lex, units, EachYear(n, a));
    ManyAlternatives(Canonicalize(lex, units, []), n, a);
    NamedOverflow(lex, units, Canonicalize(lex, units, []));
  }

  lemma {:induction false} NamedOverflow(lex: Lexicon, units: seq<SourceUnit>, canonical: seq<Canonical>)
    requires 0 < |units| == |canonical| && LeadsConflict(canonical, 0) && canonical[0].subject.Some? && |Alternatives(canonical, 0)| > MAX_OPTIONS
    ensures FirstObstacle(lex, units, canonical, 0, OptionsOverflow)
  {
    hide LeadsConflict, Alternatives;
  }

  lemma {:induction false} EachYearRivals(lex: Lexicon, n: nat, a: string)
    ensures Rivals(lex, EachYear(n, a))
  {
  }

  lemma {:induction false} ManyAlternatives(canonical: seq<Canonical>, n: nat, a: string)
    requires 1 <= n == |canonical| && forall i :: 0 <= i < n ==> Joins(canonical, EachYear(n, a), i)
    ensures |Alternatives(canonical, 0)| >= n && canonical[0].subject.Some?
  {
    hide ParametersOf;
    var options := EachOption(n);
    DistinctSize(options);
    assert Joins(canonical, EachYear(n, a), 0);
    forall p | p in options
      ensures p in Alternatives(canonical, 0)
    {
      var i :| 0 <= i < |options| && options[i] == p;
      assert Joins(canonical, EachYear(n, a), i);
      assert ParametersOf(canonical[i]) == p;
    }
    SubsetSize((set p | p in options), Alternatives(canonical, 0));
  }

  /** One sentence of more than 500 characters whose modality the reviewer has to give. */
  lemma {:induction false} LongSentenceStopsBuilding(lex: Lexicon, text: string, a: string, blank: Draft)
    requires VocabularyOk(lex) && IsBlank(blank) && |text| > MAX_REVIEW_TEXT
    requires AllPlain(lex, [text], [Sentence(None, Skill, Some(a), None, None)])
    ensures var units := Units([text], Stop(), [Sentence(None, Skill, Some(a), None, None)]);
      && SlicedFrom(Joined([text], Stop()), units) && SourceOk(units)
      && Build(lex, units, Canonicalize(lex, units, []), blank) == Err(ReviewTextTooLong)
  {
    var sentences := [Sentence(None, Skill, Some(a), None, None)];
    var units := Units([text], Stop(), sentences);
    LaidOut(lex, [text], Stop(), sentences);
    AllAreRead(lex, [text], Stop(), sentences);
    hide AllPlain, Joined, At, SlicedFrom, SourceOk, PerSpan, VocabularyOk, IsBlank, Build;
    NoClauses(units, PerSpan(lex, units, []));
    var canonical := Canonicalize(lex, units, []);
    assert canonical == [Read(0, sentences[0])];
    hide Canonicalize;
    assert FirstObstacle(lex, units, canonical, 0, ReviewTextTooLong);
    BuildFailsAtFirstObstacle(lex, units, [], blank, ReviewTextTooLong);
  }
}
