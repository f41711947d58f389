/**
 Coordinated clauses and their numbers: two spans carry the same number exactly when they are sides of
 one clause that was cut at its connector.
 */
module ClauseGroups {
  import opened Wrappers
  import opened Segmentation
  import opened MaterialSpans

  ghost predicate Holds(r: Range, u: Unit) {
    r.0 <= u.start && u.end <= r.1
  }

  /** A sentence that is taken apart at its commas: one that states no contrast. */
  ghost predicate IsCut(lex: Lexicon, text: string, sentence: Range)
    requires LexiconOk(lex)
  {
    sentence in SentenceRanges(lex, text) && sentence.0 <= sentence.1 <= |text| && !lex.contrast(text[sentence.0..sentence.1])
  }

  /** A clause with one connector, both of whose sides can stand alone once its headings are gone. */
  ghost predicate Coordinates(lex: Lexicon, text: string, sentence: Range, clause: Range)
    requires LexiconOk(lex)
  {
    && clause.0 <= clause.1 <= |text|
    && var body := Narrowed(lex, text, clause);
       var source := text[body.0..body.1];
       |lex.connectors(source)| == 1 && lex.splits(source, lex.connectors(source)[0], lex.governing(text, sentence, body).Some?)
  }

  /** A coordinated clause of the text. */
  ghost predicate IsCoordinated(lex: Lexicon, text: string, clause: Range)
    requires LexiconOk(lex)
  {
    exists s :: IsCut(lex, text, s) && clause in ClauseRanges(lex, text, s) && Coordinates(lex, text, s, clause)
  }

  ghost predicate IsPlain(lex: Lexicon, text: string, r: Range)
    requires LexiconOk(lex)
  {
    || (r in SentenceRanges(lex, text) && r.0 <= r.1 <= |text| && lex.contrast(text[r.0..r.1]))
    || exists s :: IsCut(lex, text, s) && r in ClauseRanges(lex, text, s) && !Coordinates(lex, text, s, r)
  }

  /** Each unit has a home it came from; numbered units have coordinated homes, one number for each home. */
  ghost predicate Housed(
      lex: Lexicon, text: string, us: seq<Unit>, homes: seq<Range>, lo: nat, hi: nat, from: nat, upTo: nat)
    requires LexiconOk(lex)
  {
    && |homes| == |us|
    && (forall i :: 0 <= i < |us| ==> lo <= homes[i].0 < homes[i].1 <= hi && Holds(homes[i], us[i]))
    && (forall i :: 0 <= i < |us| && us[i].group.Some? ==> from < us[i].group.value <= upTo && IsCoordinated(lex, text, homes[i]))
    && (forall i :: 0 <= i < |us| && us[i].group.None? ==> IsPlain(lex, text, homes[i]))
    && forall i, j :: 0 <= i < |us| && 0 <= j < |us| && us[i].group.Some? && us[j].group.Some? ==>
         (us[i].group == us[j].group <==> homes[i] == homes[j])
  }

  lemma {:induction false} HousedJoins(
      lex: Lexicon, text: string, a: seq<Unit>, b: seq<Unit>, homesA: seq<Range>, homesB: seq<Range>,
      lo: nat, mid: nat, hi: nat, from: nat, between: nat, upTo: nat)
    requires LexiconOk(lex) && lo <= mid <= hi && from <= between <= upTo
    requires Housed(lex, text, a, homesA, lo, mid, from, between) && Housed(lex, text, b, homesB, mid, hi, between, upTo)
    ensures Housed(lex, text, a + b, homesA + homesB, lo, hi, from, upTo)
  {
    hide LexiconOk, IsCoordinated, IsPlain;
  }

  lemma {:induction false} HousedWidens(
      lex: Lexicon, text: string, us: seq<Unit>, homes: seq<Range>, lo: nat, hi: nat, from: nat, upTo: nat, lo': nat, hi': nat)
    requires LexiconOk(lex) && Housed(lex, text, us, homes, lo, hi, from, upTo) && lo' <= lo && hi <= hi'
    ensures Housed(lex, text, us, homes, lo', hi', from, upTo)
  {
    hide LexiconOk, IsCoordinated, IsPlain;
  }

  // ------------------------------------------------------------------ clause by clause

  function Copies(r: Range, n: nat): (rs: seq<Range>)
    ensures |rs| == n && forall i :: 0 <= i < n ==> rs[i] == r
  {
    seq(n, i requires 0 <= i < n => r)
  }

  lemma {:induction false} ClauseHoused(
      lex: Lexicon, text: string, sentence: Range, clause: Range, groups: nat) returns (homes: seq<Range>)
    requires LexiconOk(lex) && IsCut(lex, text, sentence) && clause in ClauseRanges(lex, text, sentence) && clause.0 < clause.1 <= |text|
    ensures var (us, count) := ClauseUnits(lex, text, sentence, clause, groups);
      groups <= count && Housed(lex, text, us, homes, clause.0, clause.1, groups, count)
  {
    ClauseUnitsRise(lex, text, sentence, clause, groups);
    AllNumbered(lex, text, sentence, clause, groups);
    hide LexiconOk, ClauseUnits, ClauseRanges, Coordinates, IsCut, Housed;
    var (us, count) := ClauseUnits(lex, text, sentence, clause, groups);
    homes := Copies(clause, |us|);
    assert Coordinates(lex, text, sentence, clause) ==> IsCoordinated(lex, text, clause);
    assert !Coordinates(lex, text, sentence, clause) ==> IsPlain(lex, text, clause);
    hide IsCoordinated, IsPlain;
    OneHome(lex, text, us, clause, groups, count);
  }

  lemma {:induction false} OneHome(lex: Lexicon, text: string, us: seq<Unit>, home: Range, from: nat, upTo: nat)
    requires LexiconOk(lex) && home.0 < home.1 && Rising(us, home.0, home.1)
    requires
      || (upTo == from + 1 && IsCoordinated(lex, text, home) && forall u :: u in us ==> u.group == Some(upTo))
      || (upTo == from && IsPlain(lex, text, home) && forall u :: u in us ==> u.group == None)
    ensures Housed(lex, text, us, Copies(home, |us|), home.0, home.1, from, upTo)
  {
    hide LexiconOk, IsCoordinated, IsPlain;
    assert forall i :: 0 <= i < |us| ==> us[i] in us;
  }

  lemma {:induction false} AllNumbered(lex: Lexicon, text: string, sentence: Range, clause: Range, groups: nat)
    requires LexiconOk(lex) && clause.0 <= clause.1 <= |text|
    ensures var (us, count) := ClauseUnits(lex, text, sentence, clause, groups);
      if Coordinates(lex, text, sentence, clause) then count == groups + 1 && forall u :: u in us ==> u.group == Some(count)
      else count == groups && |us| == 1 && us[0].group == None
  {
    hide LexiconOk, Narrowed, Pieces, Shifted, CutsFrom;
  }

  lemma {:induction false} ClausesHoused(
      lex: Lexicon, text: string, sentence: Range, clauses: seq<Range>, groups: nat, lo: nat, hi: nat, k: nat := 0)
      returns (homes: seq<Range>)
    requires LexiconOk(lex) && IsCut(lex, text, sentence) && k <= |clauses| && Ascending(clauses, 0, |text|) && lo <= hi
    requires forall i :: k <= i < |clauses| ==>
      clauses[i] in ClauseRanges(lex, text, sentence) && lo <= clauses[i].0 < clauses[i].1 <= hi && clauses[i].1 <= |text|
    ensures var (us, count) := ClausesUnits(lex, text, sentence, clauses, groups, k);
      groups <= count && Housed(lex, text, us, homes, lo, hi, groups, count)
    decreases |clauses| - k
  {
    hide LexiconOk, ClauseUnits, Housed, IsCut, ClauseRanges;
    if k == |clauses| {
      homes := [];
      NobodyHoused(lex, text, lo, hi, groups);
    } else {
      var first := ClauseUnits(lex, text, sentence, clauses[k], groups);
      var homesA := ClauseHoused(lex, text, sentence, clauses[k], groups);
      var homesB := ClausesHoused(lex, text, sentence, clauses, first.1, clauses[k].1, hi, k + 1);
      var rest := ClausesUnits(lex, text, sentence, clauses, first.1, k + 1);
      HousedWidens(lex, text, first.0, homesA, clauses[k].0, clauses[k].1, groups, first.1, lo, clauses[k].1);
      HousedJoins(lex, text, first.0, rest.0, homesA, homesB, lo, clauses[k].1, hi, groups, first.1, rest.1);
      homes := homesA + homesB;
    }
  }

  lemma {:induction false} NobodyHoused(lex: Lexicon, text: string, lo: nat, hi: nat, groups: nat)
    requires LexiconOk(lex)
    ensures Housed(lex, text, [], [], lo, hi, groups, groups)
  {
  }

  lemma {:induction false} SentenceHoused(
      lex: Lexicon, text: string, sentence: Range, groups: nat) returns (homes: seq<Range>)
    requires LexiconOk(lex) && sentence in SentenceRanges(lex, text) && sentence.0 < sentence.1 <= |text|
    ensures var (us, count) := SentenceUnits(lex, text, sentence, groups);
      groups <= count && Housed(lex, text, us, homes, sentence.0, sentence.1, groups, count)
  {
    hide LexiconOk, ClausesUnits, ClauseRanges, SentenceRanges;
    if lex.contrast(text[sentence.0..sentence.1]) {
      homes := [sentence];
      assert IsPlain(lex, text, sentence);
      hide IsPlain, IsCoordinated;
    } else {
      ClausesInside(lex, text, sentence);
      var clauses := ClauseRanges(lex, text, sentence);
      ClausesAreThere(lex, text, sentence);
      homes := ClausesHoused(lex, text, sentence, clauses, groups, sentence.0, sentence.1);
    }
  }

  lemma {:induction false} ClausesAreThere(lex: Lexicon, text: string, sentence: Range)
    requires LexiconOk(lex) && sentence.0 <= sentence.1 <= |text|
    ensures forall c :: c in ClauseRanges(lex, text, sentence) ==> sentence.0 <= c.0 < c.1 <= sentence.1
  {
    hide LexiconOk;
    PiecesAscend(lex, text, Commas(text, sentence.0, sentence.1), sentence.0, sentence.1);
    var clauses := ClauseRanges(lex, text, sentence);
    forall c | c in clauses
      ensures sentence.0 <= c.0 < c.1 <= sentence.1
    {
      var i :| 0 <= i < |clauses| && clauses[i] == c;
    }
  }

  lemma {:induction false} SentencesHoused(
      lex: Lexicon, text: string, sentences: seq<Range>, groups: nat, lo: nat, k: nat := 0)
      returns (homes: seq<Range>, count: nat)
    requires LexiconOk(lex) && k <= |sentences| && Ascending(sentences, 0, |text|) && lo <= |text|
    requires forall i :: k <= i < |sentences| ==> sentences[i] in SentenceRanges(lex, text) && lo <= sentences[i].0 < sentences[i].1 <= |text|
    ensures groups <= count && Housed(lex, text, SentencesUnits(lex, text, sentences, groups, k), homes, lo, |text|, groups, count)
    decreases |sentences| - k
  {
    hide LexiconOk, SentenceUnits, Housed, SentenceRanges;
    if k == |sentences| {
      homes, count := [], groups;
      NobodyHoused(lex, text, lo, |text|, groups);
    } else {
      var first := SentenceUnits(lex, text, sentences[k], groups);
      var homesA := SentenceHoused(lex, text, sentences[k], groups);
      var homesB;
      homesB, count := SentencesHoused(lex, text, sentences, first.1, sentences[k].1, k + 1);
      HousedWidens(lex, text, first.0, homesA, sentences[k].0, sentences[k].1, groups, first.1, lo, sentences[k].1);
      HousedJoins(
        lex, text, first.0, SentencesUnits(lex, text, sentences, first.1, k + 1), homesA, homesB,
        lo, sentences[k].1, |text|, groups, first.1, count);
      homes := homesA + homesB;
    }
  }

  /** Every unit of the text has a home. */
  lemma {:induction false} UnitsAreHoused(lex: Lexicon, text: string) returns (homes: seq<Range>, count: nat)
    requires LexiconOk(lex)
    ensures Housed(lex, text, AllUnits(lex, text), homes, 0, |text|, 0, count)
  {
    SentencesInside(lex, text);
    SentencesAreThere(lex, text);
    hide LexiconOk, SentencesUnits, SentenceRanges;
    homes, count := SentencesHoused(lex, text, SentenceRanges(lex, text), 0, 0);
  }

  lemma {:induction false} SentencesAreThere(lex: Lexicon, text: string)
    requires LexiconOk(lex)
    ensures forall s :: s in SentenceRanges(lex, text) ==> s.0 < s.1 <= |text|
  {
    PiecesAscend(lex, text, lex.boundaries(text), 0, |text|);
    var sentences := SentenceRanges(lex, text);
    hide LexiconOk;
    forall s | s in sentences
      ensures s.0 < s.1 <= |text|
    {
      var i :| 0 <= i < |sentences| && sentences[i] == s;
    }
  }

  // ------------------------------------------------------------------ homes are pairwise apart

  ghost predicate Disjoint(a: Range, b: Range) {
    a.1 <= b.0 || b.1 <= a.0
  }

  lemma {:induction false} AscendingApart(rs: seq<Range>, lo: nat, hi: nat, a: Range, b: Range)
    requires Ascending(rs, lo, hi) && a in rs && b in rs
    ensures a == b || Disjoint(a, b)
  {
    var i :| 0 <= i < |rs| && rs[i] == a;
    var j :| 0 <= j < |rs| && rs[j] == b;
  }

  /** A place: a clause of a cut sentence, or a whole sentence that is not cut. */
  ghost predicate IsPlace(lex: Lexicon, text: string, sentence: Range, r: Range)
    requires LexiconOk(lex)
  {
    && sentence in SentenceRanges(lex, text) && sentence.0 <= sentence.1 <= |text|
    && if lex.contrast(text[sentence.0..sentence.1]) then r == sentence else r in ClauseRanges(lex, text, sentence)
  }

  lemma {:induction false} PlacesApart(lex: Lexicon, text: string, s: Range, a: Range, t: Range, b: Range)
    requires LexiconOk(lex) && IsPlace(lex, text, s, a) && IsPlace(lex, text, t, b)
    ensures (s == t && a == b) || Disjoint(a, b)
  {
    SentencesInside(lex, text);
    AscendingApart(SentenceRanges(lex, text), 0, |text|, s, t);
    ClausesInside(lex, text, s);
    ClausesAreThere(lex, text, s);
    ClausesAreThere(lex, text, t);
    hide LexiconOk, SentenceRanges, ClauseRanges, Ascending;
    if s == t && a != b {
      AscendingApart(ClauseRanges(lex, text, s), s.0, s.1, a, b);
    }
  }

  lemma {:induction false} PlainApart(lex: Lexicon, text: string, s: Range, a: Range, b: Range)
    requires LexiconOk(lex) && IsCut(lex, text, s) && a in ClauseRanges(lex, text, s) && Coordinates(lex, text, s, a)
    requires IsPlain(lex, text, b)
    ensures Disjoint(a, b)
  {
    hide LexiconOk, SentenceRanges, ClauseRanges, Coordinates;
    assert IsPlace(lex, text, s, a);
    if t :| IsCut(lex, text, t) && b in ClauseRanges(lex, text, t) && !Coordinates(lex, text, t, b) {
      assert IsPlace(lex, text, t, b);
      PlacesApart(lex, text, s, a, t, b);
    } else {
      assert IsPlace(lex, text, b, b);
      PlacesApart(lex, text, s, a, b, b);
    }
  }

  lemma {:induction false} CoordinatedApart(lex: Lexicon, text: string, a: Range, b: Range)
    requires LexiconOk(lex) && IsCoordinated(lex, text, a) && (IsCoordinated(lex, text, b) || IsPlain(lex, text, b))
    ensures (a == b && !IsPlain(lex, text, b)) || Disjoint(a, b)
  {
    hide LexiconOk, ClauseRanges, SentenceRanges, Coordinates, IsPlain;
    var s :| IsCut(lex, text, s) && a in ClauseRanges(lex, text, s) && Coordinates(lex, text, s, a);
    NotEmpty(lex, text, s, a);
    if IsPlain(lex, text, b) {
      PlainApart(lex, text, s, a, b);
    } else {
      var t :| IsCut(lex, text, t) && b in ClauseRanges(lex, text, t) && Coordinates(lex, text, t, b);
      CutsArePlaces(lex, text, s, a);
      CutsArePlaces(lex, text, t, b);
      PlacesApart(lex, text, s, a, t, b);
    }
  }

  lemma {:induction false} CutsArePlaces(lex: Lexicon, text: string, s: Range, a: Range)
    requires LexiconOk(lex) && IsCut(lex, text, s) && a in ClauseRanges(lex, text, s)
    ensures IsPlace(lex, text, s, a)
  {
    hide LexiconOk, SentenceRanges, ClauseRanges;
  }

  lemma {:induction false} NotEmpty(lex: Lexicon, text: string, s: Range, a: Range)
    requires LexiconOk(lex) && IsCut(lex, text, s) && a in ClauseRanges(lex, text, s)
    ensures a.0 < a.1
  {
    ClausesAreThere(lex, text, s);
  }

  // ------------------------------------------------------------------ the spans of the analysis

  /** Each remaining part lies in a unit, with the unit's number. */
  lemma {:induction false} PartsKeepNumbers(
      lex: Lexicon, text: string, units: seq<Unit>, controls: seq<Range>, v: Unit, k: nat := 0) returns (i: nat)
    requires k <= |units| && Rising(units, 0, |text|) && ControlsOk(text, controls) && LexiconOk(lex)
    requires v in Remaining(lex, text, units, controls, k)
    ensures i < |units| && Holds((units[i].start, units[i].end), v) && v.group == units[i].group
    decreases |units| - k
  {
    hide LexiconOk, Uncontrolled, SharedClear;
    var u := units[k];
    var kept := Uncontrolled(lex, text, [(u.start, u.end)], controls);
    var part := UnitsFor(kept, SharedClear(u, controls), u.group);
    if v in part {
      assert controls[..0] == [];
      UncontrolledIsClear(lex, text, [(u.start, u.end)], controls, u.start, u.end);
      var j :| 0 <= j < |part| && part[j] == v;
      i := k;
    } else {
      i := PartsKeepNumbers(lex, text, units, controls, v, k + 1);
    }
  }

  /** A material span with the home of its unit. */
  lemma {:induction false} MaterialHome(
      lex: Lexicon, text: string, homes: seq<Range>, count: nat, v: Unit) returns (i: nat)
    requires LexiconOk(lex) && Housed(lex, text, AllUnits(lex, text), homes, 0, |text|, 0, count) && v in MaterialUnits(lex, text)
    ensures i < |homes| == |AllUnits(lex, text)| && Holds(homes[i], v) && v.group == AllUnits(lex, text)[i].group && v.start < v.end
  {
    RemainingAreRising(lex, text);
    MaterialSpansAreDisjoint(lex, text);
    hide LexiconOk, AllUnits, Remaining, Material, MaterialUnits, IsCoordinated, IsPlain, ControlsOk;
    MaterialRises(lex, text, Remaining(lex, text, AllUnits(lex, text), lex.controls(text)), 0);
    i := PartsKeepNumbers(lex, text, AllUnits(lex, text), lex.controls(text), v);
    var us := MaterialUnits(lex, text);
    var j :| 0 <= j < |us| && us[j] == v;
  }

  /**
   A span is numbered exactly when it lies in a coordinated clause, and two numbered spans carry the same
   number exactly when they lie in the same one.
   */
  lemma {:induction false} NumbersAreClauses(lex: Lexicon, text: string, u: Unit, v: Unit)
    requires LexiconOk(lex) && u in MaterialUnits(lex, text) && v in MaterialUnits(lex, text)
    ensures u.group.Some? <==> exists c :: IsCoordinated(lex, text, c) && Holds(c, u)
    ensures u.group.Some? && v.group.Some? ==>
      (u.group == v.group <==> exists c :: IsCoordinated(lex, text, c) && Holds(c, u) && Holds(c, v))
  {
    var homes, count := UnitsAreHoused(lex, text);
    var i := MaterialHome(lex, text, homes, count, u);
    var j := MaterialHome(lex, text, homes, count, v);
    hide LexiconOk, MaterialUnits, AllUnits, IsCoordinated, IsPlain;
    forall c | IsCoordinated(lex, text, c) && Holds(c, u)
      ensures u.group.Some? && c == homes[i]
    {
      CoordinatedApart(lex, text, c, homes[i]);
    }
    forall c | IsCoordinated(lex, text, c) && Holds(c, v)
      ensures v.group.Some? && c == homes[j]
    {
      CoordinatedApart(lex, text, c, homes[j]);
    }
  }

  // ------------------------------------------------------------------ headings stay out

  predicate IsFirstColon(text: string, r: Range, c: nat) {
    r.0 <= c < r.1 <= |text| && text[c] == ':' && forall i :: r.0 <= i < c ==> text[i] != ':'
  }

  /** The unit lies in the clause, behind its vacancy header, its search preamble and its role heading. */
  ghost predicate PastHeadings(lex: Lexicon, text: string, clause: Range, u: Unit)
    requires LexiconOk(lex) && clause.0 <= clause.1 <= |text|
  {
    var headless := WithoutHeader(lex, text, clause);
    var body := WithoutPreamble(lex, text, headless);
    && Holds(clause, u)
    && u.start >= clause.0 + lex.header(text[clause.0..clause.1])
    && u.start >= headless.0 + lex.preamble(text[headless.0..headless.1])
    && forall c: nat :: IsFirstColon(text, body, c) && lex.rolePrefix(text[body.0..c]) ==> u.start > c
  }

  lemma {:induction false} FirstColonIs(text: string, from: nat, end: nat, c: nat)
    requires from <= end <= |text| && IsFirstColon(text, (from, end), c)
    ensures FirstColon(text, from, end) == Some(c)
    decreases end - from
  {
    if from < c { FirstColonIs(text, from + 1, end, c); }
  }

  lemma {:induction false} BodyIsPastHeadings(lex: Lexicon, text: string, clause: Range, u: Unit)
    requires LexiconOk(lex) && clause.0 <= clause.1 <= |text|
    requires Holds(Narrowed(lex, text, clause), u)
    ensures PastHeadings(lex, text, clause, u)
  {
    var body := WithoutPreamble(lex, text, WithoutHeader(lex, text, clause));
    hide LexiconOk, SkipLeading, DropTrailing;
    forall c: nat | IsFirstColon(text, body, c) && lex.rolePrefix(text[body.0..c])
      ensures u.start > c
    {
      FirstColonIs(text, body.0, body.1, c);
    }
  }

  lemma {:induction false} ClauseIsPastHeadings(
      lex: Lexicon, text: string, sentence: Range, clause: Range, groups: nat, u: Unit)
    requires LexiconOk(lex) && clause.0 <= clause.1 <= |text| && u in ClauseUnits(lex, text, sentence, clause, groups).0
    ensures PastHeadings(lex, text, clause, u)
  {
    var body := Narrowed(lex, text, clause);
    var shared := lex.governing(text, sentence, body);
    assert Holds(body, u) by {
      hide LexiconOk, Narrowed, Pieces, Shifted, UnitsFor, CutsFrom;
      if ShouldSplit(lex, text[body.0..body.1], shared.Some?) {
        SidesRise(lex, text, body, shared, Some(groups + 1));
      }
    }
    hide *;
    BodyIsPastHeadings(lex, text, clause, u);
  }

  ghost predicate FromClause(lex: Lexicon, text: string, s: Range, clause: Range, u: Unit)
    requires LexiconOk(lex)
  {
    IsCut(lex, text, s) && clause in ClauseRanges(lex, text, s) && clause.0 <= clause.1 <= |text| && PastHeadings(lex, text, clause, u)
  }

  lemma {:induction false} ClausesArePastHeadings(
      lex: Lexicon, text: string, sentence: Range, clauses: seq<Range>, groups: nat, u: Unit, k: nat := 0)
    requires LexiconOk(lex) && IsCut(lex, text, sentence) && k <= |clauses| && Ascending(clauses, 0, |text|)
    requires forall i :: k <= i < |clauses| ==> clauses[i] in ClauseRanges(lex, text, sentence)
    requires u in ClausesUnits(lex, text, sentence, clauses, groups, k).0
    ensures exists c :: FromClause(lex, text, sentence, c, u)
    decreases |clauses| - k
  {
    hide LexiconOk, ClauseUnits, IsCut, ClauseRanges, PastHeadings;
    var first := ClauseUnits(lex, text, sentence, clauses[k], groups);
    if u in first.0 {
      ClauseIsPastHeadings(lex, text, sentence, clauses[k], groups, u);
      assert FromClause(lex, text, sentence, clauses[k], u);
    } else {
      ClausesArePastHeadings(lex, text, sentence, clauses, first.1, u, k + 1);
    }
  }

  ghost predicate IsWhole(lex: Lexicon, text: string, s: Range, u: Unit) {
    s.0 <= s.1 <= |text| && lex.contrast(text[s.0..s.1]) && u.start == s.0 && u.end == s.1
  }

  lemma {:induction false} SentencesArePastHeadings(
      lex: Lexicon, text: string, sentences: seq<Range>, groups: nat, u: Unit, k: nat := 0) returns (s: Range)
    requires LexiconOk(lex) && k <= |sentences| && Ascending(sentences, 0, |text|)
    requires forall i :: k <= i < |sentences| ==> sentences[i] in SentenceRanges(lex, text) && sentences[i].0 < sentences[i].1 <= |text|
    requires u in SentencesUnits(lex, text, sentences, groups, k)
    ensures s in SentenceRanges(lex, text) && (IsWhole(lex, text, s, u) || exists c :: FromClause(lex, text, s, c, u))
    decreases |sentences| - k
  {
    hide LexiconOk, SentenceRanges, FromClause, ClausesUnits, ClauseRanges;
    s := sentences[k];
    var first := SentenceUnits(lex, text, s, groups);
    if u !in first.0 {
      s := SentencesArePastHeadings(lex, text, sentences, first.1, u, k + 1);
    } else if !lex.contrast(text[s.0..s.1]) {
      ClausesInside(lex, text, s);
      ClausesArePastHeadings(lex, text, s, ClauseRanges(lex, text, s), groups, u);
    }
  }

  /**
   Headings stay out of the requirements: a unit is a whole sentence that states a contrast, or lies in a
   clause behind everything that only introduces it.
   */
  lemma {:induction false} HeadingsStayOut(lex: Lexicon, text: string, u: Unit) returns (s: Range)
    requires LexiconOk(lex) && u in AllUnits(lex, text)
    ensures s in SentenceRanges(lex, text) && (IsWhole(lex, text, s, u) || exists c :: FromClause(lex, text, s, c, u))
  {
    SentencesInside(lex, text);
    SentencesAreThere(lex, text);
    hide LexiconOk, SentencesUnits, SentenceRanges, FromClause;
    s := SentencesArePastHeadings(lex, text, SentenceRanges(lex, text), 0, u);
  }
}
