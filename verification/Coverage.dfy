/**
 No character is lost between a text and its analysis: each is in a unit, in result-count wording, or in
 something the segmentation drops on purpose.
 */
module Coverage {
  import opened Wrappers
  import opened Segmentation
  import opened MaterialSpans

  predicate InRange(r: Range, i: nat) {
    r.0 <= i < r.1
  }

  predicate Covered(rs: seq<Range>, i: nat) {
    exists r :: r in rs && InRange(r, i)
  }

  predicate InUnit(u: Unit, i: nat) {
    u.start <= i < u.end
  }

  predicate InUnits(us: seq<Unit>, i: nat) {
    exists u :: u in us && InUnit(u, i)
  }

  predicate InCut(cuts: seq<Cut>, i: nat) {
    exists c :: c in cuts && c.stop <= i < c.end
  }

  // ------------------------------------------------------------------ what is dropped on purpose

  /** Space, list marks and closing punctuation at the edge of a piece, or a numbered list mark. */
  ghost predicate Edge(lex: Lexicon, text: string, i: nat)
    requires i < |text|
  {
    || Leading(lex, text[i]) || Trailing(lex, text[i])
    || exists s: nat, e: nat :: s <= i < lex.bullet(text, s, e) <= e <= |text|
  }

  ghost predicate InHeader(lex: Lexicon, text: string, i: nat) {
    exists a: nat, b: nat :: a <= b <= |text| && a <= i < a + lex.header(text[a..b])
  }

  ghost predicate InPreamble(lex: Lexicon, text: string, i: nat) {
    exists a: nat, b: nat :: a <= b <= |text| && a <= i < a + lex.preamble(text[a..b])
  }

  ghost predicate InRolePrefix(lex: Lexicon, text: string, i: nat) {
    exists a: nat, c: nat :: a <= i <= c < |text| && text[c] == ':' && lex.rolePrefix(text[a..c])
  }

  ghost predicate InConnector(lex: Lexicon, text: string, i: nat) {
    exists a: nat, b: nat, c :: a <= b <= |text| && c in lex.connectors(text[a..b]) && a + c.stop <= i < a + c.end
  }

  ghost predicate Dropped(lex: Lexicon, text: string, i: nat)
    requires i < |text|
  {
    || Edge(lex, text, i) || InCut(lex.boundaries(text), i) || text[i] == ',' || InConnector(lex, text, i)
    || InHeader(lex, text, i) || InPreamble(lex, text, i) || InRolePrefix(lex, text, i)
  }

  // ------------------------------------------------------------------ trimming and cutting

  lemma {:induction false} TrimmingCovers(lex: Lexicon, text: string, start: nat, end: nat, i: nat)
    requires start <= i < end <= |text| && LexiconOk(lex)
    ensures InRange(Trimmed(lex, text, start, end), i) || Edge(lex, text, i)
  {
    var skipped := SkipLeading(lex, text, start, end);
    var s := lex.bullet(text, skipped, end);
    var e := DropTrailing(lex, text, s, end);
    if i < skipped {
      assert Leading(lex, text[i]);
    } else if i < s {
      assert skipped <= i < lex.bullet(text, skipped, end) <= end <= |text|;
    } else if e <= i {
      assert Trailing(lex, text[i]);
    }
  }

  lemma {:induction false} PieceCovers(lex: Lexicon, text: string, start: nat, end: nat, i: nat)
    requires start <= i < end <= |text| && LexiconOk(lex)
    ensures Covered(Piece(Trimmed(lex, text, start, end)), i) || Edge(lex, text, i)
  {
    TrimmingCovers(lex, text, start, end, i);
    var r := Trimmed(lex, text, start, end);
    hide LexiconOk, Trimmed, Edge;
    if InRange(r, i) { assert r in Piece(r); }
  }

  lemma {:induction false} CoveredJoins(a: seq<Range>, b: seq<Range>, i: nat)
    ensures Covered(a + b, i) <==> Covered(a, i) || Covered(b, i)
  {
    if r :| r in a && InRange(r, i) { assert r in a + b; }
    if r :| r in b && InRange(r, i) { assert r in a + b; }
  }

  lemma {:induction false} PiecesCover(
      lex: Lexicon, text: string, cuts: seq<Cut>, from: nat, end: nat, i: nat, k: nat := 0)
    requires end <= |text| && CutsFrom(cuts, k, from, end) && LexiconOk(lex) && from <= i < end
    ensures Covered(Pieces(lex, text, cuts, from, end, k), i) || InCut(cuts, i) || Edge(lex, text, i)
    decreases |cuts| - k
  {
    hide LexiconOk, Edge, Covered;
    if k == |cuts| {
      PieceCovers(lex, text, from, end, i);
    } else {
      CutStep(cuts, k, from, end);
      CoveredJoins(Piece(Trimmed(lex, text, from, cuts[k].stop)), Pieces(lex, text, cuts, cuts[k].end, end, k + 1), i);
      if i < cuts[k].stop {
        PieceCovers(lex, text, from, cuts[k].stop, i);
      } else if i >= cuts[k].end {
        PiecesCover(lex, text, cuts, cuts[k].end, end, i, k + 1);
      } else {
        assert cuts[k] in cuts;
      }
    }
  }

  lemma {:induction false} CommaCuts(text: string, from: nat, end: nat, i: nat)
    requires from <= end <= |text| && InCut(Commas(text, from, end), i)
    ensures i < |text| && text[i] == ','
    decreases end - from
  {
    if from < end && !(text[from] == ',' && i == from) {
      assert InCut(Commas(text, from + 1, end), i);
      CommaCuts(text, from + 1, end, i);
    }
  }

  // ------------------------------------------------------------------ clauses, sentences, the text

  lemma {:induction false} NarrowingCovers(lex: Lexicon, text: string, clause: Range, i: nat)
    requires clause.0 <= i < clause.1 <= |text| && LexiconOk(lex)
    ensures InRange(Narrowed(lex, text, clause), i) || Dropped(lex, text, i)
  {
    hide LexiconOk, Edge, Trimmed, InCut, InConnector, InHeader, InPreamble, InRolePrefix, FirstColon;
    HeadFits(lex, text[clause.0..clause.1]);
    var h := lex.header(text[clause.0..clause.1]);
    var body := if h > 0 then Trimmed(lex, text, clause.0 + h, clause.1) else clause;
    HeaderCovers(lex, text, clause, i);
    HeadFits(lex, text[body.0..body.1]);
    var p := lex.preamble(text[body.0..body.1]);
    if InRange(body, i) {
      PreambleCovers(lex, text, body, i);
      if body.0 + p <= i { HeadingCovers(lex, text, body.0 + p, body.1, i); }
    }
  }

  lemma {:induction false} HeaderCovers(lex: Lexicon, text: string, clause: Range, i: nat)
    requires clause.0 <= i < clause.1 <= |text| && LexiconOk(lex)
    ensures var h := lex.header(text[clause.0..clause.1]);
      clause.0 + h <= clause.1
      && (InRange(if h > 0 then Trimmed(lex, text, clause.0 + h, clause.1) else clause, i) || InHeader(lex, text, i) || Edge(lex, text, i))
  {
    hide LexiconOk, Edge, Trimmed;
    HeadFits(lex, text[clause.0..clause.1]);
    var h := lex.header(text[clause.0..clause.1]);
    if i >= clause.0 + h {
      TrimmingCovers(lex, text, clause.0 + h, clause.1, i);
    }
  }

  lemma {:induction false} PreambleCovers(lex: Lexicon, text: string, body: Range, i: nat)
    requires InRange(body, i) && body.1 <= |text|
    ensures i < body.0 + lex.preamble(text[body.0..body.1]) ==> InPreamble(lex, text, i)
  {
  }

  lemma {:induction false} HeadingCovers(lex: Lexicon, text: string, from: nat, end: nat, i: nat)
    requires from <= i < end <= |text| && LexiconOk(lex)
    ensures var colon := FirstColon(text, from, end);
      colon.Some? && lex.rolePrefix(text[from..colon.value]) ==>
        InRange(Trimmed(lex, text, colon.value + 1, end), i) || Edge(lex, text, i) || InRolePrefix(lex, text, i)
  {
    hide LexiconOk, Edge, Trimmed;
    var colon := FirstColon(text, from, end);
    if colon.Some? && lex.rolePrefix(text[from..colon.value]) && i > colon.value {
      TrimmingCovers(lex, text, colon.value + 1, end, i);
    }
  }

  lemma {:induction false} UnitsForCover(rs: seq<Range>, shared: Option<Range>, group: Option<nat>, i: nat)
    requires Covered(rs, i)
    ensures InUnits(UnitsFor(rs, shared, group), i)
  {
    var r :| r in rs && InRange(r, i);
    var k :| 0 <= k < |rs| && rs[k] == r;
    assert InUnit(UnitsFor(rs, shared, group)[k], i);
  }

  lemma {:induction false} UnitsJoin(a: seq<Unit>, b: seq<Unit>, i: nat)
    requires InUnits(a, i) || InUnits(b, i)
    ensures InUnits(a + b, i)
  {
    if u :| u in a && InUnit(u, i) { assert u in a + b; }
    if u :| u in b && InUnit(u, i) { assert u in a + b; }
  }

  lemma {:induction false} ClauseCovers(lex: Lexicon, text: string, sentence: Range, clause: Range, groups: nat, i: nat)
    requires clause.0 <= i < clause.1 <= |text| && LexiconOk(lex)
    ensures InUnits(ClauseUnits(lex, text, sentence, clause, groups).0, i) || Dropped(lex, text, i)
  {
    NarrowingCovers(lex, text, clause, i);
    hide LexiconOk, Narrowed, Pieces, Shifted, UnitsFor, CutsFrom, Edge, InHeader, InPreamble, InRolePrefix, ShouldSplit;
    var body := Narrowed(lex, text, clause);
    var shared := lex.governing(text, sentence, body);
    if InRange(body, i) {
      if ShouldSplit(lex, text[body.0..body.1], shared.Some?) {
        SidesCover(lex, text, body, shared, Some(groups + 1), i);
      } else {
        assert InUnit(Unit(body.0, body.1, shared, None), i);
      }
    }
  }

  lemma {:induction false} SidesCover(
      lex: Lexicon, text: string, body: Range, shared: Option<Range>, group: Option<nat>, i: nat)
    requires body.0 <= i < body.1 <= |text| && LexiconOk(lex)
    ensures CutsFrom(Shifted(lex.connectors(text[body.0..body.1]), body.0), 0, body.0, body.1)
    ensures InUnits(UnitsFor(Pieces(lex, text, Shifted(lex.connectors(text[body.0..body.1]), body.0), body.0, body.1), shared, group), i)
      || InConnector(lex, text, i) || Edge(lex, text, i)
  {
    hide LexiconOk, UnitsFor, Pieces, CutsFrom, Edge;
    var connectors := lex.connectors(text[body.0..body.1]);
    var cuts := Shifted(connectors, body.0);
    ConnectorsFit(lex, text, body);
    PiecesCover(lex, text, cuts, body.0, body.1, i);
    if Covered(Pieces(lex, text, cuts, body.0, body.1), i) {
      UnitsForCover(Pieces(lex, text, cuts, body.0, body.1), shared, group, i);
    } else if InCut(cuts, i) {
      var c :| c in cuts && c.stop <= i < c.end;
      var k :| 0 <= k < |cuts| && cuts[k] == c;
      assert connectors[k] in connectors;
    }
  }

  lemma {:induction false} ClausesCover(
      lex: Lexicon, text: string, sentence: Range, clauses: seq<Range>, groups: nat, i: nat, j: nat, k: nat := 0)
    requires k <= j < |clauses| && Ascending(clauses, 0, |text|) && LexiconOk(lex) && InRange(clauses[j], i)
    ensures i < |text| && (InUnits(ClausesUnits(lex, text, sentence, clauses, groups, k).0, i) || Dropped(lex, text, i))
    decreases |clauses| - k
  {
    hide LexiconOk, ClauseUnits, Dropped, InUnits;
    var first := ClauseUnits(lex, text, sentence, clauses[k], groups);
    if j == k {
      ClauseCovers(lex, text, sentence, clauses[k], groups, i);
    } else {
      ClausesCover(lex, text, sentence, clauses, first.1, i, j, k + 1);
    }
    if InUnits(first.0, i) || InUnits(ClausesUnits(lex, text, sentence, clauses, first.1, k + 1).0, i) {
      UnitsJoin(first.0, ClausesUnits(lex, text, sentence, clauses, first.1, k + 1).0, i);
    }
  }

  lemma {:induction false} SentenceCovers(lex: Lexicon, text: string, sentence: Range, groups: nat, i: nat)
    requires sentence.0 <= i < sentence.1 <= |text| && LexiconOk(lex)
    ensures InUnits(SentenceUnits(lex, text, sentence, groups).0, i) || Dropped(lex, text, i)
  {
    hide LexiconOk, ClausesUnits, Pieces, Commas, Ascending, Edge, InHeader, InPreamble, InRolePrefix, InConnector;
    if lex.contrast(text[sentence.0..sentence.1]) {
      assert InUnit(Unit(sentence.0, sentence.1, None, None), i);
    } else {
      ClausesInside(lex, text, sentence);
      var cuts := Commas(text, sentence.0, sentence.1);
      var clauses := ClauseRanges(lex, text, sentence);
      PiecesCover(lex, text, cuts, sentence.0, sentence.1, i);
      if Covered(clauses, i) {
        var r :| r in clauses && InRange(r, i);
        var j :| 0 <= j < |clauses| && clauses[j] == r;
        ClausesCover(lex, text, sentence, clauses, groups, i, j);
      } else if InCut(cuts, i) {
        CommaCuts(text, sentence.0, sentence.1, i);
      }
    }
  }

  lemma {:induction false} SentencesCover(
      lex: Lexicon, text: string, sentences: seq<Range>, groups: nat, i: nat, j: nat, k: nat := 0)
    requires k <= j < |sentences| && Ascending(sentences, 0, |text|) && LexiconOk(lex) && InRange(sentences[j], i)
    ensures i < |text| && (InUnits(SentencesUnits(lex, text, sentences, groups, k), i) || Dropped(lex, text, i))
    decreases |sentences| - k
  {
    hide LexiconOk, SentenceUnits, Dropped, InUnits;
    var first := SentenceUnits(lex, text, sentences[k], groups);
    if j == k {
      SentenceCovers(lex, text, sentences[k], groups, i);
    } else {
      SentencesCover(lex, text, sentences, first.1, i, j, k + 1);
    }
    if InUnits(first.0, i) || InUnits(SentencesUnits(lex, text, sentences, first.1, k + 1), i) {
      UnitsJoin(first.0, SentencesUnits(lex, text, sentences, first.1, k + 1), i);
    }
  }

  /** Every character is in a unit, or between units, in a heading or at an edge. */
  lemma {:induction false} UnitsCoverTheText(lex: Lexicon, text: string, i: nat)
    requires LexiconOk(lex) && i < |text|
    ensures InUnits(AllUnits(lex, text), i) || Dropped(lex, text, i)
  {
    SentencesInside(lex, text);
    hide LexiconOk, SentencesUnits, Pieces, CutsFrom, Ascending, Edge, InHeader, InPreamble, InRolePrefix, InConnector;
    var sentences := SentenceRanges(lex, text);
    PiecesCover(lex, text, lex.boundaries(text), 0, |text|, i);
    if Covered(sentences, i) {
      var r :| r in sentences && InRange(r, i);
      var j :| 0 <= j < |sentences| && sentences[j] == r;
      SentencesCover(lex, text, sentences, 0, i, j);
    }
  }

  // ------------------------------------------------------------------ the controls, and the analysis

  lemma {:induction false} RemainderCovers(lex: Lexicon, text: string, s: Range, c: Range, i: nat)
    requires s.0 <= i < s.1 <= |text| && c.0 < c.1 <= |text| && LexiconOk(lex)
    ensures Covered(Remainder(lex, text, s, c), i) || InRange(c, i) || Edge(lex, text, i)
  {
    hide LexiconOk, Edge, Trimmed, Covered;
    if c.1 <= s.0 || c.0 >= s.1 {
      assert s in Piece(s) && InRange(s, i);
      assert Covered(Piece(s), i) by { Single(s, i); }
    } else {
      var left := if s.0 < c.0 then Piece(Trimmed(lex, text, s.0, c.0)) else [];
      var right := if c.1 < s.1 then Piece(Trimmed(lex, text, c.1, s.1)) else [];
      CoveredJoins(left, right, i);
      if i < c.0 {
        PieceCovers(lex, text, s.0, c.0, i);
      } else if i >= c.1 {
        PieceCovers(lex, text, c.1, s.1, i);
      }
    }
  }

  lemma {:induction false} Single(r: Range, i: nat)
    requires InRange(r, i)
    ensures Covered(Piece(r), i)
  {
    assert r in Piece(r);
  }

  lemma {:induction false} RemaindersCover(
      lex: Lexicon, text: string, segments: seq<Range>, c: Range, i: nat, j: nat, k: nat := 0)
    requires k <= j < |segments| && Ascending(segments, 0, |text|) && c.0 < c.1 <= |text| && LexiconOk(lex) && InRange(segments[j], i)
    ensures i < |text| && (Covered(Remainders(lex, text, segments, c, k), i) || InRange(c, i) || Edge(lex, text, i))
    decreases |segments| - k
  {
    hide LexiconOk, Remainder, Edge, Covered;
    CoveredJoins(Remainder(lex, text, segments[k], c), Remainders(lex, text, segments, c, k + 1), i);
    if j == k {
      RemainderCovers(lex, text, segments[k], c, i);
    } else {
      RemaindersCover(lex, text, segments, c, i, j, k + 1);
    }
  }

  lemma {:induction false} UncontrolledCovers(
      lex: Lexicon, text: string, segments: seq<Range>, controls: seq<Range>, i: nat, j: nat := 0)
    requires j <= |controls| && Ascending(segments, 0, |text|) && ControlsOk(text, controls) && LexiconOk(lex)
    requires i < |text| && Covered(segments, i)
    ensures Covered(Uncontrolled(lex, text, segments, controls, j), i) || Covered(controls, i) || Edge(lex, text, i)
    decreases |controls| - j
  {
    hide LexiconOk, Remainders, Edge, Ascending;
    if j < |controls| {
      assert controls[j] in controls;
      RemaindersAscend(lex, text, segments, controls[j], 0, |text|) by { Bounds(segments, |text|); }
      var r :| r in segments && InRange(r, i);
      var k :| 0 <= k < |segments| && segments[k] == r;
      RemaindersCover(lex, text, segments, controls[j], i, k);
      if Covered(Remainders(lex, text, segments, controls[j]), i) {
        UncontrolledCovers(lex, text, Remainders(lex, text, segments, controls[j]), controls, i, j + 1);
      }
    }
  }

  lemma {:induction false} Bounds(segments: seq<Range>, hi: nat)
    requires Ascending(segments, 0, hi)
    ensures forall k :: 0 <= k < |segments| ==> segments[k].1 <= hi
  {
  }

  lemma {:induction false} RemainingCovers(
      lex: Lexicon, text: string, units: seq<Unit>, controls: seq<Range>, i: nat, j: nat, k: nat := 0)
    requires k <= j < |units| && Rising(units, 0, |text|) && ControlsOk(text, controls) && LexiconOk(lex) && InUnit(units[j], i)
    ensures i < |text| && (InUnits(Remaining(lex, text, units, controls, k), i) || Covered(controls, i) || Edge(lex, text, i))
    decreases |units| - k
  {
    hide LexiconOk, Uncontrolled, UnitsFor, SharedClear, Edge, InUnits;
    var u := units[k];
    var kept := Uncontrolled(lex, text, [(u.start, u.end)], controls);
    var part := UnitsFor(kept, SharedClear(u, controls), u.group);
    if j == k {
      assert Covered([(u.start, u.end)], i) by { assert InRange((u.start, u.end), i); }
      UncontrolledCovers(lex, text, [(u.start, u.end)], controls, i);
      if Covered(kept, i) { UnitsForCover(kept, SharedClear(u, controls), u.group, i); }
    } else {
      RemainingCovers(lex, text, units, controls, i, j, k + 1);
    }
    if InUnits(part, i) || InUnits(Remaining(lex, text, units, controls, k + 1), i) {
      UnitsJoin(part, Remaining(lex, text, units, controls, k + 1), i);
    }
  }

  /** A unit whose wording is not a requirement: blank, a role preface, or workflow intent. */
  ghost predicate Immaterial(lex: Lexicon, text: string, units: seq<Unit>, i: nat) {
    exists u :: u in units && InUnit(u, i) && u.end <= |text| && !Kept(lex, text, u)
  }

  lemma {:induction false} MaterialCovers(lex: Lexicon, text: string, units: seq<Unit>, i: nat, j: nat, k: nat := 0)
    requires k <= j < |units| && Rising(units, 0, |text|) && InUnit(units[j], i)
    ensures InUnits(Material(lex, text, units, k), i) || Immaterial(lex, text, units, i)
    decreases |units| - k
  {
    hide Kept;
    if j == k {
      assert units[k] in units;
      if Kept(lex, text, units[k]) { assert units[k] in Material(lex, text, units, k); }
    } else {
      MaterialCovers(lex, text, units, i, j, k + 1);
      var rest := Material(lex, text, units, k + 1);
      if u :| u in rest && InUnit(u, i) { assert u in Material(lex, text, units, k); }
    }
  }

  /**
   Every character of the text is in a span of the analysis, in result-count wording, in a part that is
   not a requirement, or among what the segmentation drops: separators, headings and edges.
   */
  lemma {:induction false} EveryCharacterIsAccountedFor(lex: Lexicon, text: string, i: nat)
    requires LexiconOk(lex) && i < |text|
    ensures Rising(AllUnits(lex, text), 0, |text|) && ControlsOk(text, lex.controls(text))
    ensures
      || InUnits(MaterialUnits(lex, text), i) || Covered(lex.controls(text), i)
      || Immaterial(lex, text, Remaining(lex, text, AllUnits(lex, text), lex.controls(text)), i) || Dropped(lex, text, i)
  {
    RemainingAreRising(lex, text);
    UnitsCoverTheText(lex, text, i);
    hide LexiconOk, AllUnits, Remaining, Material, MaterialUnits, Edge, Immaterial, InConnector, InHeader, InPreamble,
         InRolePrefix, InCut;
    var units, controls := AllUnits(lex, text), lex.controls(text);
    if InUnits(units, i) {
      var u :| u in units && InUnit(u, i);
      var j :| 0 <= j < |units| && units[j] == u;
      RemainingCovers(lex, text, units, controls, i, j);
      var remaining := Remaining(lex, text, units, controls);
      if InUnits(remaining, i) {
        var v :| v in remaining && InUnit(v, i);
        var k :| 0 <= k < |remaining| && remaining[k] == v;
        MaterialCovers(lex, text, remaining, i, k);
      }
    }
  }
}
