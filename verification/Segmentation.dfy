/**
 From a vacancy text to its material spans (`agent/semantic_requirements.py`). The regular expressions
 are uninterpreted functions that return matches in range and in order; what is computed here is the
 arithmetic of the ranges between them. Folding keeps every character's position, so matches in folded
 text are matches in the text.
 */
module Segmentation {
  import opened Wrappers

  type Range = (nat, nat)

  /** A separator between two pieces: the piece before it ends at `stop`, the one after it starts at `end`. */
  datatype Cut = Cut(stop: nat, end: nat)

  /** One clause with the modality occurrence that governs it and the coordinated clause it was split from. */
  datatype Unit = Unit(start: nat, end: nat, shared: Option<Range>, group: Option<nat>)

  datatype Lexicon = Lexicon(
    isSpace: char -> bool,
    bullet: (string, nat, nat) -> nat,
    boundaries: string -> seq<Cut>,
    contrast: string -> bool,
    header: string -> nat,
    preamble: string -> nat,
    rolePrefix: string -> bool,
    connectors: string -> seq<Cut>,
    splits: (string, Cut, bool) -> bool,
    governing: (string, Range, Range) -> Option<Range>,
    controls: string -> seq<Range>,
    material: (string, Range, bool) -> bool)

  predicate InOrder(cuts: seq<Cut>, from: nat, end: nat) {
    && (forall i :: 0 <= i < |cuts| ==> from <= cuts[i].stop <= cuts[i].end <= end)
    && forall i, j :: 0 <= i < j < |cuts| ==> cuts[i].end <= cuts[j].stop
  }

  /** What every regular expression guarantees of its matches. */
  ghost predicate LexiconOk(lex: Lexicon) {
    && (forall t, s: nat, e: nat :: s <= e <= |t| ==> s <= lex.bullet(t, s, e) <= e)
    && (forall t :: InOrder(lex.boundaries(t), 0, |t|))
    && (forall t :: lex.header(t) <= |t|) && (forall t :: lex.preamble(t) <= |t|)
    && (forall t :: InOrder(lex.connectors(t), 0, |t|))
    && (forall t, r :: r in lex.controls(t) ==> r.0 < r.1 <= |t|)
  }

  // ------------------------------------------------------------------ trimming

  predicate Leading(lex: Lexicon, c: char) {
    lex.isSpace(c) || c in "-*\U{2022}"
  }

  predicate Trailing(lex: Lexicon, c: char) {
    lex.isSpace(c) || c in ".;,"
  }

  function SkipLeading(lex: Lexicon, text: string, start: nat, end: nat): (s: nat)
    requires start <= end <= |text|
    ensures start <= s <= end
    ensures forall i :: start <= i < s ==> Leading(lex, text[i])
    ensures s < end ==> !Leading(lex, text[s])
    decreases end - start
  {
    if start < end && Leading(lex, text[start]) then SkipLeading(lex, text, start + 1, end) else start
  }

  function DropTrailing(lex: Lexicon, text: string, start: nat, end: nat): (e: nat)
    requires start <= end <= |text|
    ensures start <= e <= end
    ensures forall i :: e <= i < end ==> Trailing(lex, text[i])
    ensures start < e ==> !Trailing(lex, text[e - 1])
  {
    if end > start && Trailing(lex, text[end - 1]) then DropTrailing(lex, text, start, end - 1) else end
  }

  /** The part of a range that is left once its edges are trimmed; it may be empty. */
  function Trimmed(lex: Lexicon, text: string, start: nat, end: nat): (r: Range)
    requires start <= end <= |text| && LexiconOk(lex)
    ensures start <= r.0 <= r.1 <= end
  {
    var s := lex.bullet(text, SkipLeading(lex, text, start, end), end);
    (s, DropTrailing(lex, text, s, end))
  }

  /** `_trim`. */
  method Trim(lex: Lexicon, text: string, start: nat, end: nat) returns (s: nat, e: nat)
    requires start <= end <= |text| && LexiconOk(lex)
    ensures (s, e) == Trimmed(lex, text, start, end)
  {
    s, e := start, end;
    while s < end && Leading(lex, text[s])
      invariant start <= s <= end && SkipLeading(lex, text, s, end) == SkipLeading(lex, text, start, end)
    {
      s := s + 1;
    }
    s := lex.bullet(text, s, end);
    while e > s && Trailing(lex, text[e - 1])
      invariant s <= e <= end && DropTrailing(lex, text, s, e) == DropTrailing(lex, text, s, end)
    {
      e := e - 1;
    }
  }

  // ------------------------------------------------------------------ cutting a range into trimmed pieces

  function Piece(r: Range): seq<Range> {
    if r.0 < r.1 then [r] else []
  }

  /** The cuts from the k-th on all lie in `[from, end)`. */
  predicate CutsFrom(cuts: seq<Cut>, k: nat, from: nat, end: nat) {
    k <= |cuts| && from <= end && InOrder(cuts, 0, end) && (k < |cuts| ==> from <= cuts[k].stop)
  }

  /** The non-empty trimmed pieces of `[from, end)` between the cuts from the k-th on. */
  function Pieces(lex: Lexicon, text: string, cuts: seq<Cut>, from: nat, end: nat, k: nat := 0): seq<Range>
    requires end <= |text| && CutsFrom(cuts, k, from, end) && LexiconOk(lex)
    decreases |cuts| - k
  {
    if k == |cuts| then Piece(Trimmed(lex, text, from, end))
    else Piece(Trimmed(lex, text, from, cuts[k].stop)) + Pieces(lex, text, cuts, cuts[k].end, end, k + 1)
  }

  /** The shape of the three cutting loops: sentences at boundaries, clauses at commas, sides at connectors. */
  method CutPieces(lex: Lexicon, text: string, cuts: seq<Cut>, from: nat, end: nat) returns (pieces: seq<Range>)
    requires end <= |text| && CutsFrom(cuts, 0, from, end) && LexiconOk(lex)
    ensures pieces == Pieces(lex, text, cuts, from, end)
  {
    hide LexiconOk, Trimmed, CutsFrom;
    pieces := [];
    var cursor: nat := from;
    for i := 0 to |cuts|
      invariant CutsFrom(cuts, i, cursor, end)
      invariant Pieces(lex, text, cuts, from, end) == pieces + Pieces(lex, text, cuts, cursor, end, i)
    {
      CutStep(cuts, i, cursor, end);
      var s, e := Trim(lex, text, cursor, cuts[i].stop);
      if s < e {
        pieces := pieces + [(s, e)];
      }
      cursor := cuts[i].end;
    }
    assert cursor <= end by { CutEnd(cuts, |cuts|, cursor, end); }
    var s, e := Trim(lex, text, cursor, end);
    if s < e {
      pieces := pieces + [(s, e)];
    }
  }

  lemma {:induction false} CutStep(cuts: seq<Cut>, k: nat, from: nat, end: nat)
    requires CutsFrom(cuts, k, from, end) && k < |cuts|
    ensures from <= cuts[k].stop <= cuts[k].end <= end && CutsFrom(cuts, k + 1, cuts[k].end, end)
  {
  }

  lemma {:induction false} CutEnd(cuts: seq<Cut>, k: nat, from: nat, end: nat)
    requires CutsFrom(cuts, k, from, end)
    ensures from <= end
  {
  }

  /** In order, within `[lo, hi)`, and one after the other. */
  predicate Ascending(rs: seq<Range>, lo: nat, hi: nat) {
    && (forall i :: 0 <= i < |rs| ==> lo <= rs[i].0 <= rs[i].1 <= hi)
    && forall i, j :: 0 <= i < j < |rs| ==> rs[i].1 <= rs[j].0
  }

  lemma {:induction false} AscendingJoins(a: seq<Range>, b: seq<Range>, lo: nat, mid: nat, hi: nat)
    requires Ascending(a, lo, mid) && Ascending(b, mid, hi) && lo <= mid <= hi
    ensures Ascending(a + b, lo, hi)
  {
  }

  lemma {:induction false} PiecesAscend(lex: Lexicon, text: string, cuts: seq<Cut>, from: nat, end: nat, k: nat := 0)
    requires end <= |text| && CutsFrom(cuts, k, from, end) && LexiconOk(lex)
    ensures Ascending(Pieces(lex, text, cuts, from, end, k), from, end)
    ensures forall r :: r in Pieces(lex, text, cuts, from, end, k) ==> r.0 < r.1
    decreases |cuts| - k
  {
    hide LexiconOk;
    if k < |cuts| {
      PiecesAscend(lex, text, cuts, cuts[k].end, end, k + 1);
      AscendingJoins(Piece(Trimmed(lex, text, from, cuts[k].stop)), Pieces(lex, text, cuts, cuts[k].end, end, k + 1), from, cuts[k].end, end);
    }
  }

  // ------------------------------------------------------------------ sentences and clauses

  function SentenceRanges(lex: Lexicon, text: string): seq<Range>
    requires LexiconOk(lex)
  {
    Pieces(lex, text, lex.boundaries(text), 0, |text|)
  }

  /** `_sentences`. */
  method Sentences(lex: Lexicon, text: string) returns (r: seq<Range>)
    requires LexiconOk(lex)
    ensures r == SentenceRanges(lex, text)
    ensures Ascending(r, 0, |text|) && forall s :: s in r ==> s.0 < s.1
  {
    PiecesAscend(lex, text, lex.boundaries(text), 0, |text|);
    r := CutPieces(lex, text, lex.boundaries(text), 0, |text|);
  }

  function Commas(text: string, from: nat, end: nat): (cuts: seq<Cut>)
    requires from <= end <= |text|
    ensures InOrder(cuts, from, end) && CutsFrom(cuts, 0, from, end)
    decreases end - from
  {
    if from == end then []
    else if text[from] == ',' then [Cut(from, from + 1)] + Commas(text, from + 1, end)
    else Commas(text, from + 1, end)
  }

  function ClauseRanges(lex: Lexicon, text: string, sentence: Range): seq<Range>
    requires sentence.0 <= sentence.1 <= |text| && LexiconOk(lex)
  {
    Pieces(lex, text, Commas(text, sentence.0, sentence.1), sentence.0, sentence.1)
  }

  function FirstColon(text: string, from: nat, end: nat): (c: Option<nat>)
    requires from <= end <= |text|
    ensures c.Some? ==> from <= c.value < end && text[c.value] == ':'
    decreases end - from
  {
    if from == end then None else if text[from] == ':' then Some(from) else FirstColon(text, from + 1, end)
  }

  /** A clause without its vacancy header, its search preamble and its role heading. */
  function Narrowed(lex: Lexicon, text: string, clause: Range): (r: Range)
    requires clause.0 <= clause.1 <= |text| && LexiconOk(lex)
    ensures clause.0 <= r.0 <= r.1 <= clause.1
  {
    var rest := WithoutPreamble(lex, text, WithoutHeader(lex, text, clause));
    var colon := FirstColon(text, rest.0, rest.1);
    if colon.Some? && lex.rolePrefix(text[rest.0..colon.value]) then Trimmed(lex, text, colon.value + 1, rest.1) else rest
  }

  function WithoutHeader(lex: Lexicon, text: string, clause: Range): (r: Range)
    requires clause.0 <= clause.1 <= |text| && LexiconOk(lex)
    ensures clause.0 <= r.0 <= r.1 <= clause.1
  {
    HeadFits(lex, text[clause.0..clause.1]);
    var h := lex.header(text[clause.0..clause.1]);
    if h > 0 then Trimmed(lex, text, clause.0 + h, clause.1) else clause
  }

  function WithoutPreamble(lex: Lexicon, text: string, body: Range): (r: Range)
    requires body.0 <= body.1 <= |text| && LexiconOk(lex)
    ensures body.0 <= r.0 <= r.1 == body.1
  {
    HeadFits(lex, text[body.0..body.1]);
    (body.0 + lex.preamble(text[body.0..body.1]), body.1)
  }

  function Shifted(cuts: seq<Cut>, offset: nat): (r: seq<Cut>)
    ensures |r| == |cuts| && forall i :: 0 <= i < |cuts| ==> r[i] == Cut(cuts[i].stop + offset, cuts[i].end + offset)
  {
    seq(|cuts|, i requires 0 <= i < |cuts| => Cut(cuts[i].stop + offset, cuts[i].end + offset))
  }

  /** A clause splits at its one connector when both sides can stand alone. */
  predicate ShouldSplit(lex: Lexicon, clause: string, governed: bool) {
    |lex.connectors(clause)| == 1 && lex.splits(clause, lex.connectors(clause)[0], governed)
  }

  function UnitsFor(rs: seq<Range>, shared: Option<Range>, group: Option<nat>): (us: seq<Unit>)
    ensures |us| == |rs| && forall i :: 0 <= i < |rs| ==> us[i] == Unit(rs[i].0, rs[i].1, shared, group)
  {
    seq(|rs|, i requires 0 <= i < |rs| => Unit(rs[i].0, rs[i].1, shared, group))
  }

  lemma {:induction false} ConnectorsFit(lex: Lexicon, text: string, body: Range)
    requires body.0 <= body.1 <= |text| && LexiconOk(lex)
    ensures CutsFrom(Shifted(lex.connectors(text[body.0..body.1]), body.0), 0, body.0, body.1)
  {
    assert InOrder(lex.connectors(text[body.0..body.1]), 0, |text[body.0..body.1]|);
  }

  /** The units of one clause, and the number of coordinated clauses met so far. */
  function ClauseUnits(lex: Lexicon, text: string, sentence: Range, clause: Range, groups: nat): (seq<Unit>, nat)
    requires clause.0 <= clause.1 <= |text| && LexiconOk(lex)
  {
    var body := Narrowed(lex, text, clause);
    var shared := lex.governing(text, sentence, body);
    var source := text[body.0..body.1];
    if !ShouldSplit(lex, source, shared.Some?) then ([Unit(body.0, body.1, shared, None)], groups)
    else
      ConnectorsFit(lex, text, body);
      (UnitsFor(Pieces(lex, text, Shifted(lex.connectors(source), body.0), body.0, body.1), shared, Some(groups + 1)), groups + 1)
  }

  /** The units of the clauses from the k-th on. */
  function ClausesUnits(
      lex: Lexicon, text: string, sentence: Range, clauses: seq<Range>, groups: nat, k: nat := 0): (seq<Unit>, nat)
    requires k <= |clauses| && Ascending(clauses, 0, |text|) && LexiconOk(lex)
    decreases |clauses| - k
  {
    if k == |clauses| then ([], groups)
    else
      var first := ClauseUnits(lex, text, sentence, clauses[k], groups);
      var rest := ClausesUnits(lex, text, sentence, clauses, first.1, k + 1);
      (first.0 + rest.0, rest.1)
  }

  function SentenceUnits(lex: Lexicon, text: string, sentence: Range, groups: nat): (seq<Unit>, nat)
    requires sentence.0 <= sentence.1 <= |text| && LexiconOk(lex)
  {
    if lex.contrast(text[sentence.0..sentence.1]) then ([Unit(sentence.0, sentence.1, None, None)], groups)
    else
      ClausesInside(lex, text, sentence);
      ClausesUnits(lex, text, sentence, ClauseRanges(lex, text, sentence), groups)
  }

  lemma {:induction false} ClausesInside(lex: Lexicon, text: string, sentence: Range)
    requires sentence.0 <= sentence.1 <= |text| && LexiconOk(lex)
    ensures Ascending(ClauseRanges(lex, text, sentence), sentence.0, sentence.1)
    ensures Ascending(ClauseRanges(lex, text, sentence), 0, |text|)
  {
    PiecesAscend(lex, text, Commas(text, sentence.0, sentence.1), sentence.0, sentence.1);
  }

  function SentencesUnits(lex: Lexicon, text: string, sentences: seq<Range>, groups: nat, k: nat := 0): seq<Unit>
    requires k <= |sentences| && Ascending(sentences, 0, |text|) && LexiconOk(lex)
    decreases |sentences| - k
  {
    if k == |sentences| then []
    else
      var first := SentenceUnits(lex, text, sentences[k], groups);
      first.0 + SentencesUnits(lex, text, sentences, first.1, k + 1)
  }

  function AllUnits(lex: Lexicon, text: string): seq<Unit>
    requires LexiconOk(lex)
  {
    PiecesAscend(lex, text, lex.boundaries(text), 0, |text|);
    SentencesUnits(lex, text, SentenceRanges(lex, text), 0)
  }

  /** `_split_units`, one clause: drop its headings, then keep it whole or cut it at its connector. */
  method SplitClause(
      lex: Lexicon, text: string, sentence: Range, clause: Range, groups: nat) returns (units: seq<Unit>, count: nat)
    requires clause.0 <= clause.1 <= |text| && LexiconOk(lex)
    ensures (units, count) == ClauseUnits(lex, text, sentence, clause, groups)
  {
    hide Pieces, Shifted;
    var body := NarrowClause(lex, text, clause);
    var source := text[body.0..body.1];
    var shared := lex.governing(text, sentence, body);
    if !ShouldSplit(lex, source, shared.Some?) {
      return [Unit(body.0, body.1, shared, None)], groups;
    }
    count := groups + 1;
    ConnectorsFit(lex, text, body);
    var sides := CutPieces(lex, text, Shifted(lex.connectors(source), body.0), body.0, body.1);
    units := UnitsFor(sides, shared, Some(count));
  }

  method NarrowClause(lex: Lexicon, text: string, clause: Range) returns (r: Range)
    requires clause.0 <= clause.1 <= |text| && LexiconOk(lex)
    ensures r == Narrowed(lex, text, clause)
  {
    hide LexiconOk, Trimmed;
    var start: nat, end: nat := clause.0, clause.1;
    HeadFits(lex, text[start..end]);
    var header := lex.header(text[start..end]);
    if header > 0 {
      start, end := Trim(lex, text, start + header, end);
    }
    HeadFits(lex, text[start..end]);
    start := start + lex.preamble(text[start..end]);
    var colon := FirstColon(text, start, end);
    if colon.Some? && lex.rolePrefix(text[start..colon.value]) {
      start, end := Trim(lex, text, colon.value + 1, end);
    }
    return (start, end);
  }

  lemma {:induction false} HeadFits(lex: Lexicon, t: string)
    requires LexiconOk(lex)
    ensures lex.header(t) <= |t| && lex.preamble(t) <= |t|
  {
  }

  /** `_split_units`, the clauses of one sentence. */
  method SplitClauses(
      lex: Lexicon, text: string, sentence: Range, clauses: seq<Range>, groups: nat)
      returns (units: seq<Unit>, count: nat)
    requires Ascending(clauses, 0, |text|) && LexiconOk(lex)
    ensures (units, count) == ClausesUnits(lex, text, sentence, clauses, groups)
  {
    hide ClauseUnits, LexiconOk;
    units, count := [], groups;
    for k := 0 to |clauses|
      invariant ClausesUnits(lex, text, sentence, clauses, groups).0 == units + ClausesUnits(lex, text, sentence, clauses, count, k).0
      invariant ClausesUnits(lex, text, sentence, clauses, groups).1 == ClausesUnits(lex, text, sentence, clauses, count, k).1
    {
      var more;
      more, count := SplitClause(lex, text, sentence, clauses[k], count);
      units := units + more;
    }
    assert ClausesUnits(lex, text, sentence, clauses, count, |clauses|) == ([], count);
    assert units + [] == units;
  }

  /** `_split_units`, one sentence. */
  method SplitSentence(lex: Lexicon, text: string, sentence: Range, groups: nat) returns (units: seq<Unit>, count: nat)
    requires sentence.0 <= sentence.1 <= |text| && LexiconOk(lex)
    ensures (units, count) == SentenceUnits(lex, text, sentence, groups)
  {
    hide ClausesUnits, Pieces, Commas, LexiconOk, Ascending;
    if lex.contrast(text[sentence.0..sentence.1]) {
      return [Unit(sentence.0, sentence.1, None, None)], groups;
    }
    ClausesInside(lex, text, sentence);
    var clauses := CutPieces(lex, text, Commas(text, sentence.0, sentence.1), sentence.0, sentence.1);
    units, count := SplitClauses(lex, text, sentence, clauses, groups);
  }

  /** `_split_units`. */
  method SplitUnits(lex: Lexicon, text: string) returns (units: seq<Unit>)
    requires LexiconOk(lex)
    ensures units == AllUnits(lex, text)
  {
    hide SentenceUnits, Pieces, LexiconOk;
    var sentences := Sentences(lex, text);
    SentencesInside(lex, text);
    units := [];
    var groups := 0;
    for i := 0 to |sentences|
      invariant AllUnits(lex, text) == units + SentencesUnits(lex, text, sentences, groups, i)
    {
      var more;
      more, groups := SplitSentence(lex, text, sentences[i], groups);
      units := units + more;
    }
  }

  lemma {:induction false} SentencesInside(lex: Lexicon, text: string)
    requires LexiconOk(lex)
    ensures CutsFrom(lex.boundaries(text), 0, 0, |text|) && Ascending(SentenceRanges(lex, text), 0, |text|)
  {
    PiecesAscend(lex, text, lex.boundaries(text), 0, |text|);
  }

  // ------------------------------------------------------------------ the units come one after the other

  predicate Rising(us: seq<Unit>, lo: nat, hi: nat) {
    && (forall i :: 0 <= i < |us| ==> lo <= us[i].start <= us[i].end <= hi)
    && forall i, j :: 0 <= i < j < |us| ==> us[i].end <= us[j].start
  }

  lemma {:induction false} RisingJoins(a: seq<Unit>, b: seq<Unit>, lo: nat, mid: nat, hi: nat)
    requires Rising(a, lo, mid) && Rising(b, mid, hi) && lo <= mid <= hi
    ensures Rising(a + b, lo, hi)
  {
  }

  lemma {:induction false} SidesRise(lex: Lexicon, text: string, body: Range, shared: Option<Range>, group: Option<nat>)
    requires body.0 <= body.1 <= |text| && LexiconOk(lex)
    ensures CutsFrom(Shifted(lex.connectors(text[body.0..body.1]), body.0), 0, body.0, body.1)
    ensures Rising(UnitsFor(Pieces(lex, text, Shifted(lex.connectors(text[body.0..body.1]), body.0), body.0, body.1), shared, group), body.0, body.1)
  {
    hide LexiconOk, Shifted, CutsFrom, Ascending, Rising, UnitsFor, Pieces;
    ConnectorsFit(lex, text, body);
    PiecesAscend(lex, text, Shifted(lex.connectors(text[body.0..body.1]), body.0), body.0, body.1);
    UnitsForRise(Pieces(lex, text, Shifted(lex.connectors(text[body.0..body.1]), body.0), body.0, body.1), shared, group, body.0, body.1);
  }

  lemma {:induction false} RisingWidens(us: seq<Unit>, lo: nat, hi: nat, lo': nat, hi': nat)
    requires Rising(us, lo, hi) && lo' <= lo && hi <= hi'
    ensures Rising(us, lo', hi')
  {
  }

  lemma {:induction false} ClauseUnitsRise(lex: Lexicon, text: string, sentence: Range, clause: Range, groups: nat)
    requires clause.0 <= clause.1 <= |text| && LexiconOk(lex)
    ensures Rising(ClauseUnits(lex, text, sentence, clause, groups).0, clause.0, clause.1)
  {
    hide LexiconOk, Narrowed, Pieces, Shifted, ShouldSplit, UnitsFor, Rising, CutsFrom;
    var body := Narrowed(lex, text, clause);
    var shared := lex.governing(text, sentence, body);
    if ShouldSplit(lex, text[body.0..body.1], shared.Some?) {
      SidesRise(lex, text, body, shared, Some(groups + 1));
    } else {
      OneRises(Unit(body.0, body.1, shared, None));
    }
    RisingWidens(ClauseUnits(lex, text, sentence, clause, groups).0, body.0, body.1, clause.0, clause.1);
  }

  lemma {:induction false} UnitsForRise(rs: seq<Range>, shared: Option<Range>, group: Option<nat>, lo: nat, hi: nat)
    requires Ascending(rs, lo, hi)
    ensures Rising(UnitsFor(rs, shared, group), lo, hi)
  {
  }

  lemma {:induction false} ClausesUnitsRise(
      lex: Lexicon, text: string, sentence: Range, clauses: seq<Range>, groups: nat, lo: nat, hi: nat, k: nat := 0)
    requires k <= |clauses| && Ascending(clauses, 0, |text|) && LexiconOk(lex) && lo <= hi
    requires forall i :: k <= i < |clauses| ==> lo <= clauses[i].0 && clauses[i].1 <= hi
    ensures Rising(ClausesUnits(lex, text, sentence, clauses, groups, k).0, lo, hi)
    decreases |clauses| - k
  {
    hide LexiconOk, ClauseUnits;
    if k < |clauses| {
      var first := ClauseUnits(lex, text, sentence, clauses[k], groups);
      ClauseUnitsRise(lex, text, sentence, clauses[k], groups);
      ClausesUnitsRise(lex, text, sentence, clauses, first.1, clauses[k].1, hi, k + 1);
      RisingJoins(first.0, ClausesUnits(lex, text, sentence, clauses, first.1, k + 1).0, lo, clauses[k].1, hi);
    }
  }

  lemma {:induction false} SentenceUnitsRise(lex: Lexicon, text: string, sentence: Range, groups: nat)
    requires sentence.0 <= sentence.1 <= |text| && LexiconOk(lex)
    ensures Rising(SentenceUnits(lex, text, sentence, groups).0, sentence.0, sentence.1)
  {
    hide LexiconOk, ClausesUnits, ClauseRanges, Ascending, Rising;
    ClausesInside(lex, text, sentence);
    if lex.contrast(text[sentence.0..sentence.1]) {
      assert Rising([Unit(sentence.0, sentence.1, None, None)], sentence.0, sentence.1) by { OneRises(Unit(sentence.0, sentence.1, None, None)); }
    } else {
      InsideEach(ClauseRanges(lex, text, sentence), sentence.0, sentence.1);
      ClausesUnitsRise(lex, text, sentence, ClauseRanges(lex, text, sentence), groups, sentence.0, sentence.1);
    }
  }

  lemma {:induction false} OneRises(u: Unit)
    requires u.start <= u.end
    ensures Rising([u], u.start, u.end)
  {
  }

  lemma {:induction false} InsideEach(rs: seq<Range>, lo: nat, hi: nat)
    requires Ascending(rs, lo, hi)
    ensures forall i :: 0 <= i < |rs| ==> lo <= rs[i].0 && rs[i].1 <= hi
  {
  }

  lemma {:induction false} SentencesUnitsRise(
      lex: Lexicon, text: string, sentences: seq<Range>, groups: nat, lo: nat, k: nat := 0)
    requires k <= |sentences| && Ascending(sentences, 0, |text|) && LexiconOk(lex) && lo <= |text|
    requires forall i :: k <= i < |sentences| ==> lo <= sentences[i].0
    ensures Rising(SentencesUnits(lex, text, sentences, groups, k), lo, |text|)
    decreases |sentences| - k
  {
    hide LexiconOk, SentenceUnits;
    if k < |sentences| {
      var first := SentenceUnits(lex, text, sentences[k], groups);
      SentenceUnitsRise(lex, text, sentences[k], groups);
      SentencesUnitsRise(lex, text, sentences, first.1, sentences[k].1, k + 1);
      RisingJoins(first.0, SentencesUnits(lex, text, sentences, first.1, k + 1), lo, sentences[k].1, |text|);
    }
  }

  /** All units lie in the text, one after the other: no two overlap and none is out of order. */
  lemma {:induction false} UnitsRise(lex: Lexicon, text: string)
    requires LexiconOk(lex)
    ensures Rising(AllUnits(lex, text), 0, |text|)
  {
    SentencesInside(lex, text);
    SentencesUnitsRise(lex, text, SentenceRanges(lex, text), 0, 0);
  }
}
