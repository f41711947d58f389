/**
 The material spans of a vacancy text: units minus the workflow's own result-count wording, filtered,
 read and classified (`_without_control_spans` and `analyze_hr_text` of `agent/semantic_requirements.py`).
 */
module MaterialSpans {
  import opened Wrappers
  import opened Segmentation
  import D = DraftSchemas
  import I = DraftInvariant

  predicate Overlap(a: Range, b: Range) {
    a.0 < b.1 && b.0 < a.1
  }

  predicate Clear(r: Range, controls: seq<Range>) {
    forall c :: c in controls ==> !Overlap(r, c)
  }

  // ------------------------------------------------------------------ subtracting the controls

  /** What one control leaves of one segment. */
  function Remainder(lex: Lexicon, text: string, s: Range, c: Range): seq<Range>
    requires s.0 <= s.1 <= |text| && c.0 < c.1 <= |text| && LexiconOk(lex)
  {
    if c.1 <= s.0 || c.0 >= s.1 then Piece(s)
    else
      (if s.0 < c.0 then Piece(Trimmed(lex, text, s.0, c.0)) else [])
      + (if c.1 < s.1 then Piece(Trimmed(lex, text, c.1, s.1)) else [])
  }

  function Remainders(lex: Lexicon, text: string, segments: seq<Range>, c: Range, k: nat := 0): seq<Range>
    requires k <= |segments| && Ascending(segments, 0, |text|) && c.0 < c.1 <= |text| && LexiconOk(lex)
    decreases |segments| - k
  {
    if k == |segments| then [] else Remainder(lex, text, segments[k], c) + Remainders(lex, text, segments, c, k + 1)
  }

  ghost predicate ControlsOk(text: string, controls: seq<Range>) {
    forall c :: c in controls ==> c.0 < c.1 <= |text|
  }

  /** What is left of the segments after the controls from the j-th on. */
  function Uncontrolled(lex: Lexicon, text: string, segments: seq<Range>, controls: seq<Range>, j: nat := 0): seq<Range>
    requires j <= |controls| && Ascending(segments, 0, |text|) && ControlsOk(text, controls) && LexiconOk(lex)
    decreases |controls| - j
  {
    if j == |controls| then segments
    else
      assert controls[j] in controls;
      RemaindersAscend(lex, text, segments, controls[j], 0, |text|);
      Uncontrolled(lex, text, Remainders(lex, text, segments, controls[j]), controls, j + 1)
  }

  lemma {:induction false} RemainderAscends(lex: Lexicon, text: string, s: Range, c: Range)
    requires s.0 <= s.1 <= |text| && c.0 < c.1 <= |text| && LexiconOk(lex)
    ensures Ascending(Remainder(lex, text, s, c), s.0, s.1)
    ensures forall r :: r in Remainder(lex, text, s, c) ==> r.0 < r.1 && s.0 <= r.0 && r.1 <= s.1 && !Overlap(r, c)
  {
    hide LexiconOk, Trimmed;
  }

  lemma {:induction false} RemaindersAscend(
      lex: Lexicon, text: string, segments: seq<Range>, c: Range, lo: nat, hi: nat, k: nat := 0)
    requires k <= |segments| && Ascending(segments, 0, |text|) && c.0 < c.1 <= |text| && LexiconOk(lex)
    requires lo <= hi && forall i :: k <= i < |segments| ==> lo <= segments[i].0 && segments[i].1 <= hi
    ensures Ascending(Remainders(lex, text, segments, c, k), lo, hi)
    ensures forall r :: r in Remainders(lex, text, segments, c, k) ==> r.0 < r.1 && !Overlap(r, c) && exists i :: k <= i < |segments| && Inside(r, segments[i])
    decreases |segments| - k
  {
    hide LexiconOk, Remainder;
    if k < |segments| {
      RemainderAscends(lex, text, segments[k], c);
      RemaindersAscend(lex, text, segments, c, segments[k].1, hi, k + 1);
      AscendingJoins(Remainder(lex, text, segments[k], c), Remainders(lex, text, segments, c, k + 1), lo, segments[k].1, hi);
      forall r | r in Remainder(lex, text, segments[k], c) ensures Inside(r, segments[k]) { }
    }
  }

  predicate Inside(r: Range, s: Range) {
    s.0 <= r.0 && r.1 <= s.1
  }

  /** What survives all controls is in order, stays inside what there was, and touches no control. */
  lemma {:induction false} UncontrolledIsClear(
      lex: Lexicon, text: string, segments: seq<Range>, controls: seq<Range>, lo: nat, hi: nat, j: nat := 0)
    requires j <= |controls| && Ascending(segments, 0, |text|) && ControlsOk(text, controls) && LexiconOk(lex)
    requires lo <= hi && forall i :: 0 <= i < |segments| ==> lo <= segments[i].0 && segments[i].1 <= hi
    requires forall r :: r in segments ==> Clear(r, controls[..j])
    ensures Ascending(Uncontrolled(lex, text, segments, controls, j), lo, hi)
    ensures forall r :: r in Uncontrolled(lex, text, segments, controls, j) ==> Clear(r, controls)
    decreases |controls| - j
  {
    hide LexiconOk, Remainders;
    if j == |controls| {
      assert controls[..j] == controls;
    } else {
      assert controls[j] in controls;
      RemaindersAscend(lex, text, segments, controls[j], lo, hi);
      RemaindersAscend(lex, text, segments, controls[j], 0, |text|);
      var rest := Remainders(lex, text, segments, controls[j]);
      assert controls[..j + 1] == controls[..j] + [controls[j]];
      forall r | r in rest
        ensures Clear(r, controls[..j + 1])
      {
        var i :| 0 <= i < |segments| && Inside(r, segments[i]);
        assert segments[i] in segments;
      }
      UncontrolledIsClear(lex, text, rest, controls, lo, hi, j + 1);
    }
  }

  /** `_without_control_spans`. */
  method WithoutControlSpans(
      lex: Lexicon, text: string, start: nat, end: nat, controls: seq<Range>) returns (segments: seq<Range>)
    requires start <= end <= |text| && ControlsOk(text, controls) && LexiconOk(lex)
    ensures segments == Uncontrolled(lex, text, [(start, end)], controls)
  {
    hide LexiconOk, Remainders;
    segments := [(start, end)];
    for j := 0 to |controls|
      invariant Ascending(segments, 0, |text|)
      invariant Uncontrolled(lex, text, [(start, end)], controls) == Uncontrolled(lex, text, segments, controls, j)
    {
      assert controls[j] in controls;
      var updated := SubtractFromAll(lex, text, segments, controls[j]);
      RemaindersAscend(lex, text, segments, controls[j], 0, |text|);
      segments := updated;
    }
  }

  /** The inner loop: one control subtracted from every segment. */
  method SubtractFromAll(lex: Lexicon, text: string, segments: seq<Range>, c: Range) returns (updated: seq<Range>)
    requires Ascending(segments, 0, |text|) && c.0 < c.1 <= |text| && LexiconOk(lex)
    ensures updated == Remainders(lex, text, segments, c)
  {
    hide LexiconOk, Remainder;
    updated := [];
    for k := 0 to |segments|
      invariant Remainders(lex, text, segments, c) == updated + Remainders(lex, text, segments, c, k)
    {
      var left := SubtractControl(lex, text, segments[k], c);
      updated := updated + left;
    }
  }

  method SubtractControl(lex: Lexicon, text: string, s: Range, c: Range) returns (updated: seq<Range>)
    requires s.0 <= s.1 <= |text| && c.0 < c.1 <= |text| && LexiconOk(lex)
    ensures updated == Remainder(lex, text, s, c)
  {
    if c.1 <= s.0 || c.0 >= s.1 {
      return Piece(s);
    }
    updated := [];
    hide LexiconOk, Piece, Trimmed;
    if s.0 < c.0 {
      var l, r := Trim(lex, text, s.0, c.0);
      updated := updated + Piece((l, r));
    }
    assert updated == if s.0 < c.0 then Piece(Trimmed(lex, text, s.0, c.0)) else [];
    if c.1 < s.1 {
      var l, r := Trim(lex, text, c.1, s.1);
      updated := updated + Piece((l, r));
    }
  }

  // ------------------------------------------------------------------ the units that remain

  function SharedClear(u: Unit, controls: seq<Range>): Option<Range> {
    if u.shared.Some? && !Clear(u.shared.value, controls) then None else u.shared
  }

  /** The parts of the units from the k-th on that no control occupies. */
  function Remaining(lex: Lexicon, text: string, units: seq<Unit>, controls: seq<Range>, k: nat := 0): seq<Unit>
    requires k <= |units| && Rising(units, 0, |text|) && ControlsOk(text, controls) && LexiconOk(lex)
    decreases |units| - k
  {
    if k == |units| then []
    else
      var u := units[k];
      UnitsFor(Uncontrolled(lex, text, [(u.start, u.end)], controls), SharedClear(u, controls), u.group)
      + Remaining(lex, text, units, controls, k + 1)
  }

  predicate UnitClear(u: Unit, controls: seq<Range>) {
    Clear((u.start, u.end), controls)
  }

  lemma {:induction false} PartRises(lex: Lexicon, text: string, u: Unit, controls: seq<Range>)
    requires u.start <= u.end <= |text| && ControlsOk(text, controls) && LexiconOk(lex)
    ensures var part := UnitsFor(Uncontrolled(lex, text, [(u.start, u.end)], controls), SharedClear(u, controls), u.group);
      Rising(part, u.start, u.end) && forall v :: v in part ==> UnitClear(v, controls)
  {
    hide LexiconOk, Uncontrolled;
    assert controls[..0] == [];
    UncontrolledIsClear(lex, text, [(u.start, u.end)], controls, u.start, u.end);
    var rs := Uncontrolled(lex, text, [(u.start, u.end)], controls);
    UnitsForRise(rs, SharedClear(u, controls), u.group, u.start, u.end);
    forall v | v in UnitsFor(rs, SharedClear(u, controls), u.group)
      ensures UnitClear(v, controls)
    {
      var i :| 0 <= i < |rs| && v == Unit(rs[i].0, rs[i].1, SharedClear(u, controls), u.group);
      assert rs[i] in rs;
    }
  }

  lemma {:induction false} RemainingRise(
      lex: Lexicon, text: string, units: seq<Unit>, controls: seq<Range>, lo: nat, k: nat := 0)
    requires k <= |units| && Rising(units, 0, |text|) && ControlsOk(text, controls) && LexiconOk(lex) && lo <= |text|
    requires forall i :: k <= i < |units| ==> lo <= units[i].start
    ensures Rising(Remaining(lex, text, units, controls, k), lo, |text|)
    ensures forall v :: v in Remaining(lex, text, units, controls, k) ==> UnitClear(v, controls)
    decreases |units| - k
  {
    hide LexiconOk, Uncontrolled, UnitsFor, UnitClear, SharedClear;
    if k < |units| {
      var u := units[k];
      var part := UnitsFor(Uncontrolled(lex, text, [(u.start, u.end)], controls), SharedClear(u, controls), u.group);
      PartRises(lex, text, u, controls);
      RemainingRise(lex, text, units, controls, u.end, k + 1);
      RisingWidens(part, u.start, u.end, lo, u.end);
      RisingJoins(part, Remaining(lex, text, units, controls, k + 1), lo, u.end, |text|);
    }
  }

  // ------------------------------------------------------------------ reading one span

  /** What the readers find in one span; the wording they look for is not modelled. */
  datatype Facts = Facts(
    family: D.Kind, subject: string, subjectText: Option<string>, modality: Option<D.Modality>, years: Option<real>, level: Option<string>,
    prohibited: bool, manySides: bool, negated: bool, countEntity: bool, particle: bool, strictlyGreater: bool,
    openPlus: bool, failure: Option<D.ReviewReason>, certificateCount: bool)

  /** The state chain of `analyze_hr_text`: the first condition that applies decides. */
  function Classify(f: Facts): (D.SpanState, Option<D.ReviewReason>) {
    if f.prohibited then (D.Prohibited, None)
    else if f.manySides then (D.NeedsReview, Some(D.OtherPolicy))
    else if f.negated then (D.Unsupported, None)
    else if f.countEntity || f.particle then (D.NeedsReview, Some(D.OtherPolicy))
    else if f.strictlyGreater || f.family == D.Other then (D.Unsupported, None)
    else if (f.modality == Some(D.Preferred) && f.openPlus) || f.modality.None? then (D.NeedsReview, Some(D.ModalityUnknown))
    else if f.subject == "" && f.family != D.Experience then (D.NeedsReview, Some(D.OtherPolicy))
    else if f.failure.Some? then (D.NeedsReview, f.failure)
    else if (f.family == D.Experience || f.family == D.SkillExperience) && f.years.None? then (D.NeedsReview, Some(D.OtherPolicy))
    else if f.family == D.Certification && (f.subject == "" || f.certificateCount) then (D.NeedsReview, Some(D.OtherPolicy))
    else (D.Scorable, None)
  }

  /** A span the analysis calls scorable states one supported family and one modality. */
  lemma {:induction false} ScorableIsReadable(f: Facts)
    ensures Classify(f).0 == D.Scorable ==>
      f.family != D.Other && f.modality.Some? && (f.subject != "" || f.family == D.Experience) && !f.prohibited && f.failure.None?
    ensures Classify(f).0 == D.Prohibited <==> f.prohibited
  {
  }

  datatype Reader = Reader(read: (string, Unit) -> Facts)

  function UnitOf(reader: Reader, text: string, u: Unit): D.SourceUnit
    requires u.start <= u.end <= |text|
  {
    var f := reader.read(text, u);
    var (state, reason) := Classify(f);
    D.SourceUnit(
      u.start, u.end, text[u.start..u.end], u.group, Some(f.family), if f.subject == "" then None else Some(f.subject), f.subjectText,
      f.modality, f.years, f.level, state, reason)
  }

  // ------------------------------------------------------------------ what the state of a span means

  /** The wording is one that the analysis reads as a requirement of a supported family. */
  predicate Readable(f: Facts) {
    !f.prohibited && !f.manySides && !f.negated && !f.countEntity && !f.particle && !f.strictlyGreater && f.family != D.Other
  }

  /** The source settles the type: "preferred, five or more" does not. */
  predicate TypeIsStated(f: Facts) {
    f.modality.Some? && !(f.modality == Some(D.Preferred) && f.openPlus)
  }

  /** Subject and amounts are there as far as the family needs them, and nothing speaks against the subject. */
  predicate IsComplete(f: Facts) {
    && (f.subject != "" || f.family == D.Experience) && f.failure.None?
    && (f.years.Some? || (f.family != D.Experience && f.family != D.SkillExperience))
    && !(f.family == D.Certification && f.certificateCount)
  }

  /** The unit says what was read in its slice of the text. */
  predicate SaysWhatWasRead(text: string, u: Unit, f: Facts, q: D.SourceUnit) {
    && q.start == u.start <= q.end == u.end <= |text| && q.text == text[u.start..u.end] && q.group == u.group
    && q.family == Some(f.family) && q.modality == f.modality && q.years == f.years && q.level == f.level
    && q.subjectText == f.subjectText && (if f.subject == "" then q.subject == None else q.subject == Some(f.subject))
  }

  /**
   The unit is in the state its reading calls for, whatever the order in which the code looks: scorable
   exactly when it is readable, typed and complete; unsupported exactly when it is negated or, no count and
   no particle being in the way, outside what is supported; a typeless readable one waits for its type, and
   an incomplete one for the reason that the subject gives.
   */
  predicate MeansItsReading(f: Facts, q: D.SourceUnit) {
    && (q.state == D.Prohibited <==> f.prohibited)
    && (q.state == D.Scorable <==> Readable(f) && TypeIsStated(f) && IsComplete(f))
    && (q.state == D.Unsupported <==>
          !f.prohibited && !f.manySides && (f.negated || (!f.countEntity && !f.particle && (f.strictlyGreater || f.family == D.Other))))
    && (q.reason.Some? <==> q.state == D.NeedsReview)
    && (Readable(f) && !TypeIsStated(f) ==> q.reason == Some(D.ModalityUnknown))
    && (Readable(f) && TypeIsStated(f) && !IsComplete(f) ==>
          q.reason == (if f.failure.Some? && (f.subject != "" || f.family == D.Experience) then f.failure else Some(D.OtherPolicy)))
  }

  lemma {:induction false} UnitMeansItsReading(reader: Reader, text: string, u: Unit)
    requires u.start <= u.end <= |text|
    ensures var f, q := reader.read(text, u), UnitOf(reader, text, u); SaysWhatWasRead(text, u, f, q) && MeansItsReading(f, q)
  {
  }

  // ------------------------------------------------------------------ which units are material

  predicate Blank(lex: Lexicon, text: string, u: Unit)
    requires u.start <= u.end <= |text|
  {
    forall i :: u.start <= i < u.end ==> lex.isSpace(text[i])
  }

  predicate Kept(lex: Lexicon, text: string, u: Unit)
    requires u.start <= u.end <= |text|
  {
    !Blank(lex, text, u) && lex.material(text, (u.start, u.end), u.shared.Some?)
  }

  /** The units from the k-th on that are material. */
  function Material(lex: Lexicon, text: string, units: seq<Unit>, k: nat := 0): seq<Unit>
    requires k <= |units| && Rising(units, 0, |text|)
    decreases |units| - k
  {
    if k == |units| then [] else (if Kept(lex, text, units[k]) then [units[k]] else []) + Material(lex, text, units, k + 1)
  }

  predicate NonEmpty(us: seq<Unit>) {
    forall i :: 0 <= i < |us| ==> us[i].start < us[i].end
  }

  lemma {:induction false} MaterialRises(lex: Lexicon, text: string, units: seq<Unit>, lo: nat, k: nat := 0)
    requires k <= |units| && Rising(units, 0, |text|) && lo <= |text| && forall i :: k <= i < |units| ==> lo <= units[i].start
    ensures Rising(Material(lex, text, units, k), lo, |text|) && NonEmpty(Material(lex, text, units, k))
    ensures forall v :: v in Material(lex, text, units, k) ==> v in units
    decreases |units| - k
  {
    if k < |units| {
      MaterialRises(lex, text, units, units[k].end, k + 1);
      if Kept(lex, text, units[k]) {
        RisingJoins([units[k]], Material(lex, text, units, k + 1), lo, units[k].end, |text|);
      }
    }
  }

  function MaterialUnits(lex: Lexicon, text: string): seq<Unit>
    requires LexiconOk(lex)
  {
    UnitsRise(lex, text);
    RemainingRise(lex, text, AllUnits(lex, text), lex.controls(text), 0);
    Material(lex, text, Remaining(lex, text, AllUnits(lex, text), lex.controls(text)))
  }

  /**
   The spans of the analysis come one after the other, none is empty, no two share a position, and none
   shares one with the workflow's result-count wording.
   */
  lemma {:induction false} MaterialSpansAreDisjoint(lex: Lexicon, text: string)
    requires LexiconOk(lex)
    ensures Rising(MaterialUnits(lex, text), 0, |text|) && NonEmpty(MaterialUnits(lex, text))
    ensures forall v :: v in MaterialUnits(lex, text) ==> UnitClear(v, lex.controls(text))
  {
    hide AllUnits, Remaining, Material;
    UnitsRise(lex, text);
    RemainingRise(lex, text, AllUnits(lex, text), lex.controls(text), 0);
    MaterialRises(lex, text, Remaining(lex, text, AllUnits(lex, text), lex.controls(text)), 0);
  }

  // ------------------------------------------------------------------ the analysis

  datatype Analysis = Analysis(ids: seq<nat>, spans: seq<Unit>, requirementIds: seq<nat>, requirements: seq<D.SourceUnit>)

  datatype Broken = Reconciliation | ControlOverlap

  method PartsOf(lex: Lexicon, text: string, u: Unit, controls: seq<Range>) returns (parts: seq<Unit>)
    requires u.start <= u.end <= |text| && ControlsOk(text, controls) && LexiconOk(lex)
    ensures parts == UnitsFor(Uncontrolled(lex, text, [(u.start, u.end)], controls), SharedClear(u, controls), u.group)
  {
    hide LexiconOk, Uncontrolled, UnitsFor, ControlsOk;
    SharedIs(u, controls);
    var shared := u.shared;
    if shared.Some? && exists c :: c in controls && c.0 < shared.value.1 && shared.value.0 < c.1 {
      shared := None;
    }
    var segments := WithoutControlSpans(lex, text, u.start, u.end, controls);
    parts := UnitsFor(segments, shared, u.group);
  }

  /** The units of the text without their result-count wording. */
  method RemainingUnits(lex: Lexicon, text: string) returns (r: seq<Unit>)
    requires LexiconOk(lex)
    ensures Rising(AllUnits(lex, text), 0, |text|) && ControlsOk(text, lex.controls(text))
    ensures r == Remaining(lex, text, AllUnits(lex, text), lex.controls(text))
  {
    hide LexiconOk, Uncontrolled, UnitsFor, AllUnits, ControlsOk, SharedClear;
    UnitsRise(lex, text);
    ControlsAreOk(lex, text);
    var controls := lex.controls(text);
    var units := SplitUnits(lex, text);
    r := [];
    for k := 0 to |units|
      invariant Remaining(lex, text, units, controls) == r + Remaining(lex, text, units, controls, k)
    {
      var parts := PartsOf(lex, text, units[k], controls);
      r := r + parts;
    }
  }

  lemma {:induction false} ControlsAreOk(lex: Lexicon, text: string)
    requires LexiconOk(lex)
    ensures ControlsOk(text, lex.controls(text))
  {
  }

  lemma {:induction false} SharedIs(u: Unit, controls: seq<Range>)
    ensures SharedClear(u, controls) ==
      if u.shared.Some? && exists c :: c in controls && c.0 < u.shared.value.1 && u.shared.value.0 < c.1 then None else u.shared
  {
  }

  /** One numbered reading per span, in the order of the spans. */
  ghost predicate ReadsAll(reader: Reader, text: string, a: Analysis) {
    && |a.spans| == |a.requirements| == |a.ids| == |a.requirementIds|
    && forall i :: 0 <= i < |a.spans| ==>
      && a.ids[i] == i + 1 && a.requirementIds[i] == i + 1 && a.spans[i].start <= a.spans[i].end <= |text|
      && a.requirements[i] == UnitOf(reader, text, a.spans[i])
  }

  /** The first `k` units are read: the material among them, once each, and `seen` holds nothing else. */
  ghost predicate ReadTo(
      lex: Lexicon, reader: Reader, text: string, units: seq<Unit>, k: nat, a: Analysis, seen: set<Range>)
    requires k <= |units| && Rising(units, 0, |text|)
  {
    && Material(lex, text, units) == a.spans + Material(lex, text, units, k)
    && ReadsAll(reader, text, a)
    && forall x :: x in seen ==> Was(a.spans, x)
  }

  /** The main loop of `analyze_hr_text`; its skip of a range already seen is never taken. */
  method ReadUnits(lex: Lexicon, reader: Reader, text: string, units: seq<Unit>) returns (a: Analysis)
    requires Rising(units, 0, |text|)
    ensures a.spans == Material(lex, text, units) && ReadsAll(reader, text, a)
  {
    hide Kept, UnitOf, Rising, ReadTo, ReadsAll, Material;
    a := Analysis([], [], [], []);
    var seen: set<Range> := {};
    NothingRead(lex, reader, text, units);
    for k := 0 to |units|
      invariant ReadTo(lex, reader, text, units, k, a, seen)
    {
      var u := units[k];
      RisingAt(units, 0, |text|, k);
      if Kept(lex, text, u) {
        NotYetSeen(lex, reader, text, units, k, a, seen);
        if (u.start, u.end) !in seen {
          var more := Analysis(
            a.ids + [|a.spans| + 1], a.spans + [u], a.requirementIds + [|a.spans| + 1], a.requirements + [UnitOf(reader, text, u)]);
          OneMoreRead(lex, reader, text, units, k, a, seen, more);
          a, seen := more, seen + {(u.start, u.end)};
        }
      } else {
        OneSkipped(lex, reader, text, units, k, a, seen);
      }
    }
    AllRead(lex, reader, text, units, a, seen);
  }

  lemma {:induction false} NothingRead(lex: Lexicon, reader: Reader, text: string, units: seq<Unit>)
    requires Rising(units, 0, |text|)
    ensures ReadTo(lex, reader, text, units, 0, Analysis([], [], [], []), {})
  {
  }

  lemma {:induction false} AllRead(
      lex: Lexicon, reader: Reader, text: string, units: seq<Unit>, a: Analysis, seen: set<Range>)
    requires Rising(units, 0, |text|) && ReadTo(lex, reader, text, units, |units|, a, seen)
    ensures a.spans == Material(lex, text, units) && ReadsAll(reader, text, a)
  {
    hide ReadsAll;
  }

  lemma {:induction false} OneSkipped(
      lex: Lexicon, reader: Reader, text: string, units: seq<Unit>, k: nat, a: Analysis, seen: set<Range>)
    requires Rising(units, 0, |text|) && k < |units| && ReadTo(lex, reader, text, units, k, a, seen)
    requires units[k].end <= |text| && units[k].start <= units[k].end && !Kept(lex, text, units[k])
    ensures ReadTo(lex, reader, text, units, k + 1, a, seen)
  {
    hide ReadsAll, Kept, Material;
    MaterialNext(lex, text, units, k);
    assert [] + Material(lex, text, units, k + 1) == Material(lex, text, units, k + 1);
  }

  lemma {:induction false} NotYetSeen(
      lex: Lexicon, reader: Reader, text: string, units: seq<Unit>, k: nat, a: Analysis, seen: set<Range>)
    requires Rising(units, 0, |text|) && k < |units| && ReadTo(lex, reader, text, units, k, a, seen)
    requires units[k].end <= |text| && units[k].start <= units[k].end && Kept(lex, text, units[k])
    ensures (units[k].start, units[k].end) !in seen
  {
    hide ReadsAll, Kept, Material, Rising, NonEmpty, Was;
    MaterialRises(lex, text, units, 0);
    MaterialNext(lex, text, units, k);
    NotSeen(Material(lex, text, units), a.spans, units[k], Material(lex, text, units, k + 1), |text|);
  }

  lemma {:induction false} OneMoreRead(
      lex: Lexicon, reader: Reader, text: string, units: seq<Unit>, k: nat, a: Analysis, seen: set<Range>, more: Analysis)
    requires Rising(units, 0, |text|) && k < |units| && ReadTo(lex, reader, text, units, k, a, seen)
    requires units[k].end <= |text| && units[k].start <= units[k].end && Kept(lex, text, units[k])
    requires more == Analysis(
      a.ids + [|a.spans| + 1], a.spans + [units[k]], a.requirementIds + [|a.spans| + 1], a.requirements + [UnitOf(reader, text, units[k])])
    ensures ReadTo(lex, reader, text, units, k + 1, more, seen + {(units[k].start, units[k].end)})
  {
    hide UnitOf, Kept, Material, Rising;
    MaterialNext(lex, text, units, k);
    assert a.spans + ([units[k]] + Material(lex, text, units, k + 1)) == more.spans + Material(lex, text, units, k + 1);
    ReadingsGrow(reader, text, a, more, units[k]);
    RangesGrow(a.spans, units[k]);
  }

  lemma {:induction false} ReadingsGrow(reader: Reader, text: string, a: Analysis, more: Analysis, u: Unit)
    requires ReadsAll(reader, text, a) && u.start <= u.end <= |text|
    requires more == Analysis(
      a.ids + [|a.spans| + 1], a.spans + [u], a.requirementIds + [|a.spans| + 1], a.requirements + [UnitOf(reader, text, u)])
    ensures ReadsAll(reader, text, more)
  {
    hide UnitOf;
  }

  lemma {:induction false} RangesGrow(spans: seq<Unit>, u: Unit)
    ensures Was(spans + [u], (u.start, u.end)) && forall x :: Was(spans, x) ==> Was(spans + [u], x)
  {
    assert (spans + [u])[|spans|] == u;
    forall x | Was(spans, x)
      ensures Was(spans + [u], x)
    {
      var i :| 0 <= i < |spans| && x == (spans[i].start, spans[i].end);
      assert (spans + [u])[i] == spans[i];
    }
  }

  lemma {:induction false} MaterialNext(lex: Lexicon, text: string, units: seq<Unit>, k: nat)
    requires Rising(units, 0, |text|) && k < |units|
    ensures units[k].start <= units[k].end <= |text|
    ensures Material(lex, text, units, k) ==
      (if Kept(lex, text, units[k]) then [units[k]] else []) + Material(lex, text, units, k + 1)
  {
  }

  lemma {:induction false} RisingAt(us: seq<Unit>, lo: nat, hi: nat, k: nat)
    requires Rising(us, lo, hi) && k < |us|
    ensures lo <= us[k].start <= us[k].end <= hi
  {
  }

  predicate Was(spans: seq<Unit>, x: Range) {
    exists i :: 0 <= i < |spans| && x == (spans[i].start, spans[i].end)
  }

  /** The construction checks at the end of `analyze_hr_text`. */
  method CheckConstruction(a: Analysis, controls: seq<Range>) returns (r: Result<Analysis, Broken>)
    ensures r.Ok? <==>
      && (forall i, j :: 0 <= i < j < |a.ids| ==> a.ids[i] != a.ids[j]) && a.requirementIds == a.ids
      && forall i :: 0 <= i < |a.spans| ==> UnitClear(a.spans[i], controls)
    ensures r.Ok? ==> r.value == a
  {
    if (exists i, j :: 0 <= i < j < |a.ids| && a.ids[i] == a.ids[j]) || a.requirementIds != a.ids {
      return Err(Reconciliation);
    }
    for i := 0 to |a.spans|
      invariant forall k :: 0 <= k < i ==> UnitClear(a.spans[k], controls)
    {
      ClearIs(a.spans[i], controls);
      if exists c :: c in controls && c.0 < a.spans[i].end && a.spans[i].start < c.1 {
        return Err(ControlOverlap);
      }
    }
    return Ok(a);
  }

  /**
   `analyze_hr_text`: read every material unit once, number it, and check the construction. Neither
   check can fail.
   */
  method AnalyzeHrText(lex: Lexicon, reader: Reader, text: string) returns (r: Result<Analysis, Broken>)
    requires LexiconOk(lex)
    ensures r.Ok? && r.value.spans == MaterialUnits(lex, text) && ReadsAll(reader, text, r.value)
    ensures forall i :: 0 <= i < |r.value.spans| ==>
      var f, q := reader.read(text, r.value.spans[i]), r.value.requirements[i];
      SaysWhatWasRead(text, r.value.spans[i], f, q) && MeansItsReading(f, q)
  {
    hide LexiconOk, AllUnits, Remaining, Material, UnitOf, UnitClear, Rising, NonEmpty, ControlsOk, SaysWhatWasRead,
         MeansItsReading;
    var units := RemainingUnits(lex, text);
    RemainingAreRising(lex, text);
    var a := ReadUnits(lex, reader, text, units);
    MaterialSpansAreDisjoint(lex, text);
    forall i | 0 <= i < |a.spans| ensures UnitClear(a.spans[i], lex.controls(text)) { assert a.spans[i] in MaterialUnits(lex, text); }
    r := CheckConstruction(a, lex.controls(text));
    forall i | 0 <= i < |a.spans|
      ensures var f, q := reader.read(text, a.spans[i]), a.requirements[i]; SaysWhatWasRead(text, a.spans[i], f, q) && MeansItsReading(f, q)
    {
      UnitMeansItsReading(reader, text, a.spans[i]);
    }
  }

  lemma {:induction false} RemainingAreRising(lex: Lexicon, text: string)
    requires LexiconOk(lex)
    ensures Rising(AllUnits(lex, text), 0, |text|) && ControlsOk(text, lex.controls(text))
    ensures Rising(Remaining(lex, text, AllUnits(lex, text), lex.controls(text)), 0, |text|)
    ensures MaterialUnits(lex, text) == Material(lex, text, Remaining(lex, text, AllUnits(lex, text), lex.controls(text)))
  {
    hide AllUnits, Remaining, Material;
    UnitsRise(lex, text);
    RemainingRise(lex, text, AllUnits(lex, text), lex.controls(text), 0);
  }

  lemma {:induction false} ClearIs(u: Unit, controls: seq<Range>)
    ensures UnitClear(u, controls) <==> !exists c :: c in controls && c.0 < u.end && u.start < c.1
  {
  }

  /** Two different material spans never have the same range. */
  lemma {:induction false} NotSeen(all: seq<Unit>, spans: seq<Unit>, u: Unit, rest: seq<Unit>, hi: nat)
    requires Rising(all, 0, hi) && NonEmpty(all) && all == spans + ([u] + rest)
    ensures !Was(spans, (u.start, u.end))
  {
    assert all[|spans|] == u;
    forall i | 0 <= i < |spans|
      ensures spans[i].end <= u.start
    {
      assert all[i] == spans[i];
    }
  }

  // ------------------------------------------------------------------ what the draft builder is promised

  /** A level the reader reports is a word. */
  ghost predicate LevelsPresent(reader: Reader) {
    forall t, u :: I.LevelPresent(reader.read(t, u).level)
  }

  /** Within its bounds, an analysed message is exactly the kind of source the vacancy draft is built on. */
  lemma {:induction false} AnalysisIsADraftSource(
      lex: Lexicon, reader: Reader, text: string, requirements: seq<D.SourceUnit>)
    requires LexiconOk(lex) && LevelsPresent(reader) && |text| <= D.MAX_TEXT
    requires |requirements| == |MaterialUnits(lex, text)| <= D.MAX_SPANS
    requires forall i :: 0 <= i < |requirements| ==>
      MaterialUnits(lex, text)[i].start <= MaterialUnits(lex, text)[i].end <= |text| && requirements[i] == UnitOf(reader, text, MaterialUnits(lex, text)[i])
    ensures I.SourceOk(requirements)
  {
    MaterialSpansAreDisjoint(lex, text);
    hide LexiconOk, MaterialUnits, LevelsPresent, UnitOf, Rising, UnitClear;
    forall r | r in requirements
      ensures r.start < r.end && |r.text| == r.end - r.start && |r.text| <= D.MAX_TEXT && I.LevelPresent(r.level)
      ensures r.state == D.Scorable ==> r.family.Some? && r.family.value != D.Other && r.modality.Some?
    {
      var i :| 0 <= i < |requirements| && requirements[i] == r;
      UnitIsSound(reader, text, MaterialUnits(lex, text)[i]);
    }
  }

  lemma {:induction false} UnitIsSound(reader: Reader, text: string, u: Unit)
    requires LevelsPresent(reader) && u.start < u.end <= |text|
    ensures var r := UnitOf(reader, text, u);
      && r.start == u.start && r.end == u.end && |r.text| == r.end - r.start && I.LevelPresent(r.level)
      && (r.state == D.Scorable ==> r.family.Some? && r.family.value != D.Other && r.modality.Some?)
  {
    ScorableIsReadable(reader.read(text, u));
    assert I.LevelPresent(reader.read(text, u).level);
    hide Classify, LevelsPresent, I.LevelPresent;
  }
}
