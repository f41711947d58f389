/**
 The last step of `analyze_hr_text`: the register of the roles is built over the spans just analysed, and
 whatever the readers point at, no requirement owns any of the result-count wording.
 */
module AnalyzedRoles {
  import opened Wrappers
  import opened Segmentation
  import opened MaterialSpans
  import opened RoleRegistry
  import D = DraftSchemas

  /** The exact occurrences that the reading of one span points at. */
  datatype Marks = Marks(
    subject: Option<Range>, quantifierOnly: bool, duration: Option<Range>, proficiency: Option<Range>, modality: Option<Range>)

  datatype Marker = Marker(mark: (string, Unit) -> Marks)

  function ItemOf(marker: Marker, text: string, u: Unit, id: nat, state: D.SpanState): Item {
    var m := marker.mark(text, u);
    Item(id, u.start, u.end, state, m.subject, m.quantifierOnly, m.duration, m.proficiency, m.modality)
  }

  function ItemsOf(marker: Marker, text: string, a: Analysis): (r: seq<Item>)
    requires |a.spans| == |a.requirements| == |a.ids|
    ensures |r| == |a.spans|
    ensures forall i :: 0 <= i < |r| ==> r[i] == ItemOf(marker, text, a.spans[i], a.ids[i], a.requirements[i].state)
  {
    seq(|a.spans|, i requires 0 <= i < |a.spans| => ItemOf(marker, text, a.spans[i], a.ids[i], a.requirements[i].state))
  }

  lemma {:induction false} AnalysisFits(lex: Lexicon, reader: Reader, marker: Marker, text: string, a: Analysis)
    requires ReadsAll(reader, text, a)
    ensures ItemsFit(text, ItemsOf(marker, text, a))
  {
    hide UnitOf;
  }

  /** `analyze_hr_text` to the end: spans, readings and roles, none of whose checks can fail. */
  method AnalyzeWithRoles(
      lex: Lexicon, reader: Reader, marker: Marker, w: Words, text: string) returns (a: Analysis, roles: seq<Claim>)
    requires LexiconOk(lex)
    ensures a.spans == MaterialUnits(lex, text) && ReadsAll(reader, text, a) && ItemsFit(text, ItemsOf(marker, text, a))
    ensures roles == SortedClaims(Registered([], AllOffers(w, text, ItemsOf(marker, text, a), lex.controls(text))))
    ensures InSequence(roles)
  {
    hide LexiconOk, MaterialUnits, UnitOf, AllOffers, Registered, SortedClaims, InSequence;
    var analysed := AnalyzeHrText(lex, reader, text);
    a := analysed.value;
    AnalysisFits(lex, reader, marker, text, a);
    var registered := BuildRoleRegistry(w, text, ItemsOf(marker, text, a), lex.controls(text));
    roles := registered.value;
  }

  // ------------------------------------------------------------------ requirements keep off the controls

  /** An occurrence lies in its span, or in the modality wording that the span shares. */
  predicate PointsInside(r: Option<Range>, u: Unit) {
    r.Some? ==> Inside(r.value, (u.start, u.end)) || (u.shared.Some? && Inside(r.value, u.shared.value))
  }

  ghost predicate MarkerOk(marker: Marker) {
    forall t, u ::
      var m := marker.mark(t, u);
      PointsInside(m.subject, u) && PointsInside(m.duration, u) && PointsInside(m.proficiency, u) && PointsInside(m.modality, u)
  }

  /** Matches lie in the text they are searched in. */
  ghost predicate MatchesOk(w: Words) {
    && (forall t, r :: r in w.words(t) ==> r.0 <= r.1 <= |t|)
    && (forall t, r :: r in w.chunks(t) ==> r.0 <= r.1 <= |t|)
    && (forall t, r :: r in w.relations(t) ==> r.0 <= r.1 <= |t|)
  }

  predicate SharesClear(u: Unit, controls: seq<Range>) {
    u.shared.Some? ==> Clear(u.shared.value, controls)
  }

  /** A span shares modality wording only where no control occupies it. */
  lemma {:induction false} RemainingShareClear(
      lex: Lexicon, text: string, units: seq<Unit>, controls: seq<Range>, k: nat := 0)
    requires k <= |units| && Rising(units, 0, |text|) && ControlsOk(text, controls) && LexiconOk(lex)
    ensures forall v :: v in Remaining(lex, text, units, controls, k) ==> SharesClear(v, controls)
    decreases |units| - k
  {
    hide LexiconOk, Uncontrolled;
    if k < |units| {
      RemainingShareClear(lex, text, units, controls, k + 1);
      var u := units[k];
      var part := UnitsFor(Uncontrolled(lex, text, [(u.start, u.end)], controls), SharedClear(u, controls), u.group);
      forall v | v in part
        ensures SharesClear(v, controls)
      {
        var i :| 0 <= i < |part| && part[i] == v;
      }
    }
  }

  lemma {:induction false} MaterialShareClear(lex: Lexicon, text: string)
    requires LexiconOk(lex)
    ensures forall v :: v in MaterialUnits(lex, text) ==> SharesClear(v, lex.controls(text))
  {
    hide LexiconOk, AllUnits, Remaining, Material, SharesClear;
    RemainingAreRising(lex, text);
    RemainingShareClear(lex, text, AllUnits(lex, text), lex.controls(text));
    MaterialRises(lex, text, Remaining(lex, text, AllUnits(lex, text), lex.controls(text)), 0);
  }

  predicate OccurrenceClear(r: Option<Range>, controls: seq<Range>) {
    r.Some? ==> Clear(r.value, controls)
  }

  predicate ItemClear(x: Item, controls: seq<Range>) {
    && Clear((x.start, x.end), controls)
    && OccurrenceClear(x.subject, controls) && OccurrenceClear(x.duration, controls)
    && OccurrenceClear(x.proficiency, controls) && OccurrenceClear(x.modality, controls)
  }

  lemma {:induction false} WithinClear(r: Range, outer: Range, controls: seq<Range>)
    requires Inside(r, outer) && Clear(outer, controls)
    ensures Clear(r, controls)
  {
  }

  lemma {:induction false} PointsClear(r: Option<Range>, u: Unit, controls: seq<Range>)
    requires PointsInside(r, u) && UnitClear(u, controls) && SharesClear(u, controls)
    ensures OccurrenceClear(r, controls)
  {
    if r.Some? {
      if Inside(r.value, (u.start, u.end)) {
        WithinClear(r.value, (u.start, u.end), controls);
      } else {
        WithinClear(r.value, u.shared.value, controls);
      }
    }
  }

  lemma {:induction false} ItemIsClear(
      marker: Marker, text: string, u: Unit, id: nat, state: D.SpanState, controls: seq<Range>)
    requires MarkerOk(marker) && UnitClear(u, controls) && SharesClear(u, controls)
    ensures ItemClear(ItemOf(marker, text, u, id, state), controls)
  {
    var m := marker.mark(text, u);
    assert PointsInside(m.subject, u) && PointsInside(m.duration, u) && PointsInside(m.proficiency, u) && PointsInside(m.modality, u);
    hide MarkerOk, PointsInside, SharesClear, OccurrenceClear;
    PointsClear(m.subject, u, controls);
    PointsClear(m.duration, u, controls);
    PointsClear(m.proficiency, u, controls);
    PointsClear(m.modality, u, controls);
  }

  predicate ClaimClear(c: Claim, controls: seq<Range>) {
    c.owner.OwnedByState? ==> Clear((c.start, c.end), controls)
  }

  predicate AllClear(claims: seq<Claim>, controls: seq<Range>) {
    forall c :: c in claims ==> ClaimClear(c, controls)
  }

  lemma {:induction false} ClearJoins(a: seq<Claim>, b: seq<Claim>, controls: seq<Range>)
    requires AllClear(a, controls) && AllClear(b, controls)
    ensures AllClear(a + b, controls)
  {
  }

  lemma {:induction false} OffersClear(rs: seq<Range>, text: string, x: Item, role: Role, controls: seq<Range>)
    requires x.start <= x.end <= |text| && Clear((x.start, x.end), controls)
    requires forall r :: r in rs ==> r.0 <= r.1 <= x.end - x.start
    ensures AllClear(Offers(rs, x.start, role, OwnedByState(x.state), Some(x.id)), controls)
  {
    var offers := Offers(rs, x.start, role, OwnedByState(x.state), Some(x.id));
    forall c | c in offers
      ensures ClaimClear(c, controls)
    {
      var i :| 0 <= i < |offers| && offers[i] == c;
      assert rs[i] in rs;
      WithinClear((c.start, c.end), (x.start, x.end), controls);
    }
  }

  lemma {:induction false} WordOffersClear(w: Words, text: string, x: Item, controls: seq<Range>)
    requires MatchesOk(w) && x.start <= x.end <= |text| && Clear((x.start, x.end), controls)
    ensures AllClear(WordOffers(w, text, x.start, x.end, OwnedByState(x.state), Some(x.id)), controls)
  {
    var offers := WordOffers(w, text, x.start, x.end, OwnedByState(x.state), Some(x.id));
    var rs := w.words(text[x.start..x.end]);
    assert forall r :: r in rs ==> r.0 <= r.1 <= x.end - x.start;
    hide MatchesOk, Clear, WordOffers;
    forall c | c in offers
      ensures ClaimClear(c, controls)
    {
      var i :| 0 <= i < |offers| && offers[i] == c;
      assert rs[i] in rs;
      WithinClear((c.start, c.end), (x.start, x.end), controls);
    }
  }

  lemma {:induction false} OccurrenceOfferClear(
      r: Option<Range>, role: Role, owner: Owner, span: Option<nat>, controls: seq<Range>)
    requires OccurrenceClear(r, controls)
    ensures AllClear(OccurrenceOffer(r, role, owner, span), controls)
  {
  }

  lemma {:induction false} ItemOffersClear(w: Words, text: string, x: Item, controls: seq<Range>)
    requires MatchesOk(w) && x.start <= x.end <= |text| && ItemClear(x, controls)
    ensures AllClear(ItemOffers(w, text, x), controls)
  {
    var owner, local := OwnedByState(x.state), text[x.start..x.end];
    assert forall r :: r in w.chunks(local) ==> r.0 <= r.1 <= x.end - x.start;
    assert forall r :: r in w.relations(local) ==> r.0 <= r.1 <= x.end - x.start;
    hide AllClear, Clear, MatchesOk, Offers, WordOffers, OccurrenceOffer;
    if x.state == D.Prohibited {
      OffersClear(w.chunks(local), text, x, ProtectedCue, controls);
    } else {
      var subject := if x.state != D.Scorable && x.quantifierOnly then None else x.subject;
      OccurrenceOfferClear(subject, Subject, owner, Some(x.id), controls);
      OccurrenceOfferClear(x.duration, Duration, owner, Some(x.id), controls);
      OccurrenceOfferClear(x.proficiency, Proficiency, owner, Some(x.id), controls);
      OccurrenceOfferClear(x.modality, ModalityRole, owner, Some(x.id), controls);
      OffersClear(w.relations(local), text, x, Relation, controls);
      WordOffersClear(w, text, x, controls);
      var a := OccurrenceOffer(subject, Subject, owner, Some(x.id));
      var b := OccurrenceOffer(x.duration, Duration, owner, Some(x.id));
      var c := OccurrenceOffer(x.proficiency, Proficiency, owner, Some(x.id));
      var d := OccurrenceOffer(x.modality, ModalityRole, owner, Some(x.id));
      var e := Offers(w.relations(local), x.start, Relation, owner, Some(x.id));
      ClearJoins(a, b, controls);
      ClearJoins(a + b, c, controls);
      ClearJoins(a + b + c, d, controls);
      ClearJoins(a + b + c + d, e, controls);
      ClearJoins(a + b + c + d + e, WordOffers(w, text, x.start, x.end, owner, Some(x.id)), controls);
    }
  }

  ghost predicate ItemsClear(items: seq<Item>, controls: seq<Range>) {
    forall i :: 0 <= i < |items| ==> ItemClear(items[i], controls)
  }

  lemma {:induction false} ItemsOffersClear(w: Words, text: string, items: seq<Item>, controls: seq<Range>, k: nat := 0)
    requires MatchesOk(w) && k <= |items| && ItemsFit(text, items) && ItemsClear(items, controls)
    ensures AllClear(ItemsOffers(w, text, items, k), controls)
    decreases |items| - k
  {
    hide MatchesOk, ItemClear, ItemOffers, ClaimClear;
    if k < |items| {
      ItemOffersClear(w, text, items[k], controls);
      ItemsOffersClear(w, text, items, controls, k + 1);
      ClearJoins(ItemOffers(w, text, items[k]), ItemsOffers(w, text, items, k + 1), controls);
    }
  }

  lemma {:induction false} NobodysOffersClear(w: Words, text: string, controls: seq<Range>)
    ensures AllClear(Offers(controls, 0, ControlResultCount, WorkflowControl, None), controls)
    ensures AllClear(WordOffers(w, text, 0, |text|, NonRequirementText, None), controls)
  {
  }

  /** Whatever lies clear of the controls claims nothing of them. */
  lemma {:induction false} ClearItemsClaimNoControl(w: Words, text: string, items: seq<Item>, controls: seq<Range>)
    requires MatchesOk(w) && ItemsFit(text, items) && ItemsClear(items, controls)
    ensures AllClear(Registered([], AllOffers(w, text, items, controls)), controls)
  {
    hide MatchesOk, ItemsClear, ClaimClear, Offers, WordOffers, ItemsOffers, Registered;
    ItemsOffersClear(w, text, items, controls);
    NobodysOffersClear(w, text, controls);
    var first := Offers(controls, 0, ControlResultCount, WorkflowControl, None);
    var rest := WordOffers(w, text, 0, |text|, NonRequirementText, None);
    ClearJoins(first, ItemsOffers(w, text, items), controls);
    ClearJoins(first + ItemsOffers(w, text, items), rest, controls);
    RegisteredKeeps([], AllOffers(w, text, items, controls));
  }

  /** In every analysis, no requirement owns any part of the result-count wording, however its matches overlap. */
  lemma {:induction false} RequirementsKeepOffControls(
      lex: Lexicon, reader: Reader, marker: Marker, w: Words, text: string, a: Analysis)
    requires LexiconOk(lex) && MarkerOk(marker) && MatchesOk(w)
    requires a.spans == MaterialUnits(lex, text) && ReadsAll(reader, text, a)
    ensures ItemsFit(text, ItemsOf(marker, text, a))
    ensures var roles := Registered([], AllOffers(w, text, ItemsOf(marker, text, a), lex.controls(text)));
      forall c, control :: c in roles && c.owner.OwnedByState? && control in lex.controls(text) ==> !Overlap((c.start, c.end), control)
  {
    MaterialSpansAreDisjoint(lex, text);
    MaterialShareClear(lex, text);
    AnalysisFits(lex, reader, marker, text, a);
    hide LexiconOk, MarkerOk, MatchesOk, MaterialUnits, UnitClear, SharesClear, ReadsAll, AllOffers, Registered,
         ItemClear;
    var items, controls := ItemsOf(marker, text, a), lex.controls(text);
    forall i | 0 <= i < |items|
      ensures ItemClear(items[i], controls)
    {
      assert a.spans[i] in MaterialUnits(lex, text);
      ItemIsClear(marker, text, a.spans[i], a.ids[i], a.requirements[i].state, controls);
    }
    ClearItemsClaimNoControl(w, text, items, controls);
    assert forall c :: c in Registered([], AllOffers(w, text, items, controls)) ==> ClaimClear(c, controls);
  }
}
