/**
 From source spans to canonical requirements (`agent/canonical_requirements.py`): the per-span
 interpretation, the coordination-symmetry pass and the collision pass, as the loops that compute
 them and as the per-span specification they are proved against.
 */
module CanonicalRequirements {
  import opened Wrappers
  import opened Sequences
  import opened CoreText
  import opened DraftSchemas

  /** A validated, source-bound interpretation of one span. No source means no authority. */
  datatype Canonical = Canonical(
    spanId: SpanId, kind: Option<Kind>, subject: Option<string>,
    modality: Option<Modality>, years: Option<real>, level: Option<string>,
    state: SpanState, source: Option<InterpretationSource>, reason: Option<ReviewReason>,
    shape: bool, conflict: Option<nat>)

  datatype Rejection =
    | UnsupportedKind | KindMismatch | DurationMismatch | LevelMismatch | ProhibitedTerm
    | ScopeQualified | SubjectRefused | SubjectNotGrounded

  // ------------------------------------------------------------------ one span

  /** `_from_semantic`: the deterministic reading, without any model contribution. */
  function FromSemantic(lex: Lexicon, u: SourceUnit, s: SpanId): Canonical {
    var prohibited := Prohibits(lex, u.text) || (u.subject.Some? && Prohibits(lex, u.subject.value));
    var canonical := u.family.Some? && IsCanonicalSubject(lex, u.family.value, u.subject);
    var demoted := !prohibited && u.state == Scorable && u.family.Some? && !canonical;
    var state := if prohibited then Prohibited else if demoted then NeedsReview else u.state;
    var reason := if prohibited then None else if demoted then Some(SubjectNotCanonical) else u.reason;
    var shape :=
      && u.family.Some? && u.family.value != Other
      && (state == Scorable || (state == NeedsReview && reason == Some(ModalityUnknown)))
      && canonical;
    Canonical(
      s,
      if state != Prohibited then u.family else None,
      if state != Prohibited && HasText(u.subject) then u.subject else None,
      u.modality, u.years, u.level, state,
      if state == Scorable || shape then Some(Deterministic) else None,
      if state == NeedsReview then reason else None,
      shape, None)
  }

  /** The only review reasons a model proposal may close. */
  const LIFTABLE := {Some(SubjectNotCanonical), Some(RecruitmentSubjectWithoutCue)}

  /** `_validate_proposal`: the canonical display subject, or why not. */
  function ValidateProposal(lex: Lexicon, p: Proposal, u: SourceUnit): Result<string, Rejection> {
    if p.kind == Other then Err(UnsupportedKind)
    else if u.family.None? || p.kind != u.family.value then Err(KindMismatch)
    else if p.years != u.years then Err(DurationMismatch)
    else if NormalizedLevel(p.level) != NormalizedLevel(u.level) then Err(LevelMismatch)
    else if p.level.Some? && !lex.cefrOrSameLevel(p.level.value, u.level) then Err(LevelMismatch)
    else
      var subject := JoinWords(p.requirement);
      if Prohibits(lex, subject) || Prohibits(lex, u.text) then Err(ProhibitedTerm)
      else if u.subjectText.Some? && lex.scopeQualified(u.subjectText.value) then Err(ScopeQualified)
      else if !IsCanonicalSubject(lex, p.kind, Some(subject)) then Err(SubjectRefused)
      else if p.kind != Experience && !lex.groundedIn(p.kind, subject, u.text) then Err(SubjectNotGrounded)
      else Ok(lex.canonicalDisplay(p.kind, subject))
  }

  function ForSpan(proposals: seq<Proposal>, s: SpanId): seq<Proposal> {
    Filter((p: Proposal) => p.spanId == s, proposals)
  }

  function Valid(lex: Lexicon, u: SourceUnit, candidates: seq<Proposal>): seq<Proposal> {
    Filter((p: Proposal) => ValidateProposal(lex, p, u).Ok?, candidates)
  }

  function DisplayOf(lex: Lexicon, u: SourceUnit, p: Proposal): string {
    var r := ValidateProposal(lex, p, u);
    if r.Ok? then r.value else ""
  }

  /** All valid proposals for the span name one subject. */
  predicate OneSubject(lex: Lexicon, u: SourceUnit, valid: seq<Proposal>) {
    && valid != []
    && forall p :: p in valid ==> lex.subjectKey(DisplayOf(lex, u, p)) == lex.subjectKey(DisplayOf(lex, u, valid[0]))
  }

  predicate Liftable(base: Canonical) {
    base.state == NeedsReview && base.reason in LIFTABLE
  }

  function LiftedTo(u: SourceUnit, s: SpanId, display: string): Canonical {
    var state := if u.modality.Some? then Scorable else NeedsReview;
    Canonical(
      s, u.family, Some(display), u.modality, u.years, u.level, state, Some(ModelValidated),
      if state == Scorable then None else Some(ModalityUnknown), true, None)
  }

  function Interpreted(lex: Lexicon, u: SourceUnit, s: SpanId, candidates: seq<Proposal>): Canonical {
    var base := FromSemantic(lex, u, s);
    var valid := Valid(lex, u, candidates);
    if Liftable(base) && OneSubject(lex, u, valid) then LiftedTo(u, s, DisplayOf(lex, u, valid[0])) else base
  }

  function PerSpan(lex: Lexicon, units: seq<SourceUnit>, proposals: seq<Proposal>): (r: seq<Canonical>)
    ensures |r| == |units|
    ensures forall i :: 0 <= i < |units| ==> r[i] == Interpreted(lex, units[i], i, ForSpan(proposals, i))
  {
    seq(|units|, i requires 0 <= i < |units| => Interpreted(lex, units[i], i, ForSpan(proposals, i)))
  }

  // ------------------------------------------------------------------ coordination symmetry

  /** Another side of the same coordinated clause still needs review. */
  predicate SideUnsettled(units: seq<SourceUnit>, results: seq<Canonical>, i: nat)
    requires |units| == |results| && i < |units|
  {
    exists j :: 0 <= j < |units| && units[i].group.Some? && units[j].group == units[i].group && results[j].state == NeedsReview
  }

  function Demoted(c: Canonical): Canonical {
    c.(state := NeedsReview, source := None, reason := Some(CoordinationSymmetry), shape := false)
  }

  function Symmetric(units: seq<SourceUnit>, results: seq<Canonical>): (r: seq<Canonical>)
    requires |units| == |results|
    ensures |r| == |results|
    ensures forall i :: 0 <= i < |r| ==>
      r[i] == if results[i].state == Scorable && SideUnsettled(units, results, i) then Demoted(results[i]) else results[i]
  {
    seq(|results|, i requires 0 <= i < |results| =>
      if results[i].state == Scorable && SideUnsettled(units, results, i) then Demoted(results[i]) else results[i])
  }

  // ------------------------------------------------------------------ collisions

  type RequirementKey = (Kind, string)

  predicate Ready(c: Canonical) {
    c.state == Scorable && c.kind.Some? && c.modality.Some?
  }

  function IdentityOf(lex: Lexicon, c: Canonical): RequirementKey
    requires c.kind.Some?
  {
    Identity(lex, c.kind.value, c.subject)
  }

  function ParametersOf(c: Canonical): Params
    requires c.modality.Some?
  {
    SemanticParameters(c.modality.value, c.years, c.level)
  }

  predicate SameRequirement(lex: Lexicon, a: Canonical, b: Canonical) {
    Ready(a) && Ready(b) && IdentityOf(lex, a) == IdentityOf(lex, b)
  }

  /** Some other scorable span demands the same requirement with different parameters. */
  predicate InConflict(lex: Lexicon, ordered: seq<Canonical>, i: nat)
    requires i < |ordered|
  {
    exists j :: 0 <= j < |ordered| && SameRequirement(lex, ordered[i], ordered[j]) && ParametersOf(ordered[i]) != ParametersOf(ordered[j])
  }

  predicate IsLeader(lex: Lexicon, ordered: seq<Canonical>, i: nat)
    requires i < |ordered|
  {
    Ready(ordered[i]) && forall j :: 0 <= j < i ==> !SameRequirement(lex, ordered[i], ordered[j])
  }

  /** The first span of the same requirement. */
  function LeaderOf(lex: Lexicon, ordered: seq<Canonical>, i: nat, from: nat := 0): (l: nat)
    requires from <= i < |ordered| && Ready(ordered[i])
    requires forall j :: 0 <= j < from ==> !SameRequirement(lex, ordered[i], ordered[j])
    ensures l <= i && SameRequirement(lex, ordered[i], ordered[l]) && IsLeader(lex, ordered, l)
    decreases i - from
  {
    if from == i || SameRequirement(lex, ordered[i], ordered[from]) then
      Leads(lex, ordered, i, from);
      from
    else LeaderOf(lex, ordered, i, from + 1)
  }

  lemma {:induction false} Leads(lex: Lexicon, ordered: seq<Canonical>, i: nat, l: nat)
    requires l <= i < |ordered| && SameRequirement(lex, ordered[i], ordered[l])
    requires forall j :: 0 <= j < l ==> !SameRequirement(lex, ordered[i], ordered[j])
    ensures IsLeader(lex, ordered, l)
  {
    forall j | 0 <= j < l
      ensures !SameRequirement(lex, ordered[l], ordered[j])
    {
      assert !SameRequirement(lex, ordered[i], ordered[j]);
    }
  }

  /** How many conflicting requirements start before position `n`. */
  function ConflictsBefore(lex: Lexicon, ordered: seq<Canonical>, n: nat): nat
    requires n <= |ordered|
  {
    if n == 0 then 0
    else ConflictsBefore(lex, ordered, n - 1) + if IsLeader(lex, ordered, n - 1) && InConflict(lex, ordered, n - 1) then 1 else 0
  }

  /** Conflicts are numbered from 1 in the order their first spans appear. */
  function ConflictNumber(lex: Lexicon, ordered: seq<Canonical>, i: nat): nat
    requires i < |ordered| && Ready(ordered[i])
  {
    ConflictsBefore(lex, ordered, LeaderOf(lex, ordered, i) + 1)
  }

  function Conflicting(c: Canonical, number: nat): Canonical {
    c.(state := NeedsReview, reason := Some(SemanticConflict), conflict := Some(number))
  }

  function Collided(lex: Lexicon, ordered: seq<Canonical>): (r: seq<Canonical>)
    ensures |r| == |ordered|
    ensures forall i :: 0 <= i < |r| ==>
      r[i] == if InConflict(lex, ordered, i) then Conflicting(ordered[i], ConflictNumber(lex, ordered, i)) else ordered[i]
  {
    seq(|ordered|, i requires 0 <= i < |ordered| =>
      if InConflict(lex, ordered, i) then Conflicting(ordered[i], ConflictNumber(lex, ordered, i)) else ordered[i])
  }

  function Canonicalize(lex: Lexicon, units: seq<SourceUnit>, proposals: seq<Proposal>): (r: seq<Canonical>)
    ensures |r| == |units|
  {
    Collided(lex, Symmetric(units, PerSpan(lex, units, proposals)))
  }

  // ------------------------------------------------------------------ the loops

  method Bucketed(units: seq<SourceUnit>, proposals: seq<Proposal>) returns (bySpan: map<SpanId, seq<Proposal>>)
    ensures forall s: SpanId :: (if s in bySpan then bySpan[s] else []) == if s < |units| then ForSpan(proposals, s) else []
  {
    bySpan := map[];
    for i := 0 to |proposals|
      invariant forall s: SpanId :: (if s in bySpan then bySpan[s] else []) == if s < |units| then ForSpan(proposals[..i], s) else []
    {
      var p := proposals[i];
      forall s: SpanId
        ensures ForSpan(proposals[..i + 1], s) == ForSpan(proposals[..i], s) + if p.spanId == s then [p] else []
      {
        assert proposals[..i + 1] == proposals[..i] + [p];
        FilterAppend((x: Proposal) => x.spanId == s, proposals[..i], p);
      }
      if p.spanId < |units| {
        bySpan := bySpan[p.spanId := (if p.spanId in bySpan then bySpan[p.spanId] else []) + [p]];
      }
    }
    assert proposals[..|proposals|] == proposals;
  }

  /** `accepted` holds, per subject, the first display among the valid proposals. */
  ghost predicate Keyed(lex: Lexicon, u: SourceUnit, valid: seq<Proposal>, accepted: map<string, string>) {
    && (forall p :: p in valid ==> lex.subjectKey(DisplayOf(lex, u, p)) in accepted)
    && (forall key :: key in accepted ==>
          exists p :: p in valid && lex.subjectKey(DisplayOf(lex, u, p)) == key && accepted[key] == DisplayOf(lex, u, p))
    && (valid != [] ==> accepted[lex.subjectKey(DisplayOf(lex, u, valid[0]))] == DisplayOf(lex, u, valid[0]))
  }

  lemma {:induction false} KeyedOneMore(
      lex: Lexicon, u: SourceUnit, valid: seq<Proposal>, accepted: map<string, string>, p: Proposal)
    requires Keyed(lex, u, valid, accepted)
    ensures var display := DisplayOf(lex, u, p);
      var key := lex.subjectKey(display);
      Keyed(lex, u, valid + [p], if key in accepted then accepted else accepted[key := display])
  {
    hide DisplayOf;
    var display := DisplayOf(lex, u, p);
    var key := lex.subjectKey(display);
    var longer := valid + [p];
    var more := if key in accepted then accepted else accepted[key := display];
    assert p in longer;
    assert forall q :: q in valid ==> q in longer;
    forall k | k in more
      ensures exists q :: q in longer && lex.subjectKey(DisplayOf(lex, u, q)) == k && more[k] == DisplayOf(lex, u, q)
    {
      if k in accepted {
        var q :| q in valid && lex.subjectKey(DisplayOf(lex, u, q)) == k && accepted[k] == DisplayOf(lex, u, q);
        assert q in longer;
      }
    }
    if valid != [] {
      assert longer[0] == valid[0] && valid[0] in valid;
    }
  }

  /** Keep the first display per subject; a span is lifted only when one subject remains. */
  method Interpret(lex: Lexicon, u: SourceUnit, s: SpanId, candidates: seq<Proposal>) returns (r: Canonical)
    ensures r == Interpreted(lex, u, s, candidates)
  {
    hide FromSemantic, ValidateProposal, Keyed;
    var base := FromSemantic(lex, u, s);
    if !Liftable(base) {
      return base;
    }
    var accepted: map<string, string> := map[];
    assert Keyed(lex, u, Valid(lex, u, []), accepted) by { NothingKeyed(lex, u); }
    for i := 0 to |candidates|
      invariant Keyed(lex, u, Valid(lex, u, candidates[..i]), accepted)
    {
      assert candidates[..i + 1] == candidates[..i] + [candidates[i]];
      FilterAppend((p: Proposal) => ValidateProposal(lex, p, u).Ok?, candidates[..i], candidates[i]);
      var display := ValidateProposal(lex, candidates[i], u);
      if display.Ok? {
        KeyedOneMore(lex, u, Valid(lex, u, candidates[..i]), accepted, candidates[i]);
        var key := lex.subjectKey(display.value);
        if key !in accepted {
          accepted := accepted[key := display.value];
        }
        assert Valid(lex, u, candidates[..i + 1]) == Valid(lex, u, candidates[..i]) + [candidates[i]];
      } else {
        assert Valid(lex, u, candidates[..i + 1]) == Valid(lex, u, candidates[..i]);
      }
    }
    assert candidates[..|candidates|] == candidates;
    OneKeyIff(lex, u, Valid(lex, u, candidates), accepted);
    if |accepted| != 1 {
      return base;
    }
    var key :| key in accepted;
    return LiftedTo(u, s, accepted[key]);
  }

  lemma {:induction false} NothingKeyed(lex: Lexicon, u: SourceUnit)
    ensures Keyed(lex, u, Valid(lex, u, []), map[])
  {
  }

  lemma {:induction false} OneKeyIff(lex: Lexicon, u: SourceUnit, valid: seq<Proposal>, accepted: map<string, string>)
    requires Keyed(lex, u, valid, accepted)
    ensures |accepted| == 1 <==> OneSubject(lex, u, valid)
    ensures |accepted| == 1 ==> forall key :: key in accepted ==> accepted[key] == DisplayOf(lex, u, valid[0])
  {
    hide DisplayOf;
    if OneSubject(lex, u, valid) {
      assert valid[0] in valid;
      assert accepted.Keys == {lex.subjectKey(DisplayOf(lex, u, valid[0]))};
      assert |accepted.Keys| == |accepted|;
    }
    if |accepted| == 1 {
      assert |accepted.Keys| == 1;
      var key :| key in accepted;
      var p :| p in valid && lex.subjectKey(DisplayOf(lex, u, p)) == key;
      forall k | k in accepted
        ensures k == key
      {
        SubsetSize({k, key}, accepted.Keys);
      }
      assert valid[0] in valid;
    }
  }

  predicate Interpretable(c: Canonical) {
    c.state == Scorable || c.state == NeedsReview
  }

  function InterpretableOf(start: seq<Canonical>, members: seq<nat>): seq<nat> {
    Filter((k: nat) => k < |start| && Interpretable(start[k]), members)
  }

  /** One coordinated clause: unless all its interpretable sides are scorable, none is. */
  method SettleGroup(
      units: seq<SourceUnit>, start: seq<Canonical>, g: nat, members: seq<nat>) returns (results: seq<Canonical>)
    requires |units| == |start|
    requires forall k :: k in members <==> 0 <= k < |units| && units[k].group == Some(g)
    ensures |results| == |start|
    ensures forall i :: 0 <= i < |start| ==>
      results[i] == if i in members then Symmetric(units, start)[i] else start[i]
  {
    hide InterpretableOf, Symmetric, SideUnsettled, Demoted, Interpretable;
    var interpretable := InterpretableOf(start, members);
    InterpretableIs(start, members);
    results := start;
    if |interpretable| < 2 || forall k :: k in interpretable ==> start[k].state == Scorable {
      NothingToSettle(units, start, g, members, interpretable);
      return;
    }
    for n := 0 to |interpretable|
      invariant |results| == |start|
      invariant forall i :: 0 <= i < |start| ==>
        results[i] == if i in interpretable[..n] && start[i].state == Scorable then Demoted(start[i]) else start[i]
    {
      var k := interpretable[n];
      assert k in interpretable;
      assert interpretable[..n + 1] == interpretable[..n] + [k];
      if start[k].state == Scorable {
        results := results[k := Demoted(start[k])];
      }
    }
    assert interpretable[..|interpretable|] == interpretable;
    Settled(units, start, g, members, interpretable);
  }

  lemma {:induction false} Settled(
      units: seq<SourceUnit>, start: seq<Canonical>, g: nat, members: seq<nat>, interpretable: seq<nat>)
    requires |units| == |start| && interpretable == InterpretableOf(start, members)
    requires forall k :: k in members <==> 0 <= k < |units| && units[k].group == Some(g)
    requires exists k :: k in interpretable && start[k].state != Scorable
    ensures forall i :: 0 <= i < |start| && i in members ==>
      Symmetric(units, start)[i] == if i in interpretable && start[i].state == Scorable then Demoted(start[i]) else start[i]
  {
    InterpretableIs(start, members);
    hide InterpretableOf, Demoted;
    var unsettled :| unsettled in interpretable && start[unsettled].state != Scorable;
    forall i | 0 <= i < |start| && i in members
      ensures SideUnsettled(units, start, i)
    {
      assert units[unsettled].group == units[i].group;
    }
  }

  lemma {:induction false} InterpretableIs(start: seq<Canonical>, members: seq<nat>)
    ensures forall k :: k in InterpretableOf(start, members) <==> k in members && k < |start| && Interpretable(start[k])
  {
  }

  lemma {:induction false} NothingToSettle(
      units: seq<SourceUnit>, start: seq<Canonical>, g: nat, members: seq<nat>, interpretable: seq<nat>)
    requires |units| == |start|
    requires forall k :: k in members <==> 0 <= k < |units| && units[k].group == Some(g)
    requires interpretable == InterpretableOf(start, members)
    requires |interpretable| < 2 || forall k :: k in interpretable ==> start[k].state == Scorable
    ensures forall i :: i in members ==> Symmetric(units, start)[i] == start[i]
  {
    InterpretableIs(start, members);
    hide InterpretableOf;
    forall i | i in members && start[i].state == Scorable
      ensures !SideUnsettled(units, start, i)
    {
      if SideUnsettled(units, start, i) {
        var j: nat :| j < |units| && units[j].group == units[i].group && start[j].state == NeedsReview;
        assert i in interpretable && j in interpretable;
        TwoMembers(interpretable, i, j);
      }
    }
  }

  lemma {:induction false} TwoMembers<T>(s: seq<T>, a: T, b: T)
    requires a in s && b in s && a != b
    ensures |s| >= 2
  {
    var i :| 0 <= i < |s| && s[i] == a;
    var j :| 0 <= j < |s| && s[j] == b;
  }

  predicate InGroup(groups: map<nat, seq<nat>>, g: nat, k: nat) {
    g in groups && k in groups[g]
  }

  /** The symmetry pass: group by group, on a list that is updated as it goes. */
  method ApplySymmetry(units: seq<SourceUnit>, start: seq<Canonical>) returns (results: seq<Canonical>)
    requires |units| == |start|
    ensures results == Symmetric(units, start)
  {
    var groups: map<nat, seq<nat>> := map[];
    var order: seq<nat> := [];
    for i := 0 to |units|
      invariant forall g :: g in groups <==> g in order
      invariant forall a, b :: 0 <= a < b < |order| ==> order[a] != order[b]
      invariant forall g: nat, k: nat :: InGroup(groups, g, k) <==> k < i && units[k].group == Some(g)
    {
      if units[i].group.Some? {
        var g := units[i].group.value;
        if g !in groups {
          order := order + [g];
        }
        groups := groups[g := (if g in groups then groups[g] else []) + [i]];
      }
    }
    results := start;
    for k := 0 to |order|
      invariant |results| == |start|
      invariant forall i :: 0 <= i < |start| ==>
        results[i] == if units[i].group.Some? && units[i].group.value in order[..k] then Symmetric(units, start)[i] else start[i]
    {
      var g := order[k];
      assert g in groups && forall i: nat :: i in groups[g] <==> InGroup(groups, g, i);
      SettlesAlike(units, start, results, g);
      results := SettleGroup(units, results, g, groups[g]);
      assert order[..k + 1] == order[..k] + [g];
    }
    assert order[..|order|] == order;
    forall i | 0 <= i < |start|
      ensures results[i] == Symmetric(units, start)[i]
    {
      if units[i].group.Some? {
        assert InGroup(groups, units[i].group.value, i);
      }
    }
  }

  /** A group not yet settled still reads the starting list. */
  lemma {:induction false} SettlesAlike(units: seq<SourceUnit>, start: seq<Canonical>, results: seq<Canonical>, g: nat)
    requires |units| == |start| == |results|
    requires forall i :: 0 <= i < |start| && units[i].group == Some(g) ==> results[i] == start[i]
    ensures forall i :: 0 <= i < |start| && units[i].group == Some(g) ==> Symmetric(units, results)[i] == Symmetric(units, start)[i]
  {
    forall i | 0 <= i < |start| && units[i].group == Some(g)
      ensures SideUnsettled(units, results, i) <==> SideUnsettled(units, start, i)
    {
    }
  }

  predicate InIdentity(groups: map<RequirementKey, seq<nat>>, id: RequirementKey, k: nat) {
    id in groups && k in groups[id]
  }

  predicate Has(lex: Lexicon, c: Canonical, id: RequirementKey) {
    Ready(c) && IdentityOf(lex, c) == id
  }

  /** The first `n` spans are grouped by requirement, the groups in order of their first spans. */
  ghost predicate Grouped(
      lex: Lexicon, ordered: seq<Canonical>, n: nat, groups: map<RequirementKey, seq<nat>>, order: seq<RequirementKey>)
  {
    && n <= |ordered|
    && (forall id :: id in groups <==> id in order)
    && (forall id: RequirementKey, k: nat :: InIdentity(groups, id, k) <==> k < n && Has(lex, ordered[k], id))
    && (forall id :: id in groups ==> StartsAt(lex, ordered, n, groups[id]))
    && InStartOrder(groups, order)
  }

  ghost predicate StartsAt(lex: Lexicon, ordered: seq<Canonical>, n: nat, indices: seq<nat>) {
    indices != [] && indices[0] < n && indices[0] < |ordered| && IsLeader(lex, ordered, indices[0])
  }

  ghost predicate InStartOrder(groups: map<RequirementKey, seq<nat>>, order: seq<RequirementKey>) {
    && (forall a :: 0 <= a < |order| ==> order[a] in groups && groups[order[a]] != [])
    && forall a, b :: 0 <= a < b < |order| ==> groups[order[a]][0] < groups[order[b]][0]
  }

  /** `groups.setdefault(id, []).append(n)`. */
  function Grown(groups: map<RequirementKey, seq<nat>>, id: RequirementKey, n: nat): map<RequirementKey, seq<nat>> {
    groups[id := (if id in groups then groups[id] else []) + [n]]
  }

  lemma {:induction false} GrownHas(
      lex: Lexicon, ordered: seq<Canonical>, n: nat, groups: map<RequirementKey, seq<nat>>, order: seq<RequirementKey>)
    requires Grouped(lex, ordered, n, groups, order) && n < |ordered| && Ready(ordered[n])
    ensures forall h: RequirementKey, k: nat :: InIdentity(Grown(groups, IdentityOf(lex, ordered[n]), n), h, k) <==> k < n + 1 && Has(lex, ordered[k], h)
  {
    var id := IdentityOf(lex, ordered[n]);
    forall h: RequirementKey, k: nat
      ensures InIdentity(Grown(groups, id, n), h, k) <==> k < n + 1 && Has(lex, ordered[k], h)
    {
      assert InIdentity(groups, h, k) <==> k < n && Has(lex, ordered[k], h);
      if h == id { if id in groups { } else { } }
    }
  }

  lemma {:induction false} NewGroupLeads(
      lex: Lexicon, ordered: seq<Canonical>, n: nat, groups: map<RequirementKey, seq<nat>>, order: seq<RequirementKey>)
    requires Grouped(lex, ordered, n, groups, order) && n < |ordered| && Ready(ordered[n]) && IdentityOf(lex, ordered[n]) !in groups
    ensures IsLeader(lex, ordered, n)
  {
    forall j | 0 <= j < n
      ensures !SameRequirement(lex, ordered[n], ordered[j])
    {
      assert !InIdentity(groups, IdentityOf(lex, ordered[n]), j);
    }
  }

  lemma {:induction false} GroupedOneMore(
      lex: Lexicon, ordered: seq<Canonical>, n: nat, groups: map<RequirementKey, seq<nat>>, order: seq<RequirementKey>)
    requires Grouped(lex, ordered, n, groups, order) && n < |ordered| && Ready(ordered[n])
    ensures ordered[n].kind.Some?
    ensures var id := IdentityOf(lex, ordered[n]);
      Grouped(lex, ordered, n + 1, Grown(groups, id, n), if id in groups then order else order + [id])
  {
    var id := IdentityOf(lex, ordered[n]);
    GrownHas(lex, ordered, n, groups, order);
    GrownStarts(lex, ordered, n, groups, order);
    GrownOrder(lex, ordered, n, groups, order);
    hide Has, InIdentity, StartsAt, InStartOrder;
  }

  /** Each group still starts where it started; a new one starts at `n`. */
  lemma {:induction false} GrownStarts(
      lex: Lexicon, ordered: seq<Canonical>, n: nat, groups: map<RequirementKey, seq<nat>>, order: seq<RequirementKey>)
    requires Grouped(lex, ordered, n, groups, order) && n < |ordered| && Ready(ordered[n])
    ensures var groups' := Grown(groups, IdentityOf(lex, ordered[n]), n);
      forall h :: h in groups' ==> StartsAt(lex, ordered, n + 1, groups'[h])
  {
    var id := IdentityOf(lex, ordered[n]);
    if id !in groups { NewGroupLeads(lex, ordered, n, groups, order); }
    hide Has, InIdentity, IsLeader, Identity, InStartOrder;
    var groups' := Grown(groups, id, n);
    forall h | h in groups'
      ensures StartsAt(lex, ordered, n + 1, groups'[h])
    {
      if h != id || id in groups {
        assert StartsAt(lex, ordered, n, groups[h]);
        assert groups'[h][0] == groups[h][0];
      }
    }
  }

  lemma {:induction false} GrownOrder(
      lex: Lexicon, ordered: seq<Canonical>, n: nat, groups: map<RequirementKey, seq<nat>>, order: seq<RequirementKey>)
    requires Grouped(lex, ordered, n, groups, order) && n < |ordered| && Ready(ordered[n])
    ensures var id := IdentityOf(lex, ordered[n]);
      var groups' := Grown(groups, id, n);
      var order' := if id in groups then order else order + [id];
      InStartOrder(groups', order') && forall h :: h in groups' <==> h in order'
  {
    var id := IdentityOf(lex, ordered[n]);
    var groups' := Grown(groups, id, n);
    forall a | 0 <= a < |order|
      ensures order[a] in groups' && groups'[order[a]] != [] && groups'[order[a]][0] == groups[order[a]][0] < n
    {
      assert StartsAt(lex, ordered, n, groups[order[a]]);
    }
    hide Has, InIdentity, StartsAt, Identity;
  }

  lemma {:induction false} GroupedSkips(
      lex: Lexicon, ordered: seq<Canonical>, n: nat, groups: map<RequirementKey, seq<nat>>, order: seq<RequirementKey>)
    requires Grouped(lex, ordered, n, groups, order) && n < |ordered| && !Ready(ordered[n])
    ensures Grouped(lex, ordered, n + 1, groups, order)
  {
  }

  lemma {:induction false} LeaderIsUnique(lex: Lexicon, ordered: seq<Canonical>, a: nat, b: nat)
    requires a < |ordered| && b < |ordered| && IsLeader(lex, ordered, a) && IsLeader(lex, ordered, b)
    requires SameRequirement(lex, ordered[a], ordered[b])
    ensures a == b
  {
    NotAfterLeader(lex, ordered, a, b);
    NotAfterLeader(lex, ordered, b, a);
  }

  lemma {:induction false} NotAfterLeader(lex: Lexicon, ordered: seq<Canonical>, a: nat, b: nat)
    requires a < |ordered| && b < |ordered| && IsLeader(lex, ordered, b)
    ensures a < b ==> !SameRequirement(lex, ordered[a], ordered[b])
  {
    assert a < b ==> !SameRequirement(lex, ordered[b], ordered[a]);
  }

  predicate AllReady(ordered: seq<Canonical>, indices: seq<nat>) {
    forall k :: k in indices ==> k < |ordered| && Ready(ordered[k])
  }

  function GroupParameters(ordered: seq<Canonical>, indices: seq<nat>): set<Params>
    requires AllReady(ordered, indices)
  {
    set k | k in indices :: ParametersOf(ordered[k])
  }

  ghost predicate AreMembers(lex: Lexicon, ordered: seq<Canonical>, indices: seq<nat>, id: RequirementKey) {
    && AllReady(ordered, indices)
    && forall k: nat :: k in indices <==> k < |ordered| && Has(lex, ordered[k], id)
  }

  /** A group is in conflict exactly when its parameter sets are not all one. */
  lemma {:induction false} GroupConflict(lex: Lexicon, ordered: seq<Canonical>, indices: seq<nat>, id: RequirementKey)
    requires indices != [] && AreMembers(lex, ordered, indices, id)
    ensures var parameters := GroupParameters(ordered, indices);
      && (|indices| < 2 || |parameters| == 1 ==> forall k :: k in indices ==> !InConflict(lex, ordered, k))
      && (!(|indices| < 2 || |parameters| == 1) ==> forall k :: k in indices ==> InConflict(lex, ordered, k))
  {
    var parameters := GroupParameters(ordered, indices);
    assert indices[0] in indices;
    var one := ParametersOf(ordered[indices[0]]);
    assert one in parameters;
    if |indices| < 2 {
      assert forall k :: k in indices ==> k == indices[0];
      assert parameters == {one};
    }
    if |parameters| == 1 {
      forall k | k in indices
        ensures !InConflict(lex, ordered, k)
      {
        forall j | 0 <= j < |ordered| && SameRequirement(lex, ordered[k], ordered[j])
          ensures ParametersOf(ordered[k]) == ParametersOf(ordered[j])
        {
          assert j in indices;
          SubsetSize({ParametersOf(ordered[k]), ParametersOf(ordered[j])}, parameters);
        }
      }
    } else {
      forall k | k in indices
        ensures InConflict(lex, ordered, k)
      {
        var mine := ParametersOf(ordered[k]);
        assert mine in parameters;
        assert parameters != {mine};
        var other :| other in parameters && other != mine;
        var j :| j in indices && ParametersOf(ordered[j]) == other;
        assert SameRequirement(lex, ordered[k], ordered[j]);
      }
    }
  }

  lemma {:induction false} NoLeaderBetween(lex: Lexicon, ordered: seq<Canonical>, a: nat, b: nat)
    requires a <= b <= |ordered| && forall l :: a <= l < b ==> !IsLeader(lex, ordered, l)
    ensures ConflictsBefore(lex, ordered, b) == ConflictsBefore(lex, ordered, a)
  {
    if a < b {
      NoLeaderBetween(lex, ordered, a, b - 1);
    }
  }

  /** Where the (m+1)-th group starts; past the last one, the end of the list. */
  ghost function GroupStart(
      ordered: seq<Canonical>, groups: map<RequirementKey, seq<nat>>, order: seq<RequirementKey>, m: nat): nat
    requires m < |order| ==> order[m] in groups && groups[order[m]] != []
  {
    if m < |order| then groups[order[m]][0] else |ordered|
  }

  lemma {:induction false} NextGroup(
      lex: Lexicon, ordered: seq<Canonical>, groups: map<RequirementKey, seq<nat>>, order: seq<RequirementKey>, m: nat)
    requires Grouped(lex, ordered, |ordered|, groups, order) && m < |order|
    ensures forall l :: groups[order[m]][0] < l < GroupStart(ordered, groups, order, m + 1) ==> !IsLeader(lex, ordered, l)
  {
    forall l | groups[order[m]][0] < l < GroupStart(ordered, groups, order, m + 1)
      ensures !IsLeader(lex, ordered, l)
    {
      if IsLeader(lex, ordered, l) {
        GroupOfLeader(lex, ordered, groups, order, l);
      }
    }
  }

  lemma {:induction false} GroupOfLeader(
      lex: Lexicon, ordered: seq<Canonical>, groups: map<RequirementKey, seq<nat>>, order: seq<RequirementKey>, l: nat)
    requires Grouped(lex, ordered, |ordered|, groups, order) && l < |ordered| && IsLeader(lex, ordered, l)
    ensures exists k :: 0 <= k < |order| && groups[order[k]][0] == l
  {
    var id := IdentityOf(lex, ordered[l]);
    assert InIdentity(groups, id, l);
    var k :| 0 <= k < |order| && order[k] == id;
    assert groups[id][0] in groups[id];
    assert InIdentity(groups, id, groups[id][0]);
    LeaderIsUnique(lex, ordered, l, groups[id][0]);
  }

  lemma {:induction false} FirstGroup(
      lex: Lexicon, ordered: seq<Canonical>, groups: map<RequirementKey, seq<nat>>, order: seq<RequirementKey>)
    requires Grouped(lex, ordered, |ordered|, groups, order)
    ensures |order| > 0 ==> order[0] in groups && groups[order[0]] != [] && groups[order[0]][0] < |ordered|
    ensures forall l :: 0 <= l < GroupStart(ordered, groups, order, 0) ==> !IsLeader(lex, ordered, l)
  {
    assert |order| > 0 ==> order[0] in groups;
    forall l | 0 <= l < GroupStart(ordered, groups, order, 0)
      ensures !IsLeader(lex, ordered, l)
    {
      if IsLeader(lex, ordered, l) {
        GroupOfLeader(lex, ordered, groups, order, l);
      }
    }
  }

  lemma {:induction false} NothingGrouped(lex: Lexicon, ordered: seq<Canonical>)
    ensures Grouped(lex, ordered, 0, map[], [])
  {
  }

  method GroupByRequirement(
      lex: Lexicon, ordered: seq<Canonical>) returns (groups: map<RequirementKey, seq<nat>>, order: seq<RequirementKey>)
    ensures Grouped(lex, ordered, |ordered|, groups, order)
  {
    hide Grouped, Ready, Grown, Identity;
    groups, order := map[], [];
    NothingGrouped(lex, ordered);
    for i := 0 to |ordered|
      invariant Grouped(lex, ordered, i, groups, order)
    {
      if Ready(ordered[i]) {
        GroupedOneMore(lex, ordered, i, groups, order);
        assert ordered[i].kind.Some? by { ReadyHasKind(ordered[i]); }
        var id := IdentityOf(lex, ordered[i]);
        if id !in groups {
          order := order + [id];
        }
        groups := Grown(groups, id, i);
      } else {
        GroupedSkips(lex, ordered, i, groups, order);
      }
    }
  }

  lemma {:induction false} ReadyHasKind(c: Canonical)
    requires Ready(c)
    ensures c.kind.Some?
  {
  }

  /** The first `m` groups are settled, and the count stands at the start of the next one. */
  ghost predicate SettledTo(
      lex: Lexicon, ordered: seq<Canonical>, groups: map<RequirementKey, seq<nat>>, order: seq<RequirementKey>, m: nat,
      result: seq<Canonical>, number: nat)
  {
    && m <= |order| && |result| == |ordered|
    && (m < |order| ==> order[m] in groups && groups[order[m]] != [])
    && GroupStart(ordered, groups, order, m) <= |ordered|
    && number == ConflictsBefore(lex, ordered, GroupStart(ordered, groups, order, m))
    && forall i :: 0 <= i < |ordered| ==>
         result[i] == if InSome(lex, ordered[i], order[..m]) then Collided(lex, ordered)[i] else ordered[i]
  }

  lemma {:induction false} NothingSettled(
      lex: Lexicon, ordered: seq<Canonical>, groups: map<RequirementKey, seq<nat>>, order: seq<RequirementKey>)
    requires Grouped(lex, ordered, |ordered|, groups, order)
    ensures SettledTo(lex, ordered, groups, order, 0, ordered, 0)
  {
    hide Grouped, IsLeader, Collided, Has;
    FirstGroup(lex, ordered, groups, order);
    NoLeaderBetween(lex, ordered, 0, GroupStart(ordered, groups, order, 0));
  }

  lemma {:induction false} SettledOneMore(
      lex: Lexicon, ordered: seq<Canonical>, groups: map<RequirementKey, seq<nat>>, order: seq<RequirementKey>, m: nat,
      before: seq<Canonical>, result: seq<Canonical>, number: nat, next: nat)
    requires SettledTo(lex, ordered, groups, order, m, before, number) && m < |order|
    requires AreMembers(lex, ordered, groups[order[m]], order[m])
    requires m + 1 < |order| ==> order[m + 1] in groups && groups[order[m + 1]] != []
    requires GroupStart(ordered, groups, order, m + 1) <= |ordered|
    requires next == ConflictsBefore(lex, ordered, GroupStart(ordered, groups, order, m + 1))
    requires |result| == |ordered|
    requires forall i :: 0 <= i < |ordered| ==> result[i] == if i in groups[order[m]] then Collided(lex, ordered)[i] else before[i]
    ensures SettledTo(lex, ordered, groups, order, m + 1, result, next)
  {
    hide Has, Collided, AllReady;
    assert order[..m + 1] == order[..m] + [order[m]];
    forall i | 0 <= i < |ordered|
      ensures InSome(lex, ordered[i], order[..m + 1]) <==> InSome(lex, ordered[i], order[..m]) || i in groups[order[m]]
    {
      if k :| 0 <= k < m && Has(lex, ordered[i], order[..m][k]) {
        assert Has(lex, ordered[i], order[..m + 1][k]);
      }
      assert i in groups[order[m]] <==> Has(lex, ordered[i], order[..m + 1][m]);
    }
  }

  /** `_apply_collision_policy`. */
  method ApplyCollisionPolicy(lex: Lexicon, ordered: seq<Canonical>) returns (result: seq<Canonical>)
    ensures result == Collided(lex, ordered)
  {
    hide Grouped, Collided, Ready, Has, SettledTo, AreMembers, GroupStart, ConflictsBefore;
    var groups, order := GroupByRequirement(lex, ordered);
    result := ordered;
    var conflictNumber := 0;
    NothingSettled(lex, ordered, groups, order);
    for m := 0 to |order|
      invariant SettledTo(lex, ordered, groups, order, m, result, conflictNumber)
    {
      SettledSoFar(lex, ordered, groups, order, m, result, conflictNumber);
      ghost var before, number := result, conflictNumber;
      conflictNumber, result := CollideGroup(lex, ordered, groups, order, m, result, groups[order[m]], conflictNumber);
      SettledOneMore(lex, ordered, groups, order, m, before, result, number, conflictNumber);
    }
    AllSettled(lex, ordered, groups, order, result, conflictNumber);
  }

  /** What the next group may rely on: it is still as it was. */
  lemma {:induction false} SettledSoFar(
      lex: Lexicon, ordered: seq<Canonical>, groups: map<RequirementKey, seq<nat>>, order: seq<RequirementKey>, m: nat,
      result: seq<Canonical>, number: nat)
    requires Grouped(lex, ordered, |ordered|, groups, order) && m < |order| && SettledTo(lex, ordered, groups, order, m, result, number)
    ensures order[m] in groups && groups[order[m]] != [] && AreMembers(lex, ordered, groups[order[m]], order[m])
    ensures |result| == |ordered| && groups[order[m]][0] < |ordered| && number == ConflictsBefore(lex, ordered, groups[order[m]][0])
    ensures forall k :: k in groups[order[m]] ==> k < |ordered| && result[k] == ordered[k]
  {
    MembersHave(lex, ordered, groups, order, order[m]);
    GroupIsUntouched(lex, ordered, groups, order, m);
    hide Grouped, Collided, Has;
    assert groups[order[m]][0] in groups[order[m]];
  }

  lemma {:induction false} AllSettled(
      lex: Lexicon, ordered: seq<Canonical>, groups: map<RequirementKey, seq<nat>>, order: seq<RequirementKey>,
      result: seq<Canonical>, number: nat)
    requires Grouped(lex, ordered, |ordered|, groups, order) && SettledTo(lex, ordered, groups, order, |order|, result, number)
    ensures result == Collided(lex, ordered)
  {
    EverySpanGrouped(lex, ordered, groups, order);
    hide Grouped, InSome, InConflict, GroupStart;
    assert order[..|order|] == order;
  }

  predicate InSome(lex: Lexicon, c: Canonical, order: seq<RequirementKey>) {
    exists k :: 0 <= k < |order| && Has(lex, c, order[k])
  }

  lemma {:induction false} GroupIsUntouched(
      lex: Lexicon, ordered: seq<Canonical>, groups: map<RequirementKey, seq<nat>>, order: seq<RequirementKey>, m: nat)
    requires Grouped(lex, ordered, |ordered|, groups, order) && m < |order|
    ensures forall i :: 0 <= i < |ordered| && Has(lex, ordered[i], order[m]) ==> !InSome(lex, ordered[i], order[..m])
  {
    forall k | 0 <= k < m
      ensures order[k] != order[m]
    {
      assert groups[order[k]][0] < groups[order[m]][0];
    }
  }

  lemma {:induction false} EverySpanGrouped(
      lex: Lexicon, ordered: seq<Canonical>, groups: map<RequirementKey, seq<nat>>, order: seq<RequirementKey>)
    requires Grouped(lex, ordered, |ordered|, groups, order)
    ensures forall i :: 0 <= i < |ordered| ==> InSome(lex, ordered[i], order) || Collided(lex, ordered)[i] == ordered[i]
  {
    forall i | 0 <= i < |ordered| && Ready(ordered[i])
      ensures InSome(lex, ordered[i], order)
    {
      var id := IdentityOf(lex, ordered[i]);
      assert InIdentity(groups, id, i);
      var k :| 0 <= k < |order| && order[k] == id;
      assert Has(lex, ordered[i], order[k]);
    }
  }

  lemma {:induction false} MembersHave(
      lex: Lexicon, ordered: seq<Canonical>, groups: map<RequirementKey, seq<nat>>, order: seq<RequirementKey>,
      id: RequirementKey)
    requires Grouped(lex, ordered, |ordered|, groups, order) && id in groups
    ensures groups[id] != [] && AreMembers(lex, ordered, groups[id], id)
  {
    forall k: nat
      ensures k in groups[id] <==> k < |ordered| && Has(lex, ordered[k], id)
    {
      assert k in groups[id] <==> InIdentity(groups, id, k);
    }
  }

  /** One requirement: nothing happens to exact duplicates; otherwise every one of its spans becomes a conflict. */
  method CollideGroup(
      lex: Lexicon, ordered: seq<Canonical>, ghost groups: map<RequirementKey, seq<nat>>, ghost order: seq<RequirementKey>, ghost m: nat,
      start: seq<Canonical>, indices: seq<nat>, number: nat) returns (next: nat, result: seq<Canonical>)
    requires Grouped(lex, ordered, |ordered|, groups, order) && m < |order| && order[m] in groups && indices == groups[order[m]]
    requires indices != [] && AreMembers(lex, ordered, indices, order[m])
    requires |start| == |ordered| && number == ConflictsBefore(lex, ordered, indices[0])
    requires forall k :: k in indices ==> k < |ordered| && start[k] == ordered[k]
    ensures m + 1 < |order| ==> order[m + 1] in groups && groups[order[m + 1]] != []
    ensures GroupStart(ordered, groups, order, m + 1) <= |ordered|
    ensures next == ConflictsBefore(lex, ordered, GroupStart(ordered, groups, order, m + 1))
    ensures |result| == |ordered|
    ensures forall i :: 0 <= i < |ordered| ==> result[i] == if i in indices then Collided(lex, ordered)[i] else start[i]
  {
    hide Grouped, InConflict, Collided, Conflicting, GroupStart, ConflictsBefore, AreMembers, AllReady, GroupParameters;
    assert AllReady(ordered, indices) by { MembersAreReady(lex, ordered, indices, order[m]); }
    assert indices[0] in indices;
    var parameters := GroupParameters(ordered, indices);
    GroupConflict(lex, ordered, indices, order[m]);
    NextNumber(lex, ordered, groups, order, m);
    next, result := number, start;
    if |indices| < 2 || |parameters| == 1 {
      return;
    }
    next := next + 1;
    result := MarkConflict(ordered, start, indices, next);
  }

  lemma {:induction false} MembersAreReady(lex: Lexicon, ordered: seq<Canonical>, indices: seq<nat>, id: RequirementKey)
    requires AreMembers(lex, ordered, indices, id)
    ensures AllReady(ordered, indices)
  {
  }

  method MarkConflict(
      ordered: seq<Canonical>, start: seq<Canonical>, indices: seq<nat>, number: nat) returns (result: seq<Canonical>)
    requires |start| == |ordered| && forall k :: k in indices ==> k < |ordered|
    ensures |result| == |ordered|
    ensures forall i :: 0 <= i < |ordered| ==> result[i] == if i in indices then Conflicting(ordered[i], number) else start[i]
  {
    result := start;
    for n := 0 to |indices|
      invariant |result| == |ordered|
      invariant forall i :: 0 <= i < |ordered| ==> result[i] == if i in indices[..n] then Conflicting(ordered[i], number) else start[i]
    {
      assert indices[n] in indices;
      assert indices[..n + 1] == indices[..n] + [indices[n]];
      result := result[indices[n] := Conflicting(ordered[indices[n]], number)];
    }
    assert indices[..|indices|] == indices;
  }

  /** The count steps by one exactly when the group is in conflict, and then it is the members' number. */
  lemma {:induction false} NextNumber(
      lex: Lexicon, ordered: seq<Canonical>, groups: map<RequirementKey, seq<nat>>, order: seq<RequirementKey>, m: nat)
    requires Grouped(lex, ordered, |ordered|, groups, order) && m < |order| && order[m] in groups
    ensures groups[order[m]] != [] && (m + 1 < |order| ==> order[m + 1] in groups && groups[order[m + 1]] != [])
    ensures GroupStart(ordered, groups, order, m + 1) <= |ordered|
    ensures var first := groups[order[m]][0];
      first < |ordered| &&
      ConflictsBefore(lex, ordered, GroupStart(ordered, groups, order, m + 1)) ==
      ConflictsBefore(lex, ordered, first) + (if InConflict(lex, ordered, first) then 1 else 0)
    ensures forall k: nat :: k in groups[order[m]] ==>
      (k < |ordered| &&
       Collided(lex, ordered)[k] ==
         if InConflict(lex, ordered, k) then Conflicting(ordered[k], ConflictsBefore(lex, ordered, groups[order[m]][0]) + 1) else ordered[k])
  {
    hide InConflict, Collided, Has, Conflicting;
    GroupBounds(lex, ordered, groups, order, m);
    hide IsLeader, ConflictsBefore;
    MembersHave(lex, ordered, groups, order, order[m]);
    NextGroup(lex, ordered, groups, order, m);
    var first := groups[order[m]][0];
    hide Grouped, AreMembers;
    CountLeader(lex, ordered, first);
    NoLeaderBetween(lex, ordered, first + 1, GroupStart(ordered, groups, order, m + 1));
    MembersNumbered(lex, ordered, groups[order[m]], order[m]);
  }

  lemma {:induction false} GroupBounds(
      lex: Lexicon, ordered: seq<Canonical>, groups: map<RequirementKey, seq<nat>>, order: seq<RequirementKey>, m: nat)
    requires Grouped(lex, ordered, |ordered|, groups, order) && m < |order|
    ensures order[m] in groups && groups[order[m]] != [] && (m + 1 < |order| ==> order[m + 1] in groups && groups[order[m + 1]] != [])
    ensures groups[order[m]][0] < |ordered| && IsLeader(lex, ordered, groups[order[m]][0])
    ensures groups[order[m]][0] < GroupStart(ordered, groups, order, m + 1) <= |ordered|
  {
    hide Has, InIdentity, IsLeader;
    assert order[m] in groups;
    assert m + 1 < |order| ==> order[m + 1] in groups;
  }

  lemma {:induction false} CountLeader(lex: Lexicon, ordered: seq<Canonical>, l: nat)
    requires l < |ordered| && IsLeader(lex, ordered, l)
    ensures ConflictsBefore(lex, ordered, l + 1) == ConflictsBefore(lex, ordered, l) + (if InConflict(lex, ordered, l) then 1 else 0)
  {
  }

  lemma {:induction false} MembersNumbered(lex: Lexicon, ordered: seq<Canonical>, indices: seq<nat>, id: RequirementKey)
    requires indices != [] && AreMembers(lex, ordered, indices, id) && indices[0] < |ordered| && IsLeader(lex, ordered, indices[0])
    ensures forall k: nat :: k in indices ==>
      (k < |ordered| &&
       Collided(lex, ordered)[k] ==
         if InConflict(lex, ordered, k) then Conflicting(ordered[k], ConflictsBefore(lex, ordered, indices[0]) + 1) else ordered[k])
  {
    hide InConflict, Collided, Has, Conflicting, IsLeader, ConflictsBefore;
    assert indices[0] in indices;
    forall k: nat | k in indices
      ensures k < |ordered| &&
        Collided(lex, ordered)[k] ==
          if InConflict(lex, ordered, k) then Conflicting(ordered[k], ConflictsBefore(lex, ordered, indices[0]) + 1) else ordered[k]
    {
      MemberNumber(lex, ordered, id, indices[0], k);
    }
  }

  lemma {:induction false} LeaderOfMember(lex: Lexicon, ordered: seq<Canonical>, id: RequirementKey, first: nat, k: nat)
    requires first < |ordered| && IsLeader(lex, ordered, first) && Has(lex, ordered[first], id)
    requires k < |ordered| && Has(lex, ordered[k], id)
    ensures Ready(ordered[k]) && LeaderOf(lex, ordered, k) == first && SameRequirement(lex, ordered[k], ordered[first])
  {
    LeaderIsUnique(lex, ordered, LeaderOf(lex, ordered, k), first);
  }

  lemma {:induction false} MemberNumber(lex: Lexicon, ordered: seq<Canonical>, id: RequirementKey, first: nat, k: nat)
    requires first < |ordered| && IsLeader(lex, ordered, first) && Has(lex, ordered[first], id)
    requires k < |ordered| && Has(lex, ordered[k], id)
    ensures Collided(lex, ordered)[k] ==
      if InConflict(lex, ordered, k) then Conflicting(ordered[k], ConflictsBefore(lex, ordered, first) + 1) else ordered[k]
  {
    hide Has, InConflict, IsLeader, SameRequirement, Ready, Conflicting;
    LeaderOfMember(lex, ordered, id, first, k);
    if InConflict(lex, ordered, k) {
      ConflictShared(lex, ordered, k, first);
      assert ConflictsBefore(lex, ordered, first + 1) == ConflictsBefore(lex, ordered, first) + 1;
      assert ConflictNumber(lex, ordered, k) == ConflictsBefore(lex, ordered, first) + 1;
    }
  }

  /** If one span of a requirement is in conflict, all of them are. */
  lemma {:induction false} ConflictShared(lex: Lexicon, ordered: seq<Canonical>, i: nat, j: nat)
    requires i < |ordered| && j < |ordered| && SameRequirement(lex, ordered[i], ordered[j]) && InConflict(lex, ordered, i)
    ensures InConflict(lex, ordered, j)
  {
    var k :| 0 <= k < |ordered| && SameRequirement(lex, ordered[i], ordered[k]) && ParametersOf(ordered[i]) != ParametersOf(ordered[k]);
    assert SameRequirement(lex, ordered[j], ordered[i]) && SameRequirement(lex, ordered[j], ordered[k]);
  }
}
