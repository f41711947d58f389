/** What canonicalization promises, whatever the model proposed. */
module CanonicalProperties {
  import opened Wrappers
  import opened Sequences
  import opened CoreText
  import opened DraftSchemas
  import opened SemanticProvenance
  import opened DraftInvariant
  import opened CanonicalRequirements

  /** `canonicalize_requirements`. */
  method CanonicalizeRequirements(
      lex: Lexicon, units: seq<SourceUnit>, proposals: seq<Proposal>) returns (r: seq<Canonical>)
    ensures r == Canonicalize(lex, units, proposals)
  {
    hide Interpreted, ForSpan, Symmetric, Collided;
    var bySpan := Bucketed(units, proposals);
    var results: seq<Canonical> := [];
    for i := 0 to |units|
      invariant |results| == i
      invariant forall k :: 0 <= k < i ==> results[k] == Interpreted(lex, units[k], k, ForSpan(proposals, k))
    {
      var one := Interpret(lex, units[i], i, if i in bySpan then bySpan[i] else []);
      results := results + [one];
    }
    assert results == PerSpan(lex, units, proposals);
    results := ApplySymmetry(units, results);
    r := ApplyCollisionPolicy(lex, results);
  }

  // ------------------------------------------------------------------ what a proposal cannot do

  predicate SafetyState(state: SpanState) {
    state == Prohibited || state == Unsupported
  }

  /** Everything but the subject and its consequences is the deterministic reading's. */
  predicate SameReading(a: Canonical, b: Canonical) {
    && a.spanId == b.spanId && a.kind == b.kind && a.modality == b.modality && a.years == b.years && a.level == b.level
    && (SafetyState(a.state) <==> SafetyState(b.state)) && (SafetyState(a.state) ==> a.state == b.state)
  }

  lemma {:induction false} LiftingKeepsTheReading(lex: Lexicon, u: SourceUnit, s: SpanId, candidates: seq<Proposal>)
    ensures SameReading(Interpreted(lex, u, s, candidates), FromSemantic(lex, u, s))
  {
  }

  lemma {:induction false} PassesKeepTheReading(lex: Lexicon, units: seq<SourceUnit>, start: seq<Canonical>, i: nat)
    requires |start| == |units| && i < |units|
    ensures SameReading(Collided(lex, Symmetric(units, start))[i], start[i])
  {
    hide Symmetric, SideUnsettled, Collided;
    var symmetric := Symmetric(units, start);
    CollisionKeepsTheReading(lex, symmetric, i);
  }

  lemma {:induction false} CollisionKeepsTheReading(lex: Lexicon, ordered: seq<Canonical>, i: nat)
    requires i < |ordered|
    ensures SameReading(Collided(lex, ordered)[i], ordered[i])
  {
  }

  /**
   For any two proposal lists the results agree on order, kind, modality, duration and level, and on
   exactly which spans are prohibited or unsupported.
   */
  lemma {:induction false} ProposalsOnlySettleSubjects(
      lex: Lexicon, units: seq<SourceUnit>, p: seq<Proposal>, q: seq<Proposal>, i: nat)
    requires i < |units|
    ensures SameReading(Canonicalize(lex, units, p)[i], Canonicalize(lex, units, q)[i])
  {
    LiftingKeepsTheReading(lex, units[i], i, ForSpan(p, i));
    LiftingKeepsTheReading(lex, units[i], i, ForSpan(q, i));
    PassesKeepTheReading(lex, units, PerSpan(lex, units, p), i);
    PassesKeepTheReading(lex, units, PerSpan(lex, units, q), i);
    hide Interpreted, FromSemantic, Collided, Symmetric, ForSpan;
  }

  // ------------------------------------------------------------------ collisions

  lemma {:induction false} ReadyAfterCollision(lex: Lexicon, ordered: seq<Canonical>, i: nat)
    requires i < |ordered|
    ensures Ready(Collided(lex, ordered)[i]) <==> Ready(ordered[i]) && !InConflict(lex, ordered, i)
    ensures Ready(Collided(lex, ordered)[i]) ==> Collided(lex, ordered)[i] == ordered[i]
  {
  }

  /** After the pass, each requirement that is still scorable has one parameter set. */
  lemma {:induction false} OneParameterSet(lex: Lexicon, ordered: seq<Canonical>, i: nat, j: nat)
    requires i < |ordered| && j < |ordered|
    requires SameRequirement(lex, Collided(lex, ordered)[i], Collided(lex, ordered)[j])
    ensures ParametersOf(Collided(lex, ordered)[i]) == ParametersOf(Collided(lex, ordered)[j])
  {
    ReadyAfterCollision(lex, ordered, i);
    ReadyAfterCollision(lex, ordered, j);
  }

  /** A second collision pass changes nothing. */
  lemma {:induction false} CollisionIsIdempotent(lex: Lexicon, ordered: seq<Canonical>)
    ensures Collided(lex, Collided(lex, ordered)) == Collided(lex, ordered)
  {
    var once := Collided(lex, ordered);
    forall i | 0 <= i < |once|
      ensures !InConflict(lex, once, i)
    {
      forall j | 0 <= j < |once| && SameRequirement(lex, once[i], once[j])
        ensures ParametersOf(once[i]) == ParametersOf(once[j])
      {
        OneParameterSet(lex, ordered, i, j);
      }
    }
  }

  lemma {:induction false} ConflictsGrow(lex: Lexicon, ordered: seq<Canonical>, a: nat, b: nat)
    requires a <= b <= |ordered|
    ensures ConflictsBefore(lex, ordered, a) <= ConflictsBefore(lex, ordered, b)
  {
    if a < b {
      ConflictsGrow(lex, ordered, a, b - 1);
    }
  }

  lemma {:induction false} LeaderConflicts(lex: Lexicon, ordered: seq<Canonical>, i: nat)
    requires i < |ordered| && Ready(ordered[i]) && InConflict(lex, ordered, i)
    ensures var l := LeaderOf(lex, ordered, i); IsLeader(lex, ordered, l) && InConflict(lex, ordered, l) && SameRequirement(lex, ordered[i], ordered[l])
  {
    ConflictShared(lex, ordered, i, LeaderOf(lex, ordered, i));
  }

  /** Two conflicting spans carry the same number exactly when they state the same requirement. */
  lemma {:induction false} ConflictNumbersAreRequirements(lex: Lexicon, ordered: seq<Canonical>, i: nat, j: nat)
    requires i < |ordered| && j < |ordered| && InConflict(lex, ordered, i) && InConflict(lex, ordered, j)
    ensures Ready(ordered[i]) && Ready(ordered[j])
    ensures ConflictNumber(lex, ordered, i) == ConflictNumber(lex, ordered, j) <==> SameRequirement(lex, ordered[i], ordered[j])
  {
    LeaderConflicts(lex, ordered, i);
    LeaderConflicts(lex, ordered, j);
    var a, b := LeaderOf(lex, ordered, i), LeaderOf(lex, ordered, j);
    if SameRequirement(lex, ordered[i], ordered[j]) {
      LeaderIsUnique(lex, ordered, a, b);
    } else if a < b {
      ConflictsGrow(lex, ordered, a + 1, b);
    } else if b < a {
      ConflictsGrow(lex, ordered, b + 1, a);
    }
  }

  // ------------------------------------------------------------------ coordinated clauses

  predicate SameClause(units: seq<SourceUnit>, i: nat, j: nat) {
    i < |units| && j < |units| && units[i].group.Some? && units[i].group == units[j].group
  }

  /** Before the collision pass, the sides of a clause are all scorable or none is. */
  lemma {:induction false} SidesShareAuthority(units: seq<SourceUnit>, start: seq<Canonical>, i: nat, j: nat)
    requires |start| == |units| && SameClause(units, i, j)
    ensures Symmetric(units, start)[i].state == Scorable ==> Symmetric(units, start)[j].state != NeedsReview
  {
    assert SideUnsettled(units, start, j) ==> SideUnsettled(units, start, i);
  }

  /**
   In the end a clause is uneven exactly when a semantic conflict took one side and spared the other;
   nothing else can make it so.
   */
  lemma {:induction false} UnevenExactlyByConflict(
      lex: Lexicon, units: seq<SourceUnit>, proposals: seq<Proposal>, i: nat, j: nat)
    requires SameClause(units, i, j)
    ensures var r := Canonicalize(lex, units, proposals);
      var symmetric := Symmetric(units, PerSpan(lex, units, proposals));
      && (r[i].state == Scorable && r[j].state == NeedsReview <==>
          symmetric[i].state == Scorable && !InConflict(lex, symmetric, i) && InConflict(lex, symmetric, j))
      && (r[i].state == Scorable && r[j].state == NeedsReview ==> r[j].reason == Some(SemanticConflict))
  {
    var symmetric := Symmetric(units, PerSpan(lex, units, proposals));
    SidesShareAuthority(units, PerSpan(lex, units, proposals), i, j);
    hide Symmetric, PerSpan, SideUnsettled;
    CollisionStates(lex, symmetric, i);
    CollisionStates(lex, symmetric, j);
    hide Collided;
  }

  lemma {:induction false} CollisionStates(lex: Lexicon, ordered: seq<Canonical>, i: nat)
    requires i < |ordered|
    ensures Collided(lex, ordered)[i].state == if InConflict(lex, ordered, i) then NeedsReview else ordered[i].state
    ensures InConflict(lex, ordered, i) ==> Collided(lex, ordered)[i].reason == Some(SemanticConflict) && ordered[i].state == Scorable
  {
  }
}
