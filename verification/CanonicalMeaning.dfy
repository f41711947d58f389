/**
 What one span becomes, said of the span and the proposals for it: when it is scored, what stands behind
 its subject, and what a model may add.
 */
module CanonicalMeaning {
  import opened Wrappers
  import opened Sequences
  import opened CoreText
  import opened DraftSchemas
  import opened CanonicalRequirements

  /** The span or the subject found in it contains a prohibited term. */
  predicate Forbidden(lex: Lexicon, u: SourceUnit) {
    Prohibits(lex, u.text) || (u.subject.Some? && Prohibits(lex, u.subject.value))
  }

  /** The source's own subject is a canonical term of the span's family; general experience needs none. */
  predicate SubjectStands(lex: Lexicon, u: SourceUnit) {
    u.family.Some? && IsCanonicalSubject(lex, u.family.value, u.subject)
  }

  /** Only a subject is missing or not canonical, so a proposal may supply it. */
  predicate AwaitsSubject(lex: Lexicon, u: SourceUnit) {
    && !Forbidden(lex, u)
    && ((u.state == Scorable && !SubjectStands(lex, u))
        || (u.state == NeedsReview && (u.reason == Some(SubjectNotCanonical) || u.reason == Some(RecruitmentSubjectWithoutCue))))
  }

  /** The proposal restates the span exactly, names a canonical, permitted subject, and the span mentions it. */
  predicate Vouches(lex: Lexicon, u: SourceUnit, p: Proposal) {
    var subject := JoinWords(p.requirement);
    && u.family == Some(p.kind) && p.kind != Other
    && p.years == u.years && NormalizedLevel(p.level) == NormalizedLevel(u.level)
    && (p.level.Some? ==> lex.cefrOrSameLevel(p.level.value, u.level))
    && !Prohibits(lex, subject) && !Prohibits(lex, u.text)
    && (u.subjectText.Some? ==> !lex.scopeQualified(u.subjectText.value))
    && IsCanonicalSubject(lex, p.kind, Some(subject))
    && (p.kind == Experience || lex.groundedIn(p.kind, subject, u.text))
  }

  function Shown(lex: Lexicon, p: Proposal): string {
    lex.canonicalDisplay(p.kind, JoinWords(p.requirement))
  }

  /** Some proposal vouches, and all that do mean one subject. */
  predicate Agreed(lex: Lexicon, u: SourceUnit, candidates: seq<Proposal>) {
    && (exists p :: p in candidates && Vouches(lex, u, p))
    && forall p, q :: p in candidates && q in candidates && Vouches(lex, u, p) && Vouches(lex, u, q) ==>
         lex.subjectKey(Shown(lex, p)) == lex.subjectKey(Shown(lex, q))
  }

  lemma {:induction false} VouchingIsValid(lex: Lexicon, u: SourceUnit, p: Proposal)
    ensures ValidateProposal(lex, p, u).Ok? <==> Vouches(lex, u, p)
    ensures ValidateProposal(lex, p, u).Ok? ==> ValidateProposal(lex, p, u).value == Shown(lex, p)
  {
  }

  lemma {:induction false} AgreedIsOneSubject(lex: Lexicon, u: SourceUnit, candidates: seq<Proposal>)
    ensures var valid := Valid(lex, u, candidates);
      && (OneSubject(lex, u, valid) <==> Agreed(lex, u, candidates))
      && (OneSubject(lex, u, valid) ==>
            valid[0] in candidates && Vouches(lex, u, valid[0]) && DisplayOf(lex, u, valid[0]) == Shown(lex, valid[0]))
  {
    var valid := Valid(lex, u, candidates);
    forall p ensures p in valid <==> p in candidates && Vouches(lex, u, p) { VouchingIsValid(lex, u, p); }
    forall p | p in valid ensures DisplayOf(lex, u, p) == Shown(lex, p) { VouchingIsValid(lex, u, p); }
    hide Valid, Vouches, DisplayOf, Shown;
    if valid != [] { assert valid[0] in valid; }
    if p :| p in candidates && Vouches(lex, u, p) { assert p in valid; }
    if OneSubject(lex, u, valid) {
      forall p, q | p in candidates && q in candidates && Vouches(lex, u, p) && Vouches(lex, u, q)
        ensures lex.subjectKey(Shown(lex, p)) == lex.subjectKey(Shown(lex, q))
      {
        assert p in valid && q in valid;
      }
    }
  }

  /** Span `u` was lifted by the proposals: they supply the one thing that was missing. */
  predicate IsLifted(lex: Lexicon, u: SourceUnit, candidates: seq<Proposal>) {
    AwaitsSubject(lex, u) && Agreed(lex, u, candidates)
  }

  /** The span's source alone puts it in full order but for its type. */
  predicate OnlyTypeMissing(lex: Lexicon, u: SourceUnit) {
    && !Forbidden(lex, u) && u.state == NeedsReview && u.reason == Some(ModalityUnknown)
    && SubjectStands(lex, u) && u.family.value != Other
  }

  /** The reading of one span, decided by the span and the proposals for it. */
  predicate ReadsAs(lex: Lexicon, u: SourceUnit, candidates: seq<Proposal>, c: Canonical) {
    var lifted := IsLifted(lex, u, candidates);
    && (c.state == Prohibited <==> Forbidden(lex, u) || u.state == Prohibited)
    && (c.state == Unsupported <==> !Forbidden(lex, u) && u.state == Unsupported)
    && (c.state == Scorable <==>
          !Forbidden(lex, u) && ((u.state == Scorable && SubjectStands(lex, u)) || (lifted && u.modality.Some?)))
    && (c.source == Some(ModelValidated) <==> lifted)
    && (c.source == Some(Deterministic) <==> !lifted && (c.state == Scorable || OnlyTypeMissing(lex, u)))
    && (c.shape <==> lifted || (c.state == Scorable && u.family != Some(Other)) || OnlyTypeMissing(lex, u))
    && (lifted ==> exists p :: p in candidates && Vouches(lex, u, p) && c.subject == Some(Shown(lex, p)))
    && (!lifted ==> c.subject == if c.state != Prohibited && HasText(u.subject) then u.subject else None)
    && c.reason == (if c.state != NeedsReview then None
                    else if lifted then Some(ModalityUnknown)
                    else if u.state == Scorable then Some(SubjectNotCanonical)
                    else u.reason)
    && c.modality == u.modality && c.years == u.years && c.level == u.level
    && c.kind == (if c.state == Prohibited then None else u.family)
  }

  lemma {:induction false} ReadingIsExact(lex: Lexicon, u: SourceUnit, s: SpanId, candidates: seq<Proposal>)
    requires u.state == Scorable ==> u.family.Some?
    ensures ReadsAs(lex, u, candidates, Interpreted(lex, u, s, candidates))
  {
    AgreedIsOneSubject(lex, u, candidates);
    hide Agreed, OneSubject, Vouches, DisplayOf, Shown, Prohibits, IsCanonicalSubject, Valid;
  }

  // ------------------------------------------------------------------ after the passes

  /**
   Whatever the proposals: a span that ends scorable contains nothing prohibited, states its type, and has
   a subject that is canonical in the source or that a proposal for this very span vouches for.
   */
  lemma {:induction false} ScoredStandsOnTheSource(
      lex: Lexicon, units: seq<SourceUnit>, proposals: seq<Proposal>, i: nat)
    requires i < |units| && (units[i].state == Scorable ==> units[i].family.Some? && units[i].modality.Some?)
    requires Canonicalize(lex, units, proposals)[i].state == Scorable
    ensures var u, c := units[i], Canonicalize(lex, units, proposals)[i];
      && !Forbidden(lex, u) && u.modality.Some? && c.modality == u.modality
      && (c.source == Some(ModelValidated) ==>
            exists p :: p in proposals && p.spanId == i && Vouches(lex, u, p) && c.subject == Some(Shown(lex, p)))
      && (c.source != Some(ModelValidated) ==>
            SubjectStands(lex, u) && c.source == Some(Deterministic) && c.subject == if HasText(u.subject) then u.subject else None)
  {
    ReadingIsExact(lex, units[i], i, ForSpan(proposals, i));
    hide Interpreted, Vouches, Shown, Forbidden, SubjectStands, Agreed, SideUnsettled, InConflict, OnlyTypeMissing;
    var c := Canonicalize(lex, units, proposals)[i];
    assert c == Interpreted(lex, units[i], i, ForSpan(proposals, i));
  }

  /** Why a span waits: its own reason, an unsettled side of its clause, or a contradiction elsewhere. */
  lemma {:induction false} WaitingHasOneReason(lex: Lexicon, units: seq<SourceUnit>, proposals: seq<Proposal>, i: nat)
    requires i < |units|
    ensures var own := Interpreted(lex, units[i], i, ForSpan(proposals, i));
      var c := Canonicalize(lex, units, proposals)[i];
      var symmetric := Symmetric(units, PerSpan(lex, units, proposals));
      c.state == NeedsReview ==>
        || (c == own)
        || (own.state == Scorable && c == own.(state := NeedsReview, source := None, reason := Some(CoordinationSymmetry), shape := false)
              && exists j :: 0 <= j < |units| && j != i && units[j].group.Some? && units[j].group == units[i].group
                   && PerSpan(lex, units, proposals)[j].state == NeedsReview)
        || (own.state == Scorable && c.conflict.Some? && c == own.(state := NeedsReview, reason := Some(SemanticConflict), conflict := c.conflict)
              && exists j :: 0 <= j < |units| && j != i && SameRequirement(lex, symmetric[i], symmetric[j])
                   && ParametersOf(symmetric[i]) != ParametersOf(symmetric[j]))
  {
    hide Interpreted, ForSpan;
  }
}
