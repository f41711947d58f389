/** What holds of every interleaving of turns, draft actions, revocations, expiries and crashes. */
module TurnGuarantees {
  import opened Wrappers
  import opened TurnStore
  import opened TurnProtocol

  ghost function RunFrom(startedAt: int, ttl: nat, steps: seq<Step>): System {
    RunAll(Initial(startedAt, ttl), steps)
  }

  lemma {:induction false} EveryRunIsSound(startedAt: int, ttl: nat, steps: seq<Step>)
    ensures Inv(RunFrom(startedAt, ttl, steps))
  {
    InitialOk(startedAt, ttl);
    RunKeepsInv(Initial(startedAt, ttl), steps);
  }

  lemma {:induction false} RunSplits(sys: System, first: seq<Step>, rest: seq<Step>)
    ensures RunAll(sys, first + rest) == RunAll(RunAll(sys, first), rest)
  {
    if rest == [] {
      assert first + rest == first;
    } else {
      assert (first + rest)[..|first + rest| - 1] == first + rest[..|rest| - 1];
      RunSplits(sys, first, rest[..|rest| - 1]);
    }
  }

  // ------------------------------------------------------------------ snapshot serializability

  /**
   In every run the transcript is what the writes produce one after the other, and each committed turn
   had read exactly the transcript that the writes before it produced.
   */
  lemma {:induction false} TurnsAreSerializable(startedAt: int, ttl: nat, steps: seq<Step>)
    ensures var sys := RunFrom(startedAt, ttl, steps);
      && sys.st.turns == Transcript(sys.log)
      && forall i :: 0 <= i < |sys.log| && sys.log[i].TurnWrite? ==> sys.log[i].seen == Transcript(sys.log[..i])
  {
    EveryRunIsSound(startedAt, ttl, steps);
    hide RunAll, Transcript, TokensOk, SubmissionsOk, DraftsOk, ConfirmationsOk, LeaseOk;
    var sys := RunFrom(startedAt, ttl, steps);
    forall i | 0 <= i < |sys.log| && sys.log[i].TurnWrite?
      ensures sys.log[i].seen == Transcript(sys.log[..i])
    {
      assert WriteSerial(sys.log, i);
    }
  }

  predicate Commits(sys: System, token: Token, o: Outcome) {
    token in sys.flights && var f := sys.flights[token]; CommitPhaseB(sys.st, f.r, f.submission, f.request, o).Ok?
  }

  /** A commit appends the turn's pair to exactly the transcript the turn was reserved on. */
  lemma {:induction false} CommitAppendsToItsSnapshot(sys: System, token: Token, o: Outcome)
    requires Inv(sys) && Commits(sys, token, o)
    ensures var f := sys.flights[token];
      && f.snapshot == sys.st.turns
      && Next(sys, Finish(token, o)).st.turns == Bounded(f.snapshot + Pair(f.r, o, sys.st.nextId))
      && Next(sys, Finish(token, o)).st.version > sys.st.version
  {
    CommitSawEverything(sys, token, o);
  }

  /** A submission that its own session may still claim: in time, not answered, not in use, and said once. */
  predicate Claimable(st: Store, session: Session, submission: SubmissionId, request: string) {
    && submission in st.submissions
    && var row := st.submissions[submission];
    && row.session == session && row.expiresAt > st.now && (row.request.Some? ==> row.request.value == request)
    && (row.status == Issued || (row.status == Processing && (row.lease.Some? ==> row.lease.value <= st.now)))
  }

  /** The submission was issued for the context that the session has, or that a new session is about to get. */
  predicate EpochFits(st: Store, session: Session, submission: SubmissionId)
    requires submission in st.submissions
  {
    var epoch := st.submissions[submission].epoch;
    if session in st.contexts then epoch == st.contexts[session].epoch
    else
      && (forall s :: s in st.contexts ==> st.contexts[s].epoch < epoch)
      && (epoch == 1 || exists s :: s in st.contexts && st.contexts[s].epoch + 1 == epoch)
  }

  lemma {:induction false} NewEpochFits(st: Store, session: Session, submission: SubmissionId)
    requires submission in st.submissions
    ensures EpochFits(st, session, submission) <==> st.submissions[submission].epoch == ContextFor(st, session).epoch
  {
    if session !in st.contexts {
      var m := MaxEpoch(st.contexts);
      assert IsMaxEpoch(st.contexts, m);
      if EpochFits(st, session, submission) && st.submissions[submission].epoch >= 1 {
        MaxEpochIsUnique(st.contexts, st.submissions[submission].epoch - 1, m);
      }
    }
  }

  /**
   A turn starts if and only if the owner is active, no other turn holds a live reservation, and the
   submission can be claimed in this session's epoch; the first look was at the row as it still is.
   */
  lemma {:induction false} TurnStartsIff(sys: System, session: Session, submission: SubmissionId, request: string)
    ensures var st := sys.st;
      var seen := if IsBound(st, submission, session) then Some(st.submissions[submission]) else None;
      PhaseA(st, seen, session, submission, request, sys.ttl).0.Started? <==>
        && st.ownerActive && !ReservationIsLive(st)
        && Claimable(st, session, submission, request) && EpochFits(st, session, submission)
  {
    hide EpochFits, MaxEpoch, ReservationIsLive;
    if submission in sys.st.submissions { NewEpochFits(sys.st, session, submission); }
  }

  /** A sweep removes only rows that nobody could have claimed any more. */
  lemma {:induction false} SweepingCostsNothing(
      sys: System, session: Session, retired: set<SubmissionId>, claimant: Session, id: SubmissionId, request: string)
    requires Inv(sys) && MayRetire(sys.st, retired) && Claimable(sys.st, claimant, id, request)
    ensures Claimable(Next(sys, IssueId(session, retired)).st, claimant, id, request)
  {
    hide Pointed, MaxEpoch, SerialOk, DraftsOk, ConfirmationsOk, TokensOk, LeaseOk;
    assert id < sys.st.nextId;
    assert id in retired ==> Collectible(sys.st, sys.st.submissions[id]);
  }

  /** A submission just issued is new, and within a day its session can start a turn with it, unless another turn is running. */
  lemma {:induction false} IssuedCanStart(
      sys: System, session: Session, retired: set<SubmissionId>, seconds: nat, request: string)
    requires Inv(sys) && MayRetire(sys.st, retired) && sys.st.ownerActive && seconds < 86400
    ensures var id := sys.st.nextId;
      var after := Next(Next(sys, IssueId(session, retired)), Tick(seconds));
      && id !in sys.st.submissions && id in after.st.submissions
      && (!ReservationIsLive(after.st) ==>
            PhaseA(after.st, Some(after.st.submissions[id]), session, id, request, after.ttl).0.Started?)
  {
    var id := sys.st.nextId;
    var issued := Next(sys, IssueId(session, retired));
    var after := Next(issued, Tick(seconds));
    assert id !in sys.st.submissions by { hide SerialOk, DraftsOk, ConfirmationsOk, TokensOk, LeaseOk; }
    hide Inv, Pointed, MaxEpoch, ReservationIsLive, PhaseA, EpochFits;
    assert issued.st.contexts == sys.st.contexts && after.st.submissions == issued.st.submissions;
    assert after.st.submissions[id].epoch == ContextFor(after.st, session).epoch;
    NewEpochFits(after.st, session, id);
    TurnStartsIff(after, session, id, request);
  }

  /** What a starting turn holds, whatever it had seen before. */
  lemma {:induction false} StartedTurnHolds(
      sys: System, seen: Option<Submission>, session: Session, submission: SubmissionId, request: string)
    requires Inv(sys) && PhaseA(sys.st, seen, session, submission, request, sys.ttl).0.Started?
    ensures var next := Next(sys, Begin(seen, session, submission, request));
      var t := next.lastToken;
      && t !in sys.flights && t in next.flights && next.st.active == Some(t) && next.st.expiresAt == Some(sys.st.now + sys.ttl)
      && next.flights[t].snapshot == sys.st.turns == next.st.turns && next.flights[t].r.context == next.st.contexts[session]
      && Claimable(sys.st, session, submission, request) && EpochFits(sys.st, session, submission)
      && next.st.submissions == sys.st.submissions[submission := sys.st.submissions[submission].(
           status := Processing, request := Some(request), reservation := Some(t), lease := Some(sys.st.now + sys.ttl))]
      && session in next.st.contexts
      && (session in sys.st.contexts ==> next.st.contexts == sys.st.contexts)
      && (session !in sys.st.contexts ==>
            && next.st.contexts[session].resultSet == None && next.st.contexts[session].draft == None
            && next.st.contexts[session].clarification == None
            && next.st.contexts[session].epoch == sys.st.submissions[submission].epoch)
  {
    hide MaxEpoch, Pointed, ReservationIsLive, EpochFits, SerialOk, SubmissionsOk, DraftsOk, ConfirmationsOk, LeaseOk;
    NewEpochFits(sys.st, session, submission);
  }

  /** A conversation that is busy spends an unused submission: nothing ever starts with it again in that state. */
  lemma {:induction false} BusySpendsTheSubmission(
      sys: System, seen: Option<Submission>, session: Session, submission: SubmissionId, request: string)
    requires sys.st.ownerActive && ReservationIsLive(sys.st) && IsBound(sys.st, submission, session)
    requires EarlyAnswer(seen, sys.st.now, request).None?
    ensures var next := Next(sys, Begin(seen, session, submission, request)).st;
      && (sys.st.submissions[submission].status == Issued ==>
            submission in next.submissions && next.submissions[submission].status == Abandoned
            && forall r :: !Claimable(next, session, submission, r))
      && forall id :: id in sys.st.submissions && id != submission ==>
           id in next.submissions && next.submissions[id] == sys.st.submissions[id]
  {
    hide Pointed, MaxEpoch, ClaimCheck, EarlyAnswer;
  }

  /** What a committed turn leaves in its own session's context. */
  predicate Points(context: Context, before: Context, o: Outcome, last: Entry) {
    && context.id == before.id && context.epoch == before.epoch
    && context.resultSet == o.resultSet && context.clarification == o.clarification
    && (if o.newDraft then context.draft.Some? && context.draft == last.draft && last.payload == o.payload
        else context.draft == before.draft && last.draft == None)
  }

  /**
   What a commit leaves behind: the session points at what the turn produced and nobody else's pointers
   move; the last two entries are HR's own words and what HR was shown; the submission is completed at
   the version that now stands, and the reservation is gone.
   */
  lemma {:induction false} CommitPublishesTheOutcome(sys: System, token: Token, o: Outcome)
    requires Inv(sys) && Commits(sys, token, o)
    ensures var f, next := sys.flights[token], Next(sys, Finish(token, o)).st;
      var n := |next.turns|;
      && n >= 2 && f.r.session in next.contexts && f.submission in next.submissions
      && Points(next.contexts[f.r.session], f.r.context, o, next.turns[n - 1])
      && (o.newDraft ==> next.contexts[f.r.session].draft.value !in sys.left)
      && (o.newDraft ==> forall s :: s in sys.st.contexts ==> sys.st.contexts[s].draft != next.contexts[f.r.session].draft)
      && (forall s :: s != f.r.session ==>
            (s in next.contexts <==> s in sys.st.contexts) && (s in sys.st.contexts ==> next.contexts[s] == sys.st.contexts[s]))
      && next.turns[n - 2].text == o.userText && !next.turns[n - 2].fromAssistant && next.turns[n - 2].draft == None
      && next.turns[n - 1].fromAssistant && next.turns[n - 1].author == token == next.turns[n - 2].author
      && next.turns[n - 1].text == (if o.headline == "" then o.assistantText else o.headline)
      && next.turns[n - 1].confirmed == None && next.turns[n - 2].confirmed == None
      && next.submissions[f.submission].status == Completed && next.submissions[f.submission].completedVersion == Some(next.version)
      && next.submissions[f.submission].lease == None && next.submissions[f.submission].request == Some(f.request)
      && (forall id :: id in sys.st.submissions && id != f.submission ==>
            id in next.submissions && next.submissions[id] == sys.st.submissions[id])
      && next.active == None && !ReservationIsLive(next)
  {
    hide SerialOk, SubmissionsOk, ConfirmationsOk, LeaseOk, Pointed;
  }

  /**
   A turn gets back in exactly when its session is live, it was the last to reserve and still holds the
   reservation, its context is as it left it, and nobody has written to the transcript it read.
   */
  lemma {:induction false} ReentryIffNothingMoved(sys: System, t: Token)
    requires Inv(sys) && t in sys.flights
    ensures var f := sys.flights[t];
      Reenter(sys.st, f.r, sys.ttl).Ok? <==>
        && sys.st.ownerActive && f.r.session in sys.st.liveSessions && sys.st.active.Some? && t == sys.lastToken
        && f.r.session in sys.st.contexts && sys.st.contexts[f.r.session] == f.r.context
        && |sys.log| == f.startedAt
    ensures |sys.log| == sys.flights[t].startedAt ==> sys.st.turns == sys.flights[t].snapshot
  {
    assert FlightSerial(sys, sys.flights[t]);
    assert sys.log[..|sys.log|] == sys.log;
    hide SubmissionsOk, DraftsOk, ConfirmationsOk, LeaseOk;
  }

  /** A turn commits if and only if it could re-enter and its submission is still its own unfinished claim. */
  lemma {:induction false} CommitsIff(sys: System, t: Token, o: Outcome)
    requires Inv(sys) && t in sys.flights
    ensures var f := sys.flights[t];
      Commits(sys, t, o) <==>
        && sys.st.ownerActive && f.r.session in sys.st.liveSessions && sys.st.active.Some? && t == sys.lastToken
        && f.r.session in sys.st.contexts && sys.st.contexts[f.r.session] == f.r.context
        && |sys.log| == f.startedAt
        && f.submission in sys.st.submissions
        && var row := sys.st.submissions[f.submission];
           row.session == f.r.session && row.status == Processing && row.reservation == Some(t) && row.request == Some(f.request)
  {
    ReentryIffNothingMoved(sys, t);
    hide SerialOk, SubmissionsOk, DraftsOk, ConfirmationsOk, LeaseOk;
  }

  /** A transcript write has come between the turn and its commit. */
  ghost predicate WrittenOver(sys: System, t: Token) {
    t <= sys.lastToken && (t in sys.flights ==> sys.flights[t].startedAt < |sys.log|)
  }

  lemma {:induction false} StaysWrittenOver(sys: System, t: Token, step: Step)
    requires Inv(sys) && WrittenOver(sys, t)
    ensures WrittenOver(Next(sys, step), t)
  {
    hide SerialOk, SubmissionsOk, DraftsOk, ConfirmationsOk, LeaseOk, Pointed, Bounded, Pair, MaxEpoch, ClaimCheck,
         EarlyAnswer, HasPayload;
    LogOnlyGrows(sys, step);
    match step
    case Begin(seen, session, submission, request) => BeginIsNewest(sys, seen, session, submission, request);
    case _ =>
  }

  lemma {:induction false} LogOnlyGrows(sys: System, step: Step)
    ensures |sys.log| <= |Next(sys, step).log|
  {
    hide Pointed, Bounded, Pair, MaxEpoch, ClaimCheck, EarlyAnswer, HasPayload, StillOurs;
  }

  lemma {:induction false} BeginIsNewest(
      sys: System, seen: Option<Submission>, session: Session, submission: SubmissionId, request: string)
    requires TokensOk(sys)
    ensures var next := StepBegin(sys, seen, session, submission, request);
      && sys.lastToken <= next.lastToken
      && forall t :: t <= sys.lastToken ==> (t in next.flights <==> t in sys.flights) && (t in sys.flights ==> next.flights[t] == sys.flights[t])
  {
    hide Pointed, MaxEpoch, ClaimCheck;
  }

  /** A turn that somebody has written over commits at the end of no run. */
  lemma {:induction false} WrittenOverNeverCommits(sys: System, t: Token, steps: seq<Step>, o: Outcome)
    requires Inv(sys) && WrittenOver(sys, t)
    ensures WrittenOver(RunAll(sys, steps), t) && !Commits(RunAll(sys, steps), t, o)
  {
    RunKeepsInv(sys, steps);
    if steps == [] {
      CannotCommitOver(sys, t, o);
    } else {
      var before := steps[..|steps| - 1];
      WrittenOverNeverCommits(sys, t, before, o);
      RunKeepsInv(sys, before);
      hide Next, Inv, WrittenOver, Commits;
      StaysWrittenOver(RunAll(sys, before), t, steps[|steps| - 1]);
      CannotCommitOver(RunAll(sys, steps), t, o);
    }
  }

  lemma {:induction false} CannotCommitOver(sys: System, t: Token, o: Outcome)
    requires Inv(sys) && WrittenOver(sys, t)
    ensures !Commits(sys, t, o)
  {
    if t in sys.flights {
      assert FlightSerial(sys, sys.flights[t]);
    }
  }

  /**
   A review keeps the draft pending under its id, touches no other entry and no pointer, and stops every
   turn in flight for good: none of them can put the old payload back.
   */
  lemma {:induction false} RevisionStopsTurns(sys: System, session: Session, draft: DraftId, payload: nat)
    requires Inv(sys) && DraftIsPending(sys.st, session, draft)
    ensures var next := Next(sys, Revise(session, draft, payload));
      && DraftIsPending(next.st, session, draft) && next.st.contexts == sys.st.contexts && |next.st.turns| == |sys.st.turns|
      && (forall i :: 0 <= i < |sys.st.turns| ==>
           next.st.turns[i] == if sys.st.turns[i].draft == Some(draft) then sys.st.turns[i].(payload := payload) else sys.st.turns[i])
      && forall t, steps, o :: t in sys.flights ==> !Commits(RunAll(next, steps), t, o)
  {
    var next := Next(sys, Revise(session, draft, payload));
    RevisedKeepsPayload(sys.st.turns, draft, payload);
    StopsTurns(sys, Revise(session, draft, payload));
  }

  lemma {:induction false} StopsTurns(sys: System, step: Step)
    requires Inv(sys) && |Next(sys, step).log| > |sys.log| && Next(sys, step).flights == sys.flights && Next(sys, step).lastToken == sys.lastToken
    ensures forall t, steps, o :: t in sys.flights ==> !Commits(RunAll(Next(sys, step), steps), t, o)
  {
    InvKept(sys, step);
    forall t, steps, o | t in sys.flights
      ensures !Commits(RunAll(Next(sys, step), steps), t, o)
    {
      assert FlightSerial(sys, sys.flights[t]);
      hide Next, Inv, Commits, RunAll;
      WrittenOverNeverCommits(Next(sys, step), t, steps, o);
    }
  }

  /**
   A confirmation makes a job and a version nobody had, consumes the draft everywhere, leaves every other
   confirmation alone, and stops every turn in flight for good.
   */
  lemma {:induction false} ConfirmationTakesEffect(sys: System, session: Session, draft: DraftId)
    requires Inv(sys) && Confirm(sys.st, session, draft, true).0.Confirmed?
    ensures var next := Next(sys, ConfirmIt(session, draft, true));
      var made := Confirm(sys.st, session, draft, true).0.made;
      && (session, draft) !in sys.st.confirmations && next.st.confirmations == sys.st.confirmations[(session, draft) := made]
      && (forall k :: k in sys.st.confirmations ==>
            sys.st.confirmations[k].job != made.job && sys.st.confirmations[k].criteriaVersion != made.criteriaVersion)
      && !HasPayload(next.st.turns, draft) && (forall s :: !DraftIsPending(next.st, s, draft))
      && |next.st.turns| == |sys.st.turns| && next.st.version == sys.st.version + 1 && next.st.submissions == sys.st.submissions
      && (forall i :: 0 <= i < |sys.st.turns| ==>
            next.st.turns[i] == if sys.st.turns[i].draft == Some(draft) then sys.st.turns[i].(draft := None, confirmed := Some(draft))
                                else sys.st.turns[i])
      && session in next.st.contexts && next.st.contexts[session] == sys.st.contexts[session].(draft := None)
      && (forall s :: s in sys.st.contexts && s != session ==> s in next.st.contexts && next.st.contexts[s] == sys.st.contexts[s])
      && forall t, steps, o :: t in sys.flights ==> !Commits(RunAll(next, steps), t, o)
  {
    StopsTurns(sys, ConfirmIt(session, draft, true));
    hide RunAll, Commits, SerialOk, SubmissionsOk, TokensOk, LeaseOk, Pointed;
    assert (session, draft) in sys.st.confirmations ==> draft in sys.left;
  }

  /** Short of its commit, nothing a turn does changes the transcript or any pointer. */
  lemma {:induction false} UncommittedTurnsAreQuiet(sys: System, step: Step)
    requires step.Begin? || step.Resume? || step.GiveUp? || step.Crash? || (step.Finish? && !Commits(sys, step.token, step.outcome))
    ensures var next := Next(sys, step);
      && next.st.turns == sys.st.turns && next.st.version == sys.st.version && next.log == sys.log
      && next.st.confirmations == sys.st.confirmations
      && forall s :: s in sys.st.contexts ==> s in next.st.contexts && next.st.contexts[s] == sys.st.contexts[s]
  {
    if step.Begin? {
      BeginIsQuiet(sys, step.seen, step.session, step.submission, step.request);
    }
    hide Pointed, StepBegin, StillOurs, Staleness;
  }

  lemma {:induction false} BeginIsQuiet(
      sys: System, seen: Option<Submission>, session: Session, submission: SubmissionId, request: string)
    ensures var next := StepBegin(sys, seen, session, submission, request);
      && next.st.turns == sys.st.turns && next.st.version == sys.st.version && next.log == sys.log
      && next.st.confirmations == sys.st.confirmations
      && forall s :: s in sys.st.contexts ==> s in next.st.contexts && next.st.contexts[s] == sys.st.contexts[s]
  {
    hide Pointed, MaxEpoch, ClaimCheck, EarlyAnswer;
  }

  // ------------------------------------------------------------------ exactly-once submission

  /** No submission id is ever behind two appended pairs, and one that is behind a pair never starts again. */
  lemma {:induction false} SubmissionsRunOnce(startedAt: int, ttl: nat, steps: seq<Step>)
    ensures var sys := RunFrom(startedAt, ttl, steps);
      && (forall i, j :: 0 <= i < j < |sys.log| && sys.log[i].TurnWrite? && sys.log[j].TurnWrite? ==> sys.log[i].submission != sys.log[j].submission)
      && forall seen, session, id, request :: Wrote(sys.log, id) ==> !PhaseA(sys.st, seen, session, id, request, ttl).0.Started?
  {
    EveryRunIsSound(startedAt, ttl, steps);
    hide RunAll, TokensOk, SerialOk, DraftsOk, ConfirmationsOk, LeaseOk;
    var sys := RunFrom(startedAt, ttl, steps);
    forall seen, session, id, request | Wrote(sys.log, id)
      ensures !PhaseA(sys.st, seen, session, id, request, ttl).0.Started?
    {
      assert id in sys.st.submissions ==> sys.st.submissions[id].status == Completed;
    }
  }

  /** A row in use by another turn cannot be completed: only the turn that claimed it last may. */
  lemma {:induction false} OnlyTheClaimerCompletes(sys: System, token: Token, o: Outcome)
    requires TokensOk(sys) && Commits(sys, token, o)
    ensures sys.st.active == Some(token) && token == sys.lastToken
    ensures sys.st.submissions[sys.flights[token].submission].reservation == Some(token)
  {
  }

  // ------------------------------------------------------------------ takeover

  /** A turn whose reservation was taken over changes nothing when it tries to resume or commit, and giving up leaves the newer reservation alone. */
  lemma {:induction false} OvertakenStep(sys: System, t: Token, step: Step)
    requires TokensOk(sys) && t < sys.lastToken
    ensures step.Finish? && step.token == t ==> Next(sys, step) == sys
    ensures step.Resume? && step.token == t ==> Next(sys, step) == sys
    ensures step.GiveUp? && step.token == t ==>
      Next(sys, step).st.active == sys.st.active && Next(sys, step).st.expiresAt == sys.st.expiresAt && Next(sys, step).st.turns == sys.st.turns
    ensures t < Next(sys, step).lastToken
  {
    TokensKept(sys, step);
  }

  /** Once overtaken, overtaken for the rest of every run. */
  lemma {:induction false} OvertakenForever(sys: System, t: Token, steps: seq<Step>, o: Outcome)
    requires Inv(sys) && t < sys.lastToken
    ensures var end := RunAll(sys, steps); t < end.lastToken && !Commits(end, t, o) && end.st.active != Some(t)
  {
    RunKeepsInv(sys, steps);
    TokensOnlyGrow(sys, steps);
  }

  lemma {:induction false} TokensOnlyGrow(sys: System, steps: seq<Step>)
    requires Inv(sys)
    ensures sys.lastToken <= RunAll(sys, steps).lastToken
  {
    hide Next;
    if steps != [] {
      var before := steps[..|steps| - 1];
      TokensOnlyGrow(sys, before);
      RunKeepsInv(sys, before);
      TokensKept(RunAll(sys, before), steps[|steps| - 1]);
    }
  }

  // ------------------------------------------------------------------ the time bound

  predicate EndsTurn(step: Step, t: Token) {
    (step.Finish? || step.GiveUp? || step.Crash?) && step.token == t
  }

  /** The turn is back in the database within `gap` of its last visit. */
  predicate OnTime(sys: System, t: Token, gap: nat) {
    t in sys.flights && sys.st.now <= sys.flights[t].refreshedAt + gap
  }

  /** A run during which the turn stays in flight and every inference gap stays within `gap`. */
  ghost predicate StaysOnTime(sys: System, steps: seq<Step>, t: Token, gap: nat) {
    OnTime(RunAll(sys, steps), t, gap)
    && (steps == [] || (!EndsTurn(steps[|steps| - 1], t) && StaysOnTime(sys, steps[..|steps| - 1], t, gap)))
  }

  /** While a turn that holds the reservation is on time, nobody else can reserve and nothing takes it away. */
  lemma {:induction false} HolderKeepsReservation(sys: System, t: Token, step: Step, gap: nat)
    requires Inv(sys) && sys.st.active == Some(t) && OnTime(sys, t, gap) && gap < sys.ttl && !EndsTurn(step, t)
    ensures Next(sys, step).st.active == Some(t) && t in Next(sys, step).flights && Next(sys, step).ttl == sys.ttl
    ensures Next(sys, step).flights[t].(refreshedAt := 0) == sys.flights[t].(refreshedAt := 0)
    ensures step.Begin? ==> !PhaseA(sys.st, step.seen, step.session, step.submission, step.request, sys.ttl).0.Started?
  {
    hide SerialOk, SubmissionsOk, DraftsOk, ConfirmationsOk;
    assert sys.st.expiresAt == Some(sys.flights[t].refreshedAt + sys.ttl);
  }

  /**
   The time bound. If the reservation outlives every inference gap, then over any number of gaps the
   turn keeps its reservation, and every other attempt to reserve is refused.
   */
  lemma {:induction false} TimelyTurnIsNeverOvertaken(sys: System, steps: seq<Step>, t: Token, gap: nat)
    requires Inv(sys) && sys.st.active == Some(t) && gap < sys.ttl && StaysOnTime(sys, steps, t, gap)
    ensures var end := RunAll(sys, steps);
      && end.st.active == Some(t) && end.lastToken == t && end.ttl == sys.ttl
      && t in sys.flights && t in end.flights && end.flights[t].(refreshedAt := 0) == sys.flights[t].(refreshedAt := 0)
    ensures forall seen, session, id, request ::
      !PhaseA(RunAll(sys, steps).st, seen, session, id, request, sys.ttl).0.Started?
  {
    hide Next, SerialOk, SubmissionsOk, DraftsOk, ConfirmationsOk;
    if steps != [] {
      var before := steps[..|steps| - 1];
      TimelyTurnIsNeverOvertaken(sys, before, t, gap);
      RunKeepsInv(sys, before);
      HolderKeepsReservation(RunAll(sys, before), t, steps[|steps| - 1], gap);
    }
    RunKeepsInv(sys, steps);
    LiveWhileOnTime(RunAll(sys, steps), t, gap);
  }

  lemma {:induction false} LiveWhileOnTime(sys: System, t: Token, gap: nat)
    requires TokensOk(sys) && LeaseOk(sys) && sys.st.active == Some(t) && OnTime(sys, t, gap) && gap < sys.ttl
    ensures ReservationIsLive(sys.st) && sys.lastToken == t
    ensures forall seen, session, id, request :: !PhaseA(sys.st, seen, session, id, request, sys.ttl).0.Started?
  {
    assert sys.st.expiresAt == Some(sys.flights[t].refreshedAt + sys.ttl);
  }

  // ------------------------------------------------------------------ an undisturbed turn commits

  /** Nobody revokes the turn's session or touches a draft of the conversation. */
  predicate Undisturbing(step: Step, session: Session) {
    match step
    case SessionEnds(s) => s != session
    case OwnerSet(active) => active
    case Revise(_, _, _) => false
    case ConfirmIt(_, _, _) => false
    case _ => true
  }

  /** Everything Phase B will re-check holds now. */
  predicate ReadyToCommit(sys: System, t: Token) {
    && t in sys.flights && sys.st.active == Some(t) && sys.flights[t].r.token == t
    && Staleness(sys.st, sys.flights[t].r) == None
    && StillOurs(sys.st, sys.flights[t].r, sys.flights[t].submission, sys.flights[t].request)
  }

  lemma {:induction false} StaysReady(sys: System, t: Token, step: Step, gap: nat)
    requires Inv(sys) && ReadyToCommit(sys, t) && OnTime(sys, t, gap) && gap < sys.ttl
    requires !EndsTurn(step, t) && Undisturbing(step, sys.flights[t].r.session)
    ensures ReadyToCommit(Next(sys, step), t)
  {
    HolderKeepsReservation(sys, t, step, gap);
    LiveWhileOnTime(sys, t, gap);
    if step.IssueId? {
      IssueStaysReady(sys, t, step);
    } else if step.Begin? {
      BeginStaysReady(sys, t, step);
    } else {
      hide SerialOk, DraftsOk, ConfirmationsOk, SubmissionsOk, TokensOk, Pointed, MaxEpoch, PhaseA;
    }
  }

  /** Clean-up spares the row of a turn that holds the live reservation. */
  lemma {:induction false} IssueStaysReady(sys: System, t: Token, step: Step)
    requires SubmissionsOk(sys) && ReadyToCommit(sys, t) && ReservationIsLive(sys.st) && step.IssueId?
    ensures ReadyToCommit(Next(sys, step), t)
  {
    hide Pointed, MaxEpoch;
    var id := sys.flights[t].submission;
    assert id in sys.st.submissions && id < sys.st.nextId && !Collectible(sys.st, sys.st.submissions[id]);
    if MayRetire(sys.st, step.retired) {
      assert id !in step.retired;
    }
  }

  /** Another turn that is refused may only spend a submission nobody has used. */
  lemma {:induction false} BeginStaysReady(sys: System, t: Token, step: Step)
    requires ReadyToCommit(sys, t) && ReservationIsLive(sys.st) && step.Begin?
    requires !PhaseA(sys.st, step.seen, step.session, step.submission, step.request, sys.ttl).0.Started?
    ensures ReadyToCommit(Next(sys, step), t)
  {
    hide Pointed, MaxEpoch, ClaimCheck, EarlyAnswer;
  }

  lemma {:induction false} BeginIsReady(
      sys: System, seen: Option<Submission>, session: Session, id: SubmissionId, request: string)
    requires session in sys.st.liveSessions
    requires PhaseA(sys.st, seen, session, id, request, sys.ttl).0.Started?
    ensures var next := Next(sys, Begin(seen, session, id, request));
      && ReadyToCommit(next, next.lastToken) && next.ttl == sys.ttl
      && next.flights[next.lastToken].r.session == session && next.flights[next.lastToken].submission == id
  {
  }

  /** The claim of a turn that gave up is spent: nobody can claim that submission any more. */
  lemma {:induction false} GivingUpSpendsTheClaim(sys: System, t: Token)
    requires t in sys.flights
    requires var id := sys.flights[t].submission;
      && id in sys.st.submissions && sys.st.submissions[id].status == Processing
      && sys.st.submissions[id].reservation == Some(sys.flights[t].r.token)
    ensures var id, next := sys.flights[t].submission, Next(sys, GiveUp(t)).st;
      && id in next.submissions && next.submissions[id].status == Abandoned && next.submissions[id].reservation == None
      && forall session, request :: !Claimable(next, session, id, request)
  {
    hide Pointed;
  }

  /** A draft is confirmed if and only if it is its live session's pending one and acceptable. */
  lemma {:induction false} ConfirmsIff(sys: System, session: Session, draft: DraftId, acceptable: bool)
    ensures Confirm(sys.st, session, draft, acceptable).0.Confirmed? <==>
      && acceptable && session in sys.st.liveSessions && session in sys.st.contexts && sys.st.contexts[session].draft == Some(draft)
      && exists i :: 0 <= i < |sys.st.turns| && sys.st.turns[i].draft == Some(draft)
    ensures !Confirm(sys.st, session, draft, acceptable).0.Confirmed? ==> Next(sys, ConfirmIt(session, draft, acceptable)) == sys
  {
    hide Consumed, Pointed;
  }

  /**
   Giving up frees the reservation if it was the turn's own, ends the turn for good, and costs no other
   turn anything: whoever was ready to commit still is.
   */
  lemma {:induction false} GivingUpIsPrivate(sys: System, t: Token)
    requires Inv(sys) && t in sys.flights
    ensures var next := Next(sys, GiveUp(t));
      && (sys.st.active == Some(t) ==> !ReservationIsLive(next.st))
      && (forall steps, o :: !Commits(RunAll(next, steps), t, o))
      && (forall u :: u != t && ReadyToCommit(sys, u) ==> ReadyToCommit(next, u))
      && forall id :: id in sys.st.submissions && sys.st.submissions[id].reservation != Some(t) ==>
           id in next.st.submissions && next.st.submissions[id] == sys.st.submissions[id]
  {
    var next := Next(sys, GiveUp(t));
    InvKept(sys, GiveUp(t));
    GivingUpFrees(sys, t);
    hide Next, Inv, Commits, RunAll, ReadyToCommit, ReservationIsLive;
    forall steps, o
      ensures !Commits(RunAll(next, steps), t, o)
    {
      WrittenOverNeverCommits(next, t, steps, o);
    }
  }

  lemma {:induction false} GivingUpFrees(sys: System, t: Token)
    requires Inv(sys) && t in sys.flights
    ensures var next := Next(sys, GiveUp(t));
      && t !in next.flights && t <= next.lastToken
      && (sys.st.active == Some(t) ==> !ReservationIsLive(next.st))
      && (forall u :: u != t && ReadyToCommit(sys, u) ==> ReadyToCommit(next, u))
      && forall id :: id in sys.st.submissions && sys.st.submissions[id].reservation != Some(t) ==>
           id in next.st.submissions && next.st.submissions[id] == sys.st.submissions[id]
  {
    hide RunAll, SerialOk, SubmissionsOk, DraftsOk, ConfirmationsOk, LeaseOk, Pointed;
  }

  ghost predicate NeverDisturbed(steps: seq<Step>, session: Session) {
    forall i :: 0 <= i < |steps| ==> Undisturbing(steps[i], session)
  }

  lemma {:induction false} RunStaysReady(sys: System, steps: seq<Step>, t: Token, gap: nat)
    requires Inv(sys) && ReadyToCommit(sys, t) && gap < sys.ttl && StaysOnTime(sys, steps, t, gap)
    requires NeverDisturbed(steps, sys.flights[t].r.session)
    ensures ReadyToCommit(RunAll(sys, steps), t)
  {
    hide Next, SerialOk, SubmissionsOk, DraftsOk, ConfirmationsOk, ReadyToCommit;
    assert sys.st.active == Some(t) && t in sys.flights by { ReadyIsActive(sys, t); }
    if steps != [] {
      var before := steps[..|steps| - 1];
      RunStaysReady(sys, before, t, gap);
      TimelyTurnIsNeverOvertaken(sys, before, t, gap);
      RunKeepsInv(sys, before);
      StaysReady(RunAll(sys, before), t, steps[|steps| - 1], gap);
    }
  }

  lemma {:induction false} ReadyIsActive(sys: System, t: Token)
    requires ReadyToCommit(sys, t)
    ensures sys.st.active == Some(t) && t in sys.flights
  {
  }

  /**
   A turn that starts while its session is live, is never away longer than the bound, and whose session
   and drafts nobody touches meanwhile, commits; whatever else happens in between.
   */
  lemma {:induction false} UndisturbedTurnCommits(
      sys: System, seen: Option<Submission>, session: Session, id: SubmissionId, request: string, steps: seq<Step>, gap: nat, o: Outcome)
    requires Inv(sys) && gap < sys.ttl && session in sys.st.liveSessions
    requires PhaseA(sys.st, seen, session, id, request, sys.ttl).0.Started?
    requires var begun := Next(sys, Begin(seen, session, id, request)); StaysOnTime(begun, steps, begun.lastToken, gap)
    requires NeverDisturbed(steps, session)
    ensures var begun := Next(sys, Begin(seen, session, id, request)); Commits(RunAll(begun, steps), begun.lastToken, o)
  {
    var begun := Next(sys, Begin(seen, session, id, request));
    InvKept(sys, Begin(seen, session, id, request));
    BeginIsReady(sys, seen, session, id, request);
    hide Next, PhaseA, Inv, StaysOnTime, NeverDisturbed;
    RunStaysReady(begun, steps, begun.lastToken, gap);
  }

  // ------------------------------------------------------------------ drafts

  lemma {:induction false} HistoryOnlyGrows(sys: System, step: Step)
    requires DraftsOk(sys) && ConfirmationsOk(sys)
    ensures sys.left <= Next(sys, step).left
    ensures forall k :: k in sys.st.confirmations ==> k in Next(sys, step).st.confirmations && Next(sys, step).st.confirmations[k] == sys.st.confirmations[k]
  {
    if step.ConfirmIt? && Confirm(sys.st, step.session, step.draft, step.acceptable).0.Confirmed? {
      ConfirmedDraftLeaves(sys, step.session, step.draft, step.acceptable);
    } else {
      ConfirmationsStay(sys, step);
    }
  }

  lemma {:induction false} RunOnlyGrows(sys: System, steps: seq<Step>)
    requires Inv(sys)
    ensures sys.left <= RunAll(sys, steps).left
    ensures forall k :: k in sys.st.confirmations ==>
      k in RunAll(sys, steps).st.confirmations && RunAll(sys, steps).st.confirmations[k] == sys.st.confirmations[k]
  {
    hide Next, TokensOk, SerialOk, SubmissionsOk, LeaseOk;
    if steps != [] {
      var before := steps[..|steps| - 1];
      RunOnlyGrows(sys, before);
      RunKeepsInv(sys, before);
      HistoryOnlyGrows(RunAll(sys, before), steps[|steps| - 1]);
    }
  }

  /**
   No resurrection. A draft that has stopped being pending (amended, replaced or confirmed) is never
   pending again, so no later step of any turn makes it possible to confirm it.
   */
  lemma {:induction false} DraftsNeverReturn(sys: System, steps: seq<Step>, draft: DraftId)
    requires Inv(sys) && draft in sys.left
    ensures var end := RunAll(sys, steps);
      && (forall session :: !DraftIsPending(end.st, session, draft))
      && forall session, acceptable :: !Confirm(end.st, session, draft, acceptable).0.Confirmed?
  {
    RunOnlyGrows(sys, steps);
    RunKeepsInv(sys, steps);
    hide RunAll, Inv, DraftIsPending, Confirm;
    var end := RunAll(sys, steps);
    forall session ensures !DraftIsPending(end.st, session, draft) { LeftIsNotPending(end, session, draft, true); }
    forall session, acceptable ensures !Confirm(end.st, session, draft, acceptable).0.Confirmed? {
      LeftIsNotPending(end, session, draft, acceptable);
    }
  }

  lemma {:induction false} LeftIsNotPending(sys: System, session: Session, draft: DraftId, acceptable: bool)
    requires Inv(sys) && draft in sys.left
    ensures !DraftIsPending(sys.st, session, draft) && !Confirm(sys.st, session, draft, acceptable).0.Confirmed?
  {
    hide TokensOk, SerialOk, SubmissionsOk, ConfirmationsOk, LeaseOk, HasPayload;
  }

  /** A confirmed draft replays its one job and criteria version for ever, and no other draft or session shares them. */
  lemma {:induction false} ConfirmedOnce(
      sys: System, steps: seq<Step>, session: Session, draft: DraftId, acceptable: bool)
    requires Inv(sys) && (session, draft) in sys.st.confirmations
    ensures var end := RunAll(sys, steps);
      && Confirm(end.st, session, draft, acceptable) == (ConfirmReplayed(sys.st.confirmations[(session, draft)]), end.st)
      && forall k :: k in end.st.confirmations && k != (session, draft) ==>
           k.1 != draft && end.st.confirmations[k].job != sys.st.confirmations[(session, draft)].job
           && end.st.confirmations[k].criteriaVersion != sys.st.confirmations[(session, draft)].criteriaVersion
  {
    RunOnlyGrows(sys, steps);
    RunKeepsInv(sys, steps);
    hide RunAll, TokensOk, SerialOk, SubmissionsOk, LeaseOk;
    assert draft in sys.left;
  }
}
