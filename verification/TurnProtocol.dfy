/**
 Turns in flight. Each turn reserves, leaves the database for model calls, re-enters and finally
 commits or gives up; between any two of its transactions anything may happen: other turns, draft
 reviews and confirmations, revocations, expiry, crashes. All of that is one transition system.
 */
module TurnProtocol {
  import opened Wrappers
  import opened TurnStore

  /** A running turn's own memory: what it reserved under and the transcript it read. */
  datatype Flight = Flight(r: Reservation, snapshot: seq<Entry>, submission: SubmissionId, request: string, refreshedAt: int, startedAt: nat)

  /** The transcript's writers, in commit order. */
  datatype Write =
    | TurnWrite(token: Token, submission: SubmissionId, seen: seq<Entry>, pair: seq<Entry>)
    | ReviseWrite(draft: DraftId, payload: nat)
    | ConsumeWrite(draft: DraftId)

  /**
   The shared rows, the turns in flight, and what an observer has written down: the transcript writes,
   the last token reserved, and the drafts that some session once had pending and no longer has.
   */
  datatype System = System(st: Store, flights: map<Token, Flight>, log: seq<Write>, lastToken: Token, left: set<DraftId>, ttl: nat)

  datatype Step =
    | Tick(seconds: nat)
    | OwnerSet(active: bool)
    | SessionStarts(session: Session)
    | SessionEnds(session: Session)
    | IssueId(session: Session, retired: set<SubmissionId>)
    | Begin(seen: Option<Submission>, session: Session, submission: SubmissionId, request: string)
    | Resume(token: Token)
    | Finish(token: Token, outcome: Outcome)
    | GiveUp(token: Token)
    | Crash(token: Token)
    | Revise(session: Session, draft: DraftId, payload: nat)
    | ConfirmIt(session: Session, draft: DraftId, acceptable: bool)

  function Pointed(st: Store): set<DraftId> {
    set s | s in st.contexts && st.contexts[s].draft.Some? :: st.contexts[s].draft.value
  }

  /** The observer notes every draft that stops being pending. */
  function Observe(sys: System, st: Store): System {
    sys.(st := st, left := sys.left + (Pointed(sys.st) - Pointed(st)))
  }

  ghost function StepBegin(
      sys: System, seen: Option<Submission>, session: Session, submission: SubmissionId, request: string): System
  {
    var (result, st) := PhaseA(sys.st, seen, session, submission, request, sys.ttl);
    match result
    case Started(r) =>
      var flight := Flight(r, sys.st.turns, submission, request, sys.st.now, |sys.log|);
      Observe(sys, st).(flights := sys.flights[r.token := flight], lastToken := r.token)
    case _ => Observe(sys, st)
  }

  function StepResume(sys: System, token: Token): System {
    if token !in sys.flights then sys
    else
      match Reenter(sys.st, sys.flights[token].r, sys.ttl)
      case Ok(st) => Observe(sys, st).(flights := sys.flights[token := sys.flights[token].(refreshedAt := sys.st.now)])
      case Err(_) => sys
  }

  function StepFinish(sys: System, token: Token, o: Outcome): System {
    if token !in sys.flights then sys
    else
      var f := sys.flights[token];
      match CommitPhaseB(sys.st, f.r, f.submission, f.request, o)
      case Ok(st) =>
        Observe(sys, st).(
          flights := sys.flights - {token},
          log := sys.log + [TurnWrite(token, f.submission, f.snapshot, Pair(f.r, o, sys.st.nextId))])
      case Err(_) => sys
  }

  function StepGiveUp(sys: System, token: Token): System {
    if token !in sys.flights then sys
    else Observe(sys, Abandon(sys.st, sys.flights[token].r, sys.flights[token].submission)).(flights := sys.flights - {token})
  }

  function StepRevise(sys: System, session: Session, draft: DraftId, payload: nat): System {
    match ReviseDraft(sys.st, session, draft, payload)
    case Some(st) => Observe(sys, st).(log := sys.log + [ReviseWrite(draft, payload)])
    case None => sys
  }

  function StepConfirm(sys: System, session: Session, draft: DraftId, acceptable: bool): System {
    var (result, st) := Confirm(sys.st, session, draft, acceptable);
    if result.Confirmed? then Observe(sys, st).(log := sys.log + [ConsumeWrite(draft)]) else sys
  }

  ghost function Next(sys: System, step: Step): System {
    match step
    case Tick(seconds) => sys.(st := sys.st.(now := sys.st.now + seconds))
    case OwnerSet(active) => sys.(st := sys.st.(ownerActive := active))
    case SessionStarts(s) => sys.(st := sys.st.(liveSessions := sys.st.liveSessions + {s}))
    case SessionEnds(s) => sys.(st := sys.st.(liveSessions := sys.st.liveSessions - {s}))
    case IssueId(s, retired) =>
      if MayRetire(sys.st, retired) then
        var (id, st) := Issue(sys.st, s, retired);
        Observe(sys, st)
      else sys
    case Begin(seen, s, submission, request) => StepBegin(sys, seen, s, submission, request)
    case Resume(token) => StepResume(sys, token)
    case Finish(token, o) => StepFinish(sys, token, o)
    case GiveUp(token) => StepGiveUp(sys, token)
    case Crash(token) => sys.(flights := sys.flights - {token})
    case Revise(s, draft, payload) => StepRevise(sys, s, draft, payload)
    case ConfirmIt(s, draft, acceptable) => StepConfirm(sys, s, draft, acceptable)
  }

  ghost function RunAll(sys: System, steps: seq<Step>): System {
    if steps == [] then sys else Next(RunAll(sys, steps[..|steps| - 1]), steps[|steps| - 1])
  }

  function Initial(startedAt: int, ttl: nat): System {
    System(Store(startedAt, [], 0, None, None, map[], map[], map[], true, {}, 0), map[], [], 0, {}, ttl)
  }

  // ------------------------------------------------------------------ the serial history

  function Applied(turns: seq<Entry>, w: Write): seq<Entry> {
    match w
    case TurnWrite(_, _, _, pair) => Bounded(turns + pair)
    case ReviseWrite(draft, payload) => Revised(turns, draft, payload)
    case ConsumeWrite(draft) => Consumed(turns, draft)
  }

  /** The transcript that a history of writes produces, one write after the other. */
  function Transcript(log: seq<Write>): seq<Entry> {
    if log == [] then [] else Applied(Transcript(log[..|log| - 1]), log[|log| - 1])
  }

  // ------------------------------------------------------------------ the invariant

  ghost predicate TokensOk(sys: System) {
    && sys.lastToken <= sys.st.nextId
    && (sys.st.active.Some? ==> sys.st.active.value == sys.lastToken && sys.st.expiresAt.Some?)
    && forall t :: t in sys.flights ==> sys.flights[t].r.token == t && t <= sys.lastToken
  }

  ghost predicate FlightSerial(sys: System, f: Flight) {
    && f.startedAt <= |sys.log| && f.snapshot == Transcript(sys.log[..f.startedAt])
    && f.r.version <= sys.st.version && (f.startedAt < |sys.log| <==> f.r.version < sys.st.version)
  }

  ghost predicate WriteSerial(log: seq<Write>, i: nat)
    requires i < |log|
  {
    log[i].TurnWrite? ==> log[i].seen == Transcript(log[..i])
  }

  ghost predicate SerialOk(sys: System) {
    && sys.st.turns == Transcript(sys.log)
    && (forall t :: t in sys.flights ==> FlightSerial(sys, sys.flights[t]))
    && forall i :: 0 <= i < |sys.log| ==> WriteSerial(sys.log, i)
  }

  predicate Wrote(log: seq<Write>, id: SubmissionId) {
    exists i :: 0 <= i < |log| && log[i].TurnWrite? && log[i].submission == id
  }

  ghost predicate SubmissionsOk(sys: System) {
    && (forall id :: id in sys.st.submissions ==> id < sys.st.nextId && (sys.st.submissions[id].status == Completed <==> Wrote(sys.log, id)))
    && (forall i :: 0 <= i < |sys.log| && sys.log[i].TurnWrite? ==> sys.log[i].submission < sys.st.nextId)
    && forall i, j :: 0 <= i < j < |sys.log| && sys.log[i].TurnWrite? && sys.log[j].TurnWrite? ==> sys.log[i].submission != sys.log[j].submission
  }

  ghost predicate DraftsOk(sys: System) {
    && (forall s :: s in sys.st.contexts && sys.st.contexts[s].draft.Some? ==>
          sys.st.contexts[s].draft.value < sys.st.nextId && sys.st.contexts[s].draft.value !in sys.left)
    && (forall s, t :: s in sys.st.contexts && t in sys.st.contexts && s != t && sys.st.contexts[s].draft.Some? ==>
          sys.st.contexts[s].draft != sys.st.contexts[t].draft)
    && forall d :: d in sys.left ==> d < sys.st.nextId
  }

  ghost predicate ConfirmationsOk(sys: System) {
    && (forall k :: k in sys.st.confirmations ==>
          k.1 in sys.left && sys.st.confirmations[k].job < sys.st.nextId && sys.st.confirmations[k].criteriaVersion < sys.st.nextId)
    && forall k, l :: k in sys.st.confirmations && l in sys.st.confirmations && k != l ==>
         && k.1 != l.1 && sys.st.confirmations[k].job != sys.st.confirmations[l].job
         && sys.st.confirmations[k].criteriaVersion != sys.st.confirmations[l].criteriaVersion
  }

  /** The reservation in force expires one ttl after its turn last touched the database. */
  ghost predicate LeaseOk(sys: System) {
    forall t :: t in sys.flights && sys.st.active == Some(t) ==> sys.st.expiresAt == Some(sys.flights[t].refreshedAt + sys.ttl)
  }

  ghost predicate Inv(sys: System) {
    TokensOk(sys) && SerialOk(sys) && SubmissionsOk(sys) && DraftsOk(sys) && ConfirmationsOk(sys) && LeaseOk(sys)
  }

  lemma {:induction false} InitialOk(startedAt: int, ttl: nat)
    ensures Inv(Initial(startedAt, ttl))
  {
  }

  // ------------------------------------------------------------------ one step keeps each part

  lemma {:induction false} TokensBegun(
      sys: System, seen: Option<Submission>, session: Session, submission: SubmissionId, request: string)
    requires TokensOk(sys)
    ensures var next := StepBegin(sys, seen, session, submission, request); TokensOk(next) && sys.lastToken <= next.lastToken
  {
    hide Pointed, MaxEpoch, ClaimCheck;
  }

  lemma {:induction false} TokensKept(sys: System, step: Step)
    requires TokensOk(sys)
    ensures TokensOk(Next(sys, step)) && sys.lastToken <= Next(sys, step).lastToken
  {
    hide Pointed, StepBegin, StillOurs, HasPayload;
    if step.Begin? { TokensBegun(sys, step.seen, step.session, step.submission, step.request); }
  }

  /** The holder's flight and deadline stand, or there is a new holder with a new deadline, or none. */
  lemma {:induction false} LeaseFollows(sys: System, next: System)
    requires LeaseOk(sys) && next.ttl == sys.ttl
    requires next.st.active == sys.st.active ==>
      next.st.expiresAt == sys.st.expiresAt && forall t :: t in next.flights ==> t in sys.flights && next.flights[t].refreshedAt == sys.flights[t].refreshedAt
    requires next.st.active != sys.st.active ==>
      forall t :: t in next.flights && next.st.active == Some(t) ==> next.st.expiresAt == Some(next.flights[t].refreshedAt + sys.ttl)
    ensures LeaseOk(next)
  {
  }

  lemma {:induction false} LeaseResumed(sys: System, token: Token)
    requires TokensOk(sys) && LeaseOk(sys)
    ensures LeaseOk(StepResume(sys, token))
  {
    hide Pointed;
  }

  lemma {:induction false} LeaseBegun(
      sys: System, seen: Option<Submission>, session: Session, submission: SubmissionId, request: string)
    requires TokensOk(sys) && LeaseOk(sys)
    ensures LeaseOk(StepBegin(sys, seen, session, submission, request))
  {
    hide Pointed, MaxEpoch;
    var next := StepBegin(sys, seen, session, submission, request);
    if next.st.active == sys.st.active { LeaseFollows(sys, next); }
  }

  lemma {:induction false} LeaseKept(sys: System, step: Step)
    requires TokensOk(sys) && LeaseOk(sys)
    ensures LeaseOk(Next(sys, step))
  {
    hide LeaseOk, TokensOk, Pointed, StepBegin, StepResume;
    match step
    case Begin(seen, session, submission, request) => LeaseBegun(sys, seen, session, submission, request);
    case Resume(token) => LeaseResumed(sys, token);
    case _ => LeaseFollows(sys, Next(sys, step));
  }

  lemma {:induction false} TranscriptExtends(log: seq<Write>, w: Write)
    ensures Transcript(log + [w]) == Applied(Transcript(log), w)
    ensures forall i :: 0 <= i <= |log| ==> (log + [w])[..i] == log[..i]
  {
    assert (log + [w])[..|log|] == log;
  }

  /** A write extends the history and bumps the version; what was read before stays what was read. */
  lemma {:induction false} SerialExtended(sys: System, next: System, w: Write)
    requires SerialOk(sys) && next.log == sys.log + [w] && next.st.turns == Applied(sys.st.turns, w) && next.st.version > sys.st.version
    requires forall t :: t in next.flights ==> t in sys.flights && next.flights[t] == sys.flights[t]
    requires w.TurnWrite? ==> w.seen == sys.st.turns
    ensures SerialOk(next)
  {
    TranscriptExtends(sys.log, w);
    hide Transcript, Applied;
    forall i | 0 <= i < |next.log|
      ensures WriteSerial(next.log, i)
    {
      if i < |sys.log| { assert WriteSerial(sys.log, i); }
    }
    forall t | t in next.flights ensures FlightSerial(next, next.flights[t]) { assert FlightSerial(sys, sys.flights[t]); }
  }

  lemma {:induction false} SerialSame(sys: System, next: System)
    requires SerialOk(sys) && next.log == sys.log && next.st.turns == sys.st.turns && next.st.version == sys.st.version
    requires forall t :: t in next.flights ==>
      || (t in sys.flights && next.flights[t].(refreshedAt := 0) == sys.flights[t].(refreshedAt := 0))
      || (next.flights[t].startedAt == |sys.log| && next.flights[t].snapshot == sys.st.turns && next.flights[t].r.version == sys.st.version)
    ensures SerialOk(next)
  {
    hide Transcript;
    assert sys.log[..|sys.log|] == sys.log;
    forall t | t in next.flights
      ensures FlightSerial(next, next.flights[t])
    {
      if t in sys.flights { assert FlightSerial(sys, sys.flights[t]); }
    }
  }

  /** A turn that commits has read the whole history there is. */
  lemma {:induction false} CommitSawEverything(sys: System, token: Token, o: Outcome)
    requires SerialOk(sys) && token in sys.flights
    requires var f := sys.flights[token]; CommitPhaseB(sys.st, f.r, f.submission, f.request, o).Ok?
    ensures sys.flights[token].startedAt == |sys.log| && sys.flights[token].snapshot == sys.st.turns
  {
    assert FlightSerial(sys, sys.flights[token]);
    assert sys.log[..|sys.log|] == sys.log;
  }

  lemma {:induction false} FinishKeepsSerial(sys: System, token: Token, o: Outcome)
    requires SerialOk(sys)
    ensures SerialOk(StepFinish(sys, token, o))
  {
    hide SerialOk, Transcript, Pair, Pointed, StillOurs;
    var next := StepFinish(sys, token, o);
    if token in sys.flights && CommitPhaseB(sys.st, sys.flights[token].r, sys.flights[token].submission, sys.flights[token].request, o).Ok? {
      var f := sys.flights[token];
      CommitSawEverything(sys, token, o);
      SerialExtended(sys, next, TurnWrite(token, f.submission, f.snapshot, Pair(f.r, o, sys.st.nextId)));
    } else {
      SerialSame(sys, next);
    }
  }

  lemma {:induction false} BeginKeepsSerial(
      sys: System, seen: Option<Submission>, session: Session, submission: SubmissionId, request: string)
    requires SerialOk(sys)
    ensures SerialOk(StepBegin(sys, seen, session, submission, request))
  {
    hide SerialOk, Transcript, Pointed, MaxEpoch, ClaimCheck;
    SerialSame(sys, StepBegin(sys, seen, session, submission, request));
  }

  lemma {:induction false} DraftWritesKeepSerial(
      sys: System, session: Session, draft: DraftId, payload: nat, acceptable: bool)
    requires SerialOk(sys)
    ensures SerialOk(StepRevise(sys, session, draft, payload)) && SerialOk(StepConfirm(sys, session, draft, acceptable))
  {
    hide SerialOk, Transcript, Pointed, HasPayload;
    if DraftIsPending(sys.st, session, draft) { SerialExtended(sys, StepRevise(sys, session, draft, payload), ReviseWrite(draft, payload)); }
    if Confirm(sys.st, session, draft, acceptable).0.Confirmed? { SerialExtended(sys, StepConfirm(sys, session, draft, acceptable), ConsumeWrite(draft)); }
  }

  lemma {:induction false} SerialKept(sys: System, step: Step)
    requires SerialOk(sys)
    ensures SerialOk(Next(sys, step))
  {
    hide SerialOk, Transcript, StepBegin, StepFinish, StepRevise, StepConfirm, Pointed;
    var next := Next(sys, step);
    match step
    case Begin(seen, s, submission, request) => BeginKeepsSerial(sys, seen, s, submission, request);
    case Finish(token, o) => FinishKeepsSerial(sys, token, o);
    case Revise(s, draft, payload) => DraftWritesKeepSerial(sys, s, draft, payload, false);
    case ConfirmIt(s, draft, acceptable) => DraftWritesKeepSerial(sys, s, draft, 0, acceptable);
    case _ =>
      SerialSame(sys, next);
  }

  // ------------------------------------------------------------------ submissions

  /** Without a write the completed rows stay completed and no row becomes so. */
  lemma {:induction false} SubmissionsSame(sys: System, next: System)
    requires SubmissionsOk(sys) && next.log == sys.log && next.st.nextId >= sys.st.nextId
    requires forall id :: id in next.st.submissions ==>
      if id in sys.st.submissions then next.st.submissions[id].status == Completed <==> sys.st.submissions[id].status == Completed
      else next.st.submissions[id].status != Completed && sys.st.nextId <= id < next.st.nextId
    ensures SubmissionsOk(next)
  {
    forall id | id in next.st.submissions
      ensures id < next.st.nextId && (next.st.submissions[id].status == Completed <==> Wrote(next.log, id))
    {
    }
  }

  lemma {:induction false} WroteExtends(log: seq<Write>, w: Write, id: SubmissionId)
    ensures Wrote(log + [w], id) <==> Wrote(log, id) || (w.TurnWrite? && w.submission == id)
  {
    var longer := log + [w];
    if i :| 0 <= i < |log| && log[i].TurnWrite? && log[i].submission == id {
      assert longer[i] == log[i];
    }
    assert longer[|log|] == w;
  }

  lemma {:induction false} SubmissionsWritten(sys: System, next: System, w: Write)
    requires SubmissionsOk(sys) && next.log == sys.log + [w] && next.st.nextId >= sys.st.nextId
    requires if w.TurnWrite? then
        && w.submission in sys.st.submissions && sys.st.submissions[w.submission].status != Completed
        && next.st.submissions.Keys == sys.st.submissions.Keys && next.st.submissions[w.submission].status == Completed
        && forall id :: id in sys.st.submissions && id != w.submission ==> next.st.submissions[id] == sys.st.submissions[id]
      else next.st.submissions == sys.st.submissions
    ensures SubmissionsOk(next)
  {
    if w.TurnWrite? { assert !Wrote(sys.log, w.submission); }
    forall id | id in next.st.submissions
      ensures id < next.st.nextId && (next.st.submissions[id].status == Completed <==> Wrote(next.log, id))
    {
      WroteExtends(sys.log, w, id);
    }
  }

  lemma {:induction false} FinishKeepsSubmissions(sys: System, token: Token, o: Outcome)
    requires SubmissionsOk(sys)
    ensures SubmissionsOk(StepFinish(sys, token, o))
  {
    hide SubmissionsOk, Wrote, Pair, Bounded, Pointed;
    var next := StepFinish(sys, token, o);
    if token in sys.flights && CommitPhaseB(sys.st, sys.flights[token].r, sys.flights[token].submission, sys.flights[token].request, o).Ok? {
      var f := sys.flights[token];
      SubmissionsWritten(sys, next, TurnWrite(token, f.submission, f.snapshot, Pair(f.r, o, sys.st.nextId)));
    } else {
      SubmissionsSame(sys, next);
    }
  }

  lemma {:induction false} BeginKeepsSubmissions(
      sys: System, seen: Option<Submission>, session: Session, submission: SubmissionId, request: string)
    requires SubmissionsOk(sys)
    ensures SubmissionsOk(StepBegin(sys, seen, session, submission, request))
  {
    hide SubmissionsOk, Wrote, Pointed, MaxEpoch;
    SubmissionsSame(sys, StepBegin(sys, seen, session, submission, request));
  }

  lemma {:induction false} DraftWritesKeepSubmissions(
      sys: System, session: Session, draft: DraftId, payload: nat, acceptable: bool)
    requires SubmissionsOk(sys)
    ensures SubmissionsOk(StepRevise(sys, session, draft, payload)) && SubmissionsOk(StepConfirm(sys, session, draft, acceptable))
  {
    hide SubmissionsOk, Wrote, Pointed, Revised, Consumed;
    if DraftIsPending(sys.st, session, draft) { SubmissionsWritten(sys, StepRevise(sys, session, draft, payload), ReviseWrite(draft, payload)); }
    if Confirm(sys.st, session, draft, acceptable).0.Confirmed? { SubmissionsWritten(sys, StepConfirm(sys, session, draft, acceptable), ConsumeWrite(draft)); }
  }

  lemma {:induction false} SubmissionsKept(sys: System, step: Step)
    requires SubmissionsOk(sys)
    ensures SubmissionsOk(Next(sys, step))
  {
    hide SubmissionsOk, Wrote, StepBegin, StepFinish, StepRevise, StepConfirm, Pointed;
    var next := Next(sys, step);
    match step
    case Begin(seen, s, submission, request) => BeginKeepsSubmissions(sys, seen, s, submission, request);
    case Finish(token, o) => FinishKeepsSubmissions(sys, token, o);
    case Revise(s, draft, payload) => DraftWritesKeepSubmissions(sys, s, draft, payload, false);
    case ConfirmIt(s, draft, acceptable) => DraftWritesKeepSubmissions(sys, s, draft, 0, acceptable);
    case IssueId(s, retired) =>
      assert sys.st.nextId !in sys.st.submissions by { IdsBelow(sys); }
      SubmissionsSame(sys, next);
    case _ =>
      SubmissionsSame(sys, next);
  }

  lemma {:induction false} IdsBelow(sys: System)
    requires SubmissionsOk(sys)
    ensures forall id :: id in sys.st.submissions ==> id < sys.st.nextId
  {
  }

  // ------------------------------------------------------------------ drafts and confirmations

  /** At most one session's pointer moves, and only to nothing or to a new id. */
  ghost predicate PointersMove(sys: System, next: System) {
    && next.left == sys.left + (Pointed(sys.st) - Pointed(next.st)) && next.st.nextId >= sys.st.nextId
    && exists s, d :: Moved(sys, next, s, d)
  }

  ghost predicate Moved(sys: System, next: System, s: Session, d: Option<DraftId>) {
    && (d.Some? ==> sys.st.nextId <= d.value < next.st.nextId || (s in sys.st.contexts && sys.st.contexts[s].draft == d))
    && forall t :: t in next.st.contexts ==>
         if t == s then next.st.contexts[t].draft == d
         else t in sys.st.contexts && next.st.contexts[t].draft == sys.st.contexts[t].draft
  }

  lemma {:induction false} DraftsMoved(sys: System, next: System)
    requires DraftsOk(sys) && PointersMove(sys, next)
    ensures DraftsOk(next)
  {
    var s, d :| Moved(sys, next, s, d);
    forall t | t in next.st.contexts && next.st.contexts[t].draft.Some?
      ensures next.st.contexts[t].draft.value < next.st.nextId && next.st.contexts[t].draft.value !in next.left
    {
      assert next.st.contexts[t].draft.value in Pointed(next.st);
    }
    forall x | x in next.left
      ensures x < next.st.nextId
    {
      if x !in sys.left {
        var t :| t in sys.st.contexts && sys.st.contexts[t].draft == Some(x);
      }
    }
  }

  /** At most `session` appears, and with nothing pending. */
  lemma {:induction false} PointersStay(sys: System, next: System, session: Session)
    requires next.st.contexts.Keys == sys.st.contexts.Keys || next.st.contexts.Keys == sys.st.contexts.Keys + {session}
    requires forall t :: t in sys.st.contexts ==> next.st.contexts[t].draft == sys.st.contexts[t].draft
    requires session in next.st.contexts && session !in sys.st.contexts ==> next.st.contexts[session].draft == None
    requires next.left == sys.left + (Pointed(sys.st) - Pointed(next.st)) && next.st.nextId >= sys.st.nextId
    ensures PointersMove(sys, next)
  {
    assert Moved(sys, next, session, if session in sys.st.contexts then sys.st.contexts[session].draft else None);
  }

  lemma {:induction false} NothingLeft(sys: System, next: System)
    requires next.st.contexts == sys.st.contexts && next.left == sys.left
    ensures next.left == sys.left + (Pointed(sys.st) - Pointed(next.st))
  {
  }

  lemma {:induction false} FinishKeepsDrafts(sys: System, token: Token, o: Outcome)
    requires DraftsOk(sys)
    ensures DraftsOk(StepFinish(sys, token, o))
  {
    hide DraftsOk, Pointed, StillOurs;
    var next := StepFinish(sys, token, o);
    if token in sys.flights && CommitPhaseB(sys.st, sys.flights[token].r, sys.flights[token].submission, sys.flights[token].request, o).Ok? {
      var session := sys.flights[token].r.session;
      assert Moved(sys, next, session, next.st.contexts[session].draft);
      DraftsMoved(sys, next);
    }
  }

  lemma {:induction false} BeginKeepsDrafts(
      sys: System, seen: Option<Submission>, session: Session, submission: SubmissionId, request: string)
    requires DraftsOk(sys)
    ensures DraftsOk(StepBegin(sys, seen, session, submission, request))
  {
    hide DraftsOk, Pointed, ClaimCheck, MaxEpoch;
    var next := StepBegin(sys, seen, session, submission, request);
    PointersStay(sys, next, session);
    DraftsMoved(sys, next);
  }

  lemma {:induction false} DraftsKept(sys: System, step: Step)
    requires DraftsOk(sys)
    ensures DraftsOk(Next(sys, step))
  {
    hide DraftsOk, Pointed, StepBegin, StepFinish, StillOurs, HasPayload, ClaimCheck, MaxEpoch, Revised, Consumed;
    var next := Next(sys, step);
    match step
    case Finish(token, o) => FinishKeepsDrafts(sys, token, o);
    case ConfirmIt(s, draft, acceptable) =>
      if Confirm(sys.st, s, draft, acceptable).0.Confirmed? {
        assert Moved(sys, next, s, None);
        DraftsMoved(sys, next);
      }
    case Begin(seen, session, submission, request) => BeginKeepsDrafts(sys, seen, session, submission, request);
    case Crash(token) =>
      SameDrafts(sys, next);
    case _ =>
      if next.left == sys.left { NothingLeft(sys, next); }
      PointersStay(sys, next, 0);
      DraftsMoved(sys, next);
  }

  lemma {:induction false} SameDrafts(sys: System, next: System)
    requires DraftsOk(sys) && next.st == sys.st && next.left == sys.left
    ensures DraftsOk(next)
  {
  }

  /** A draft that is confirmed stops being pending for good. */
  lemma {:induction false} ConfirmedDraftLeaves(sys: System, session: Session, draft: DraftId, acceptable: bool)
    requires DraftsOk(sys) && Confirm(sys.st, session, draft, acceptable).0.Confirmed?
    ensures draft !in sys.left && draft in Next(sys, ConfirmIt(session, draft, acceptable)).left
  {
    var next := Next(sys, ConfirmIt(session, draft, acceptable));
    assert draft in Pointed(sys.st);
    assert draft !in Pointed(next.st);
  }

  lemma {:induction false} ConfirmWrites(sys: System, session: Session, draft: DraftId, acceptable: bool)
    requires Confirm(sys.st, session, draft, acceptable).0.Confirmed?
    ensures var next := Next(sys, ConfirmIt(session, draft, acceptable));
      && next.st.confirmations == sys.st.confirmations[(session, draft) := Confirmation(sys.st.nextId, sys.st.nextId + 1)]
      && next.st.nextId == sys.st.nextId + 2 && sys.left <= next.left
  {
    hide Pointed, Consumed, HasPayload;
  }

  lemma {:induction false} ConfirmationsKept(sys: System, step: Step)
    requires DraftsOk(sys) && ConfirmationsOk(sys)
    ensures ConfirmationsOk(Next(sys, step))
  {
    hide DraftsOk, Next, Confirm;
    if step.ConfirmIt? && Confirm(sys.st, step.session, step.draft, step.acceptable).0.Confirmed? {
      ConfirmedDraftLeaves(sys, step.session, step.draft, step.acceptable);
      ConfirmWrites(sys, step.session, step.draft, step.acceptable);
    } else {
      ConfirmationsStay(sys, step);
    }
  }

  /** Nothing but a confirmation writes a confirmation; ids only grow and drafts only leave. */
  lemma {:induction false} ConfirmationsStay(sys: System, step: Step)
    requires !(step.ConfirmIt? && Confirm(sys.st, step.session, step.draft, step.acceptable).0.Confirmed?)
    ensures Next(sys, step).st.confirmations == sys.st.confirmations && sys.st.nextId <= Next(sys, step).st.nextId && sys.left <= Next(sys, step).left
  {
    hide Pointed, StepBegin, StepFinish, StepRevise, StepConfirm, MaxEpoch, MayRetire;
    match step
    case Begin(seen, session, submission, request) => BeginConfirmsNothing(sys, seen, session, submission, request);
    case Finish(token, o) => FinishConfirmsNothing(sys, token, o);
    case Revise(session, draft, payload) => WritesConfirmNothing(sys, session, draft, payload, false);
    case ConfirmIt(session, draft, acceptable) => WritesConfirmNothing(sys, session, draft, 0, acceptable);
    case _ =>
  }

  /** No confirmation changes, ids only grow, and so does the set of drafts that have left. */
  predicate ConfirmsNothing(sys: System, next: System) {
    next.st.confirmations == sys.st.confirmations && sys.st.nextId <= next.st.nextId && sys.left <= next.left
  }

  lemma {:induction false} BeginConfirmsNothing(
      sys: System, seen: Option<Submission>, session: Session, submission: SubmissionId, request: string)
    ensures ConfirmsNothing(sys, StepBegin(sys, seen, session, submission, request))
  {
    hide Pointed, MaxEpoch, ClaimCheck;
  }

  lemma {:induction false} FinishConfirmsNothing(sys: System, token: Token, o: Outcome)
    ensures ConfirmsNothing(sys, StepFinish(sys, token, o))
  {
    hide Pointed, Bounded, Pair, Staleness, StillOurs;
  }

  lemma {:induction false} WritesConfirmNothing(
      sys: System, session: Session, draft: DraftId, payload: nat, acceptable: bool)
    ensures ConfirmsNothing(sys, StepRevise(sys, session, draft, payload))
    ensures !Confirm(sys.st, session, draft, acceptable).0.Confirmed? ==> ConfirmsNothing(sys, StepConfirm(sys, session, draft, acceptable))
  {
    hide Pointed, Revised, Consumed, HasPayload;
  }

  lemma {:induction false} InvKept(sys: System, step: Step)
    requires Inv(sys)
    ensures Inv(Next(sys, step))
  {
    hide TokensOk, SerialOk, SubmissionsOk, DraftsOk, ConfirmationsOk, LeaseOk, Next;
    TokensKept(sys, step);
    SerialKept(sys, step);
    SubmissionsKept(sys, step);
    DraftsKept(sys, step);
    ConfirmationsKept(sys, step);
    LeaseKept(sys, step);
  }

  lemma {:induction false} RunKeepsInv(sys: System, steps: seq<Step>)
    requires Inv(sys)
    ensures Inv(RunAll(sys, steps))
  {
    hide Inv, Next;
    if steps != [] {
      RunKeepsInv(sys, steps[..|steps| - 1]);
      InvKept(RunAll(sys, steps[..|steps| - 1]), steps[|steps| - 1]);
    }
  }
}
