/**
 The shared rows of one conversation and the short transactions that read and write them
 (`agent/turn_boundary.py`, `application/conversations.py`, `application/drafts.py` and their
 repositories). Each transaction below runs under the conversation's row lock, so it is one step.

 A uuid is a number never handed out before. A hash stands for the request it was computed from.
 */
module TurnStore {
  import opened Wrappers

  type Token = nat
  type Session = nat
  type DraftId = nat
  type SubmissionId = nat

  const MAX_PERSISTED_TURNS := 100
  const SUBMISSION_TTL := 86400
  const RETIRE_BATCH := 20

  /** One transcript entry; only assistant entries carry a draft or a confirmation. */
  datatype Entry = Entry(author: Token, fromAssistant: bool, text: string, draft: Option<DraftId>, payload: nat, confirmed: Option<DraftId>)

  /** One browser session's live pointers into the conversation. */
  datatype Context = Context(id: nat, epoch: nat, resultSet: Option<nat>, draft: Option<DraftId>, clarification: Option<nat>)

  datatype Status = Issued | Processing | Completed | Abandoned

  datatype Submission = Submission(
    session: Session, epoch: nat, status: Status, request: Option<string>, reservation: Option<Token>,
    lease: Option<int>, expiresAt: int, completedVersion: Option<nat>)

  datatype Confirmation = Confirmation(job: nat, criteriaVersion: nat)

  datatype Store = Store(
    now: int, turns: seq<Entry>, version: nat, active: Option<Token>, expiresAt: Option<int>,
    contexts: map<Session, Context>, submissions: map<SubmissionId, Submission>,
    confirmations: map<(Session, DraftId), Confirmation>,
    ownerActive: bool, liveSessions: set<Session>, nextId: nat)

  /** What Phase B re-checks: everything the turn was reserved under (`TurnReservation`). */
  datatype Reservation = Reservation(token: Token, session: Session, version: nat, context: Context)

  datatype StaleReason = PrincipalRevoked | ReservationLost | ConversationChanged | ContextChanged

  // ------------------------------------------------------------------ the transcript

  function Bounded(turns: seq<Entry>): seq<Entry> {
    if |turns| <= MAX_PERSISTED_TURNS then turns else turns[|turns| - MAX_PERSISTED_TURNS..]
  }

  function Revised(turns: seq<Entry>, draft: DraftId, payload: nat): (r: seq<Entry>)
    ensures |r| == |turns|
  {
    seq(|turns|, i requires 0 <= i < |turns| => if turns[i].draft == Some(draft) then turns[i].(payload := payload) else turns[i])
  }

  function Consumed(turns: seq<Entry>, draft: DraftId): (r: seq<Entry>)
    ensures |r| == |turns|
  {
    seq(|turns|, i requires 0 <= i < |turns| => if turns[i].draft == Some(draft) then turns[i].(draft := None, confirmed := Some(draft)) else turns[i])
  }

  predicate HasPayload(turns: seq<Entry>, draft: DraftId) {
    exists i :: 0 <= i < |turns| && turns[i].draft == Some(draft)
  }

  // ------------------------------------------------------------------ Phase A: reserve and claim

  predicate ReservationIsLive(st: Store) {
    st.active.Some? && st.expiresAt.Some? && st.expiresAt.value > st.now
  }

  /** The highest epoch any context of the conversation has used; 0 when there is none. */
  ghost predicate IsMaxEpoch(contexts: map<Session, Context>, m: nat) {
    && (forall s :: s in contexts ==> contexts[s].epoch <= m)
    && (m == 0 || exists s :: s in contexts && contexts[s].epoch == m)
  }

  lemma {:induction false} MaxEpochIsUnique(contexts: map<Session, Context>, m: nat, n: nat)
    requires IsMaxEpoch(contexts, m) && IsMaxEpoch(contexts, n)
    ensures m == n
  {
  }

  lemma {:induction false} MaxEpochExists(contexts: map<Session, Context>)
    ensures exists m: nat :: IsMaxEpoch(contexts, m)
  {
    var m := FindMaxEpoch(contexts);
    assert IsMaxEpoch(contexts, m);
  }

  lemma {:induction false} FindMaxEpoch(contexts: map<Session, Context>) returns (m: nat)
    ensures IsMaxEpoch(contexts, m)
    decreases |contexts|
  {
    if contexts == map[] {
      m := 0;
    } else {
      var s :| s in contexts;
      var rest := contexts - {s};
      assert |rest.Keys| < |contexts.Keys| by { assert rest.Keys == contexts.Keys - {s}; }
      m := FindMaxEpoch(rest);
      assert forall t :: t in contexts ==> t == s || t in rest;
      if contexts[s].epoch > m {
        m := contexts[s].epoch;
      } else if m > 0 {
        var t :| t in rest && rest[t].epoch == m;
        assert t in contexts && contexts[t].epoch == m;
      }
    }
  }

  ghost function MaxEpoch(contexts: map<Session, Context>): (m: nat)
    ensures IsMaxEpoch(contexts, m)
  {
    MaxEpochExists(contexts);
    var m: nat :| IsMaxEpoch(contexts, m);
    m
  }

  /** `get_or_create_session_context`: a new session starts clean, one epoch past every other. */
  ghost function ContextFor(st: Store, session: Session): (c: Context)
    ensures session in st.contexts ==> c == st.contexts[session]
  {
    if session in st.contexts then st.contexts[session] else Context(st.nextId, MaxEpoch(st.contexts) + 1, None, None, None)
  }

  datatype ReserveError = OwnerInactive | TurnInProgress

  /** `reserve_agent_turn`. */
  ghost function Reserve(st: Store, session: Session, ttl: nat): Result<(Reservation, Store), ReserveError> {
    if !st.ownerActive then Err(OwnerInactive)
    else if ReservationIsLive(st) then Err(TurnInProgress)
    else
      var context := ContextFor(st, session);
      var token := st.nextId + 1;
      Ok((Reservation(token, session, st.version, context),
          st.(contexts := st.contexts[session := context], active := Some(token), expiresAt := Some(st.now + ttl), nextId := st.nextId + 2)))
  }

  datatype ClaimOutcome = Claimed | Mismatch | AlreadyCompleted | InvalidClaim | StillProcessing

  /** `claim_submission`, the checks. */
  function ClaimCheck(now: int, row: Submission, epoch: nat, request: string): ClaimOutcome {
    if row.request.Some? && row.request.value != request then Mismatch
    else if row.status == Completed then AlreadyCompleted
    else if row.expiresAt <= now || row.epoch != epoch then InvalidClaim
    else if row.status == Processing && row.lease.Some? && row.lease.value > now then StillProcessing
    else if row.status != Issued && row.status != Processing then InvalidClaim
    else Claimed
  }

  function ClaimedRow(row: Submission, token: Token, request: string, leaseUntil: int): Submission {
    row.(status := Processing, request := Some(request), reservation := Some(token), lease := Some(leaseUntil))
  }

  datatype PhaseAResult = Started(reservation: Reservation) | Replayed | NotFound | InProgress | Revoked

  /** `get_bound_submission`: only the session that was issued the id sees the row. */
  predicate IsBound(st: Store, submission: SubmissionId, session: Session) {
    submission in st.submissions && st.submissions[submission].session == session
  }

  /** The unlocked checks that `submit_conversation_turn` makes first, on a row it has read earlier. */
  function EarlyAnswer(seen: Option<Submission>, now: int, request: string): Option<PhaseAResult> {
    if seen.None? || seen.value.expiresAt <= now then Some(NotFound)
    else if seen.value.request.Some? && seen.value.request.value != request then Some(NotFound)
    else if seen.value.status == Completed then Some(Replayed)
    else if seen.value.status == Processing && seen.value.lease.Some? && seen.value.lease.value > now then Some(InProgress)
    else None
  }

  /** A submission that found the conversation busy is spent if it was never used. */
  function RetireUnused(st: Store, submission: SubmissionId, session: Session): Store {
    if IsBound(st, submission, session) && st.submissions[submission].status == Issued then
      st.(submissions := st.submissions[submission := st.submissions[submission].(status := Abandoned)])
    else st
  }

  /**
   Phase A of `submit_conversation_turn`. `seen` is whatever the earlier unlocked read returned; nothing
   proved below depends on it. Every refusal but one rolls back.
   */
  ghost function PhaseA(
      st: Store, seen: Option<Submission>, session: Session, submission: SubmissionId, request: string, ttl: nat): (PhaseAResult, Store)
  {
    var early := EarlyAnswer(seen, st.now, request);
    if early.Some? then (early.value, st)
    else
      match Reserve(st, session, ttl)
      case Err(OwnerInactive) => (Revoked, st)
      case Err(TurnInProgress) => (InProgress, RetireUnused(st, submission, session))
      case Ok((reservation, reserved)) =>
        if !IsBound(st, submission, session) then (NotFound, st)
        else
          var row := st.submissions[submission];
          match ClaimCheck(st.now, row, reservation.context.epoch, request)
          case Claimed =>
            (Started(reservation),
             reserved.(submissions := st.submissions[submission := ClaimedRow(row, reservation.token, request, st.now + ttl)]))
          case AlreadyCompleted => (Replayed, st)
          case _ => (NotFound, st)
  }

  // ------------------------------------------------------------------ re-entry and Phase B

  predicate PrincipalIsLive(st: Store, session: Session) {
    st.ownerActive && session in st.liveSessions
  }

  /** `revalidate_reserved_turn`: the first authority that no longer holds, in the order they are checked. */
  function Staleness(st: Store, r: Reservation): Option<StaleReason> {
    if !PrincipalIsLive(st, r.session) then Some(PrincipalRevoked)
    else if st.active != Some(r.token) then Some(ReservationLost)
    else if st.version != r.version then Some(ConversationChanged)
    else if r.session !in st.contexts || st.contexts[r.session] != r.context then Some(ContextChanged)
    else None
  }

  function Refreshed(st: Store, ttl: nat): Store {
    st.(expiresAt := Some(st.now + ttl))
  }

  function Reenter(st: Store, r: Reservation, ttl: nat): Result<Store, StaleReason> {
    var stale := Staleness(st, r);
    if stale.Some? then Err(stale.value) else Ok(Refreshed(st, ttl))
  }

  /** What the turn produced, to be persisted in Phase B. */
  datatype Outcome = Outcome(
    userText: string, assistantText: string, headline: string, newDraft: bool, payload: nat,
    resultSet: Option<nat>, clarification: Option<nat>)

  function UserEntry(r: Reservation, o: Outcome): Entry {
    Entry(r.token, false, o.userText, None, 0, None)
  }

  /** The assistant entry, with the text HR was actually shown when there is one. */
  function AssistantEntry(r: Reservation, o: Outcome, draft: DraftId): Entry {
    Entry(r.token, true, if o.headline == "" then o.assistantText else o.headline,
          if o.newDraft then Some(draft) else None, if o.newDraft then o.payload else 0, None)
  }

  function Pair(r: Reservation, o: Outcome, draft: DraftId): seq<Entry> {
    [UserEntry(r, o), AssistantEntry(r, o, draft)]
  }

  /** The submission row still belongs to this turn. */
  predicate StillOurs(st: Store, r: Reservation, submission: SubmissionId, request: string) {
    && IsBound(st, submission, r.session)
    && st.submissions[submission].status == Processing
    && st.submissions[submission].reservation == Some(r.token)
    && st.submissions[submission].request == Some(request)
  }

  /** Saving the pair bumps the version once; replacing the assistant text bumps it again. */
  function VersionAfter(version: nat, o: Outcome): nat {
    if o.headline == "" then version + 1 else version + 2
  }

  /**
   Phase B: revalidate, append the pair to the current transcript, move this session's pointers, clear
   the reservation and complete the submission, all in one commit. The draft pointer is the reserved
   one or a new id.
   */
  function CommitPhaseB(
      st: Store, r: Reservation, submission: SubmissionId, request: string, o: Outcome): Result<Store, StaleReason>
  {
    var stale := Staleness(st, r);
    if stale.Some? then Err(stale.value)
    else if !StillOurs(st, r, submission, request) then Err(ContextChanged)
    else
      var draft := st.nextId;
      var version := VersionAfter(st.version, o);
      var context := r.context.(
        resultSet := o.resultSet, draft := if o.newDraft then Some(draft) else r.context.draft, clarification := o.clarification);
      var row := st.submissions[submission];
      Ok(st.(
        turns := Bounded(st.turns + Pair(r, o, draft)), version := version, active := None, expiresAt := None,
        contexts := st.contexts[r.session := context],
        submissions := st.submissions[submission := row.(status := Completed, completedVersion := Some(version), lease := None)],
        nextId := st.nextId + 1))
  }

  /** `abandon_reserved_turn`: clear only one's own reservation and retire only one's own claim. */
  function Abandon(st: Store, r: Reservation, submission: SubmissionId): Store {
    var cleared := if st.active == Some(r.token) then st.(active := None, expiresAt := None) else st;
    if submission in st.submissions && st.submissions[submission].status == Processing
       && st.submissions[submission].reservation == Some(r.token) then
      cleared.(submissions := st.submissions[submission :=
        st.submissions[submission].(status := Abandoned, reservation := None, lease := None)])
    else cleared
  }

  // ------------------------------------------------------------------ submissions

  /** A row that cleanup may delete: expired, and not part of a turn that may still be running. */
  predicate Collectible(st: Store, row: Submission) {
    && row.expiresAt < st.now
    && (row.status != Processing
        || (&& row.lease.Some? && row.lease.value < st.now
            && (st.active.None? || st.active != row.reservation || (st.expiresAt.Some? && st.expiresAt.value < st.now))))
  }

  predicate MayRetire(st: Store, retired: set<SubmissionId>) {
    |retired| <= RETIRE_BATCH && forall s :: s in retired ==> s in st.submissions && Collectible(st, st.submissions[s])
  }

  /** `issue_submission`: delete some dead rows and hand out a new id for this session's epoch. */
  ghost function Issue(st: Store, session: Session, retired: set<SubmissionId>): (SubmissionId, Store) {
    var kept := st.submissions - retired;
    (st.nextId,
     st.(submissions := kept[st.nextId := Submission(session, ContextFor(st, session).epoch, Issued, None, None, None, st.now + SUBMISSION_TTL, None)],
         nextId := st.nextId + 1))
  }

  // ------------------------------------------------------------------ drafts

  /** `resolve_pending_draft_authority`: the session's live pointer and the transcript's payload. */
  predicate DraftIsPending(st: Store, session: Session, draft: DraftId) {
    session in st.contexts && st.contexts[session].draft == Some(draft) && HasPayload(st.turns, draft)
  }

  /** `resolve_draft_review`: the payload of the one active draft is replaced; its id stays. */
  function ReviseDraft(st: Store, session: Session, draft: DraftId, payload: nat): Option<Store> {
    if DraftIsPending(st, session, draft) then Some(st.(turns := Revised(st.turns, draft, payload), version := st.version + 1)) else None
  }

  datatype ConfirmResult = Confirmed(made: Confirmation) | ConfirmReplayed(made: Confirmation) | ConfirmRefused

  /**
   `confirm_job_draft`. `acceptable` stands for every check of the draft itself: open blocking items,
   the proposal's equality with the draft, its provenance and the duplicate-job search.
   */
  function Confirm(st: Store, session: Session, draft: DraftId, acceptable: bool): (ConfirmResult, Store) {
    if !DraftIsPending(st, session, draft) then
      (if (session, draft) in st.confirmations then ConfirmReplayed(st.confirmations[(session, draft)]) else ConfirmRefused, st)
    else if !acceptable || session !in st.liveSessions then (ConfirmRefused, st)
    else
      var made := Confirmation(st.nextId, st.nextId + 1);
      (Confirmed(made),
       st.(turns := Consumed(st.turns, draft), version := st.version + 1,
           contexts := st.contexts[session := st.contexts[session].(draft := None)],
           confirmations := st.confirmations[(session, draft) := made], nextId := st.nextId + 2))
  }

  // ------------------------------------------------------------------ the rows, updated in place

  class ConversationRows {
    var now: int
    var turns: seq<Entry>
    var version: nat
    var active: Option<Token>
    var expiresAt: Option<int>
    var contexts: map<Session, Context>
    var submissions: map<SubmissionId, Submission>
    var confirmations: map<(Session, DraftId), Confirmation>
    var ownerActive: bool
    var liveSessions: set<Session>
    var nextId: nat

    function Snapshot(): (st: Store)
      reads this
    {
      Store(now, turns, version, active, expiresAt, contexts, submissions, confirmations, ownerActive, liveSessions, nextId)
    }

    /** A new conversation of an active owner. */
    constructor (startedAt: int)
      ensures Snapshot() == Store(startedAt, [], 0, None, None, map[], map[], map[], true, {}, 0)
    {
      now, turns, version, active, expiresAt := startedAt, [], 0, None, None;
      contexts, submissions, confirmations := map[], map[], map[];
      ownerActive, liveSessions, nextId := true, {}, 0;
    }

    method NewId() returns (id: nat)
      modifies this`nextId
      ensures id == old(nextId) && nextId == old(nextId) + 1
    {
      id := nextId;
      nextId := nextId + 1;
    }

    method HighestEpoch() returns (m: nat)
      ensures m == MaxEpoch(contexts)
    {
      m := 0;
      var left := contexts.Keys;
      while left != {}
        invariant left <= contexts.Keys
        invariant forall s :: s in contexts && s !in left ==> contexts[s].epoch <= m
        invariant m == 0 || exists s :: s in contexts && contexts[s].epoch == m
        decreases left
      {
        var s :| s in left;
        if contexts[s].epoch > m {
          m := contexts[s].epoch;
        }
        left := left - {s};
      }
      MaxEpochIsUnique(contexts, m, MaxEpoch(contexts));
    }

    /** The reservation part of Phase A, in the caller's transaction. */
    method ReserveTurn(session: Session, ttl: nat) returns (r: Result<Reservation, ReserveError>)
      modifies this
      ensures match Reserve(old(Snapshot()), session, ttl)
        case Ok((reservation, reserved)) => r == Ok(reservation) && Snapshot() == reserved
        case Err(e) => r == Err(e) && Snapshot() == old(Snapshot())
    {
      if !ownerActive {
        return Err(OwnerInactive);
      }
      if active.Some? && expiresAt.Some? && expiresAt.value > now {
        return Err(TurnInProgress);
      }
      var contextId := NewId();
      if session !in contexts {
        var epoch := HighestEpoch();
        contexts := contexts[session := Context(contextId, epoch + 1, None, None, None)];
      }
      assert contexts == old(contexts)[session := ContextFor(old(Snapshot()), session)];
      var token := NewId();
      active, expiresAt := Some(token), Some(now + ttl);
      return Ok(Reservation(token, session, version, contexts[session]));
    }

    /** Phase A of one submitted turn: reserve, claim, and roll everything back unless both succeed. */
    method BeginTurn(
        seen: Option<Submission>, session: Session, submission: SubmissionId, request: string, ttl: nat)
        returns (r: PhaseAResult)
      modifies this
      ensures (r, Snapshot()) == PhaseA(old(Snapshot()), seen, session, submission, request, ttl)
    {
      var early := EarlyAnswer(seen, now, request);
      if early.Some? {
        return early.value;
      }
      var rolledBack := Snapshot();
      var reserved := ReserveTurn(session, ttl);
      if reserved.Err? {
        if reserved.error == OwnerInactive {
          return Revoked;
        }
        if submission in submissions && submissions[submission].session == session && submissions[submission].status == Issued {
          submissions := submissions[submission := submissions[submission].(status := Abandoned)];
        }
        return InProgress;
      }
      var reservation := reserved.value;
      if !IsBound(Snapshot(), submission, session) {
        Restore(rolledBack);
        return NotFound;
      }
      var row := submissions[submission];
      var claim := ClaimCheck(now, row, reservation.context.epoch, request);
      if claim != Claimed {
        Restore(rolledBack);
        return if claim == AlreadyCompleted then Replayed else NotFound;
      }
      submissions := submissions[submission := ClaimedRow(row, reservation.token, request, now + ttl)];
      return Started(reservation);
    }

    /** `rollback`. */
    method Restore(st: Store)
      modifies this
      ensures Snapshot() == st
    {
      now, turns, version, active, expiresAt := st.now, st.turns, st.version, st.active, st.expiresAt;
      contexts, submissions, confirmations := st.contexts, st.submissions, st.confirmations;
      ownerActive, liveSessions, nextId := st.ownerActive, st.liveSessions, st.nextId;
    }

    /** Re-lock and re-validate after an inference gap; success refreshes the reservation. */
    method ReenterTurn(r: Reservation, ttl: nat) returns (stale: Option<StaleReason>)
      modifies this`expiresAt
      ensures match Reenter(old(Snapshot()), r, ttl)
        case Ok(refreshed) => stale == None && Snapshot() == refreshed
        case Err(reason) => stale == Some(reason) && Snapshot() == old(Snapshot())
      ensures stale.None? ==> active == Some(r.token) && version == r.version && r.session in contexts && contexts[r.session] == r.context
    {
      if !ownerActive || r.session !in liveSessions {
        return Some(PrincipalRevoked);
      }
      if active != Some(r.token) {
        return Some(ReservationLost);
      }
      if version != r.version {
        return Some(ConversationChanged);
      }
      if r.session !in contexts || contexts[r.session] != r.context {
        return Some(ContextChanged);
      }
      expiresAt := Some(now + ttl);
      return None;
    }

    /** Phase B of one submitted turn. */
    method FinishTurn(
        r: Reservation, submission: SubmissionId, request: string, o: Outcome, ttl: nat)
        returns (stale: Option<StaleReason>)
      modifies this
      ensures match CommitPhaseB(old(Snapshot()), r, submission, request, o)
        case Ok(committed) => stale == None && Snapshot() == committed
        case Err(reason) => stale == Some(reason) && Snapshot() == old(Snapshot())
    {
      hide Bounded, Pair, VersionAfter, Staleness, StillOurs;
      var rolledBack := Snapshot();
      RefreshKeepsClaim(rolledBack, r, submission, request, ttl);
      stale := ReenterTurn(r, ttl);
      if stale.Some? {
        return;
      }
      if !StillOurs(Snapshot(), r, submission, request) {
        Restore(rolledBack);
        return Some(ContextChanged);
      }
      var draft := NewId();
      AppendPair(r, o, draft);
      contexts := contexts[r.session := r.context.(
        resultSet := o.resultSet, draft := if o.newDraft then Some(draft) else r.context.draft, clarification := o.clarification)];
      active, expiresAt := None, None;
      submissions := submissions[submission :=
        submissions[submission].(status := Completed, completedVersion := Some(version), lease := None)];
    }

    /** `save_conversation_turns`, and the text HR saw in place of the first draft of it. */
    method AppendPair(r: Reservation, o: Outcome, draft: DraftId)
      modifies this`turns, this`version
      ensures turns == Bounded(old(turns) + Pair(r, o, draft)) && version == VersionAfter(old(version), o)
    {
      var assistant := Entry(r.token, true, o.assistantText, if o.newDraft then Some(draft) else None, if o.newDraft then o.payload else 0, None);
      LastTextSynced(turns, UserEntry(r, o), assistant, AssistantEntry(r, o, draft));
      turns := Bounded(turns + [UserEntry(r, o), assistant]);
      version := version + 1;
      if o.headline != "" {
        SyncLastText(o.headline);
      }
    }

    /** `sync_last_turn_display_text`. */
    method SyncLastText(text: string)
      requires turns != [] && turns[|turns| - 1].fromAssistant
      modifies this`turns, this`version
      ensures turns == old(turns)[..|old(turns)| - 1] + [old(turns)[|old(turns)| - 1].(text := text)] && version == old(version) + 1
    {
      var last := turns[|turns| - 1];
      turns := turns[..|turns| - 1] + [last.(text := text)];
      version := version + 1;
    }

    /** Give up a turn that will not commit. */
    method AbandonTurn(r: Reservation, submission: SubmissionId)
      modifies this
      ensures Snapshot() == Abandon(old(Snapshot()), r, submission)
      ensures active != Some(r.token) && (old(active) != Some(r.token) ==> active == old(active) && expiresAt == old(expiresAt))
      ensures forall id :: id in old(submissions) && old(submissions)[id].reservation != Some(r.token) ==>
        id in submissions && submissions[id] == old(submissions)[id]
    {
      if active == Some(r.token) {
        active, expiresAt := None, None;
      }
      if submission in submissions && submissions[submission].status == Processing && submissions[submission].reservation == Some(r.token) {
        submissions := submissions[submission := submissions[submission].(status := Abandoned, reservation := None, lease := None)];
      }
    }

    method IssueSubmission(session: Session, retired: set<SubmissionId>) returns (id: SubmissionId)
      requires MayRetire(Snapshot(), retired)
      modifies this
      ensures (id, Snapshot()) == Issue(old(Snapshot()), session, retired)
    {
      submissions := submissions - retired;
      var epoch;
      if session in contexts {
        epoch := contexts[session].epoch;
      } else {
        epoch := HighestEpoch();
        epoch := epoch + 1;
      }
      id := NewId();
      submissions := submissions[id := Submission(session, epoch, Issued, None, None, None, now + SUBMISSION_TTL, None)];
    }

    method ResolveDraft(session: Session, draft: DraftId, payload: nat) returns (done: bool)
      modifies this`turns, this`version
      ensures match ReviseDraft(old(Snapshot()), session, draft, payload)
        case Some(revised) => done && Snapshot() == revised
        case None => !done && Snapshot() == old(Snapshot())
      ensures done ==> DraftIsPending(Snapshot(), session, draft)
      ensures |turns| == |old(turns)| && forall i :: 0 <= i < |turns| && turns[i].draft != Some(draft) ==> turns[i] == old(turns)[i]
    {
      if !DraftIsPending(Snapshot(), session, draft) {
        return false;
      }
      RevisedKeepsPayload(turns, draft, payload);
      turns := Revised(turns, draft, payload);
      version := version + 1;
      return true;
    }

    method ConfirmDraft(session: Session, draft: DraftId, acceptable: bool) returns (r: ConfirmResult)
      modifies this
      ensures (r, Snapshot()) == Confirm(old(Snapshot()), session, draft, acceptable)
      ensures forall k :: k in old(confirmations) && (r.Confirmed? ==> k != (session, draft)) ==>
        k in confirmations && confirmations[k] == old(confirmations)[k]
      ensures r.Confirmed? ==> !HasPayload(turns, draft) && !DraftIsPending(Snapshot(), session, draft)
    {
      if !DraftIsPending(Snapshot(), session, draft) {
        return if (session, draft) in confirmations then ConfirmReplayed(confirmations[(session, draft)]) else ConfirmRefused;
      }
      if !acceptable || session !in liveSessions {
        return ConfirmRefused;
      }
      var job := NewId();
      var criteriaVersion := NewId();
      var made := Confirmation(job, criteriaVersion);
      confirmations := confirmations[(session, draft) := made];
      turns := Consumed(turns, draft);
      version := version + 1;
      contexts := contexts[session := contexts[session].(draft := None)];
      return Confirmed(made);
    }
  }

  lemma {:induction false} RevisedKeepsPayload(turns: seq<Entry>, draft: DraftId, payload: nat)
    ensures HasPayload(Revised(turns, draft, payload), draft) <==> HasPayload(turns, draft)
  {
    if i :| 0 <= i < |turns| && turns[i].draft == Some(draft) {
      assert Revised(turns, draft, payload)[i].draft == Some(draft);
    }
  }

  lemma {:induction false} RefreshKeepsClaim(
      st: Store, r: Reservation, submission: SubmissionId, request: string, ttl: nat)
    ensures StillOurs(Refreshed(st, ttl), r, submission, request) <==> StillOurs(st, r, submission, request)
    ensures StillOurs(st, r, submission, request) ==> submission in st.submissions
  {
  }

  /** Replacing the last text of the bounded list is bounding the list with that text. */
  lemma {:induction false} LastTextSynced(turns: seq<Entry>, user: Entry, assistant: Entry, shown: Entry)
    ensures var bounded := Bounded(turns + [user, assistant]);
      && |bounded| >= 2 && bounded[|bounded| - 1] == assistant
      && bounded[..|bounded| - 1] + [shown] == Bounded(turns + [user, shown])
      && bounded[..|bounded| - 1] + [assistant] == bounded
  {
    var a, b := turns + [user, assistant], turns + [user, shown];
    assert a[..|a| - 1] == b[..|b| - 1];
  }
}
