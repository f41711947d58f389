/**
 What an answer means: which readings of a reply, or which button, lead to which outcome of a live
 question, and what the committed turn writes down about it.
 */
module DialogueAnswers {
  import opened Wrappers
  import opened Dialogue
  import opened DialogueRuns
  import opened DialogueGuarantees

  // ------------------------------------------------------------------ reading a reply

  /** The question is there to be answered. */
  ghost predicate Live(lex: Lexicon, st: State, p: ClarificationId) {
    st.pointer == Some(p) && Readable(st, p) && Failure(lex, st, p) == None
  }

  /** A button of this very question, with one of its two answers. */
  predicate Presses(st: State, p: ClarificationId, button: Option<Button>) {
    && button.Some? && button.value.clarification == Some(p) && button.value.choice.Some?
    && Readable(st, p) && st.rows[p].kind == SearchOrVacancy
  }

  /** The reply gives this answer: by button, else by its label, else, if it is no new task, by the model. */
  predicate Gives(kind: Kind, button: Option<Button>, r: Reading, answer: Choice) {
    match kind
    case VacancySource => r.slot.SlotSource? && answer == VacancyAnalysis
    case SearchOrVacancy =>
      || (button.Some? && button.value.choice == Some(answer))
      || (button.None? && r.named == Some(answer))
      || (button.None? && r.named.None? && !r.clearNewTask && r.proposal == Picked(answer))
  }

  /** The reply is about something else. */
  predicate StartsAnew(kind: Kind, button: Option<Button>, r: Reading) {
    match kind
    case VacancySource => r.slot.SlotNewTask?
    case SearchOrVacancy => button.None? && r.named.None? && (r.clearNewTask || r.proposal.NewRequest?)
  }

  predicate LeavesOpen(kind: Kind, button: Option<Button>, r: Reading) {
    match kind
    case VacancySource => r.slot.SlotUnclear?
    case SearchOrVacancy => button.None? && r.named.None? && !r.clearNewTask && r.proposal.CannotTell?
  }

  /** Only the model could have told, and it failed. */
  predicate ModelFails(kind: Kind, button: Option<Button>, r: Reading) {
    kind == SearchOrVacancy && button.None? && r.named.None? && !r.clearNewTask && r.proposal.ClassifierFailed?
  }

  // ------------------------------------------------------------------ what being live takes

  /** The `k`-th entry from the end is that turn of that role. */
  predicate IsTurn(turns: seq<Entry>, k: nat, id: TurnId, role: Role) {
    1 <= k <= |turns| && turns[|turns| - k].id == id && turns[|turns| - k].role == role
  }

  /** The row belongs to this session as it is now, waits for its answer in time, and was asked under today's rules. */
  predicate Waits(lex: Lexicon, st: State, c: Clarification) {
    && c.status == Open && st.now < c.expiresAt && c.context == st.context && c.epoch == st.epoch && c.versions == lex.versions
    && c.task in st.tasks && st.tasks[c.task] == WaitingClarification
  }

  /** A first question that nothing was retried for, or the retry of exactly one unclear first question just before it. */
  ghost predicate Chained(st: State, p: ClarificationId, c: Clarification) {
    || (c.attempt == 1 && forall q :: q in st.rows ==> st.rows[q].supersededBy != Some(p))
    || (c.attempt == 2 && exists q :: q in st.rows && Retries(st, p, c, q))
  }

  predicate Retries(st: State, p: ClarificationId, c: Clarification, q: ClarificationId)
    requires q in st.rows
  {
    var first := st.rows[q];
    && first.supersededBy == Some(p) && (forall k :: k in st.rows && st.rows[k].supersededBy == Some(p) ==> k == q)
    && first.status == Superseded && first.supersededReason == Some(Unclear) && first.attempt == 1
    && first.task == c.task && first.context == c.context && first.kind == c.kind
    && (c.kind == SearchOrVacancy ==> first.source == c.source && first.source.Some? && first.createdFrom == first.source.value.turn)
    && IsTurn(st.turns, 4, first.createdFrom, User) && IsTurn(st.turns, 3, first.question, Assistant)
  }

  /** The message the question is about is still there, unchanged, and still has requirements. */
  predicate SourceStands(lex: Lexicon, st: State, c: Clarification) {
    if c.kind == VacancySource then c.source.None?
    else
      var k := if c.attempt == 1 then 2 else 4;
      && c.source.Some? && k <= |st.turns|
      && var b, e := c.source.value, st.turns[|st.turns| - k];
         && e.id == b.turn && b.start < b.end <= |e.text| && b.end <= MAX_SOURCE_OFFSET
         && lex.sha256(e.text[b.start..b.end]) == b.sha256 && lex.requirementsOk(e.text[b.start..b.end])
         && (c.attempt == 1 ==> c.createdFrom == b.turn)
  }

  /**
   A question is live if and only if its row waits for this very session, its exchange is the last one of the
   transcript, its chain of attempts is whole and its source still stands.
   */
  lemma {:induction false} LiveIff(lex: Lexicon, st: State, p: ClarificationId)
    requires st.pointer == Some(p) && Readable(st, p) && st.rows[p].id == p
    ensures var c := st.rows[p];
      Live(lex, st, p) <==>
        && Waits(lex, st, c)
        && IsTurn(st.turns, 1, c.question, Assistant) && IsTurn(st.turns, 2, c.createdFrom, User)
        && Chained(st, p, c) && SourceStands(lex, st, c)
  {
    ChainMeans(st, p);
    if st.rows[p].attempt == 1 || st.rows[p].attempt == 2 { SourceMeans(lex, st, st.rows[p]); }
    hide Predecessors, PredecessorOf, ChainFailure, SourceFailure, SourceStands, Retries;
  }

  /** A first question of the first kind binds the message it was asked about. */
  predicate BindsItsTurn(c: Clarification) {
    c.kind == SearchOrVacancy && c.attempt == 1 ==> c.source.Some? && c.createdFrom == c.source.value.turn
  }

  lemma {:induction false} ChainMeans(st: State, p: ClarificationId)
    requires p in st.rows && st.rows[p].id == p
    ensures var c := st.rows[p];
      |Predecessors(st, p)| <= 1 && ChainFailure(st.turns, c, PredecessorOf(st, p)) == None <==>
        && IsTurn(st.turns, 1, c.question, Assistant) && IsTurn(st.turns, 2, c.createdFrom, User)
        && Chained(st, p, c) && BindsItsTurn(c)
  {
    var c, ps := st.rows[p], Predecessors(st, p);
    assert forall k: nat, id, role :: k >= 1 ==> (Is(FromEnd(st.turns, k), id, role) <==> IsTurn(st.turns, k, id, role));
    if |ps| == 1 {
      var q :| q in ps;
      OnlyOne(ps, q);
      assert PredecessorOf(st, p) == Some(st.rows[q]);
      RetryMeans(st, p, c, q);
      hide Retries, ChainFailure, FromEnd;
      assert forall k :: k in st.rows && Retries(st, p, c, k) ==> k == q by { RetriesIsPredecessor(st, p, c); }
    } else {
      RetriesIsPredecessor(st, p, c);
      NoneAtAll(st, p);
      hide Retries;
    }
  }

  lemma {:induction false} NoneAtAll(st: State, p: ClarificationId)
    ensures |Predecessors(st, p)| == 0 <==> forall q :: q in st.rows ==> st.rows[q].supersededBy != Some(p)
  {
    forall q | q in st.rows && st.rows[q].supersededBy == Some(p)
      ensures q in Predecessors(st, p) && |Predecessors(st, p)| != 0
    {
    }
    if forall q :: q in st.rows ==> st.rows[q].supersededBy != Some(p) {
      assert Predecessors(st, p) == {};
    }
  }

  lemma {:induction false} RetriesIsPredecessor(st: State, p: ClarificationId, c: Clarification)
    ensures forall q :: q in st.rows && Retries(st, p, c, q) ==> Predecessors(st, p) == {q} && |Predecessors(st, p)| == 1
  {
    forall q | q in st.rows && Retries(st, p, c, q)
      ensures Predecessors(st, p) == {q}
    {
      assert q in Predecessors(st, p);
    }
  }

  lemma {:induction false} OnlyOne(ps: set<ClarificationId>, q: ClarificationId)
    requires |ps| == 1 && q in ps
    ensures ps == {q}
  {
    assert |ps - {q}| == 0;
  }

  lemma {:induction false} RetryMeans(st: State, p: ClarificationId, c: Clarification, q: ClarificationId)
    requires q in st.rows && Predecessors(st, p) == {q} && c.id == p
    ensures ChainFailure(st.turns, c, Some(st.rows[q])) == None <==>
      IsTurn(st.turns, 1, c.question, Assistant) && IsTurn(st.turns, 2, c.createdFrom, User) && c.attempt == 2 && Retries(st, p, c, q)
  {
    assert q in Predecessors(st, p);
    assert forall k :: k in st.rows && st.rows[k].supersededBy == Some(p) ==> k in Predecessors(st, p);
  }

  lemma {:induction false} SourceMeans(lex: Lexicon, st: State, c: Clarification)
    requires c.attempt == 1 || c.attempt == 2
    ensures SourceFailure(lex, st.turns, c) == None && BindsItsTurn(c) <==> SourceStands(lex, st, c)
  {
  }

  // ------------------------------------------------------------------ outcomes

  /** A posted button counts only for the question that is pointed to, and only with one of its answers. */
  lemma {:induction false} ButtonRejectedIff(lex: Lexicon, st: State, button: Option<Button>, r: Reading)
    ensures ResolveState(lex, st, button, r).Rejected? <==>
      button.Some? && !(st.pointer.Some? && Presses(st, st.pointer.value, button))
  {
    hide ResolveLive;
    ResolveLiveNeverRejects(lex, st, button, r);
  }

  lemma {:induction false} ResolveLiveNeverRejects(lex: Lexicon, st: State, button: Option<Button>, r: Reading)
    ensures forall turns, c, p, task, now, context, epoch, choice ::
      !ResolveLive(lex, turns, c, p, task, now, context, epoch, choice, r).Rejected?
  {
    hide LivenessFailure;
  }

  lemma {:induction false} LiveSourceIsThere(lex: Lexicon, st: State, p: ClarificationId)
    requires Live(lex, st, p) && st.rows[p].kind == SearchOrVacancy
    ensures BoundSourceText(st.turns, st.rows[p]).Some?
  {
    hide LivenessFailure, BoundSourceText;
    var c := st.rows[p];
    BoundSourceNeverRaises(lex, st.turns, c, PredecessorOf(st, p), st.tasks[c.task], st.now, st.context, st.epoch);
  }

  /**
   On a live question each outcome occurs for exactly the replies that mean it: the answer resumed with is
   the answer given, a vacancy source always means analysis of that source, and of the rest a new task
   supersedes, an unclear reply asks again or gives up, and a failed model leaves everything as it was.
   */
  lemma {:induction false} OutcomeIsTheMeaning(
      lex: Lexicon, st: State, p: ClarificationId, button: Option<Button>, r: Reading)
    requires Live(lex, st, p) && (button.Some? ==> Presses(st, p, button))
    ensures var kind, res := st.rows[p].kind, ResolveState(lex, st, button, r);
      && (forall answer :: (res.Staged? && res.transition.Resolve? && res.transition.answer == answer) <==> Gives(kind, button, r, answer))
      && (res == Staged(SupersedeForNewTask) <==> StartsAnew(kind, button, r))
      && (res == Staged(Retry) <==> LeavesOpen(kind, button, r) && st.rows[p].attempt < MAX_ATTEMPTS)
      && (res == Staged(Exhaust) <==> LeavesOpen(kind, button, r) && st.rows[p].attempt >= MAX_ATTEMPTS)
      && (res.AnswerUnavailable? <==> ModelFails(kind, button, r))
      && (kind == VacancySource && res.Staged? && res.transition.Resolve? ==> r.slot == SlotSource(res.transition.resumed))
  {
    if st.rows[p].kind == SearchOrVacancy { LiveSourceIsThere(lex, st, p); }
    hide LivenessFailure, BoundSourceText;
  }

  /** A question that is no longer live is only ever expired, for the reason that ended it. */
  lemma {:induction false} DeadQuestionExpires(lex: Lexicon, st: State, button: Option<Button>, r: Reading)
    requires st.pointer.Some? && (button.Some? ==> Presses(st, st.pointer.value, button)) && !Live(lex, st, st.pointer.value)
    ensures ResolveState(lex, st, button, r) ==
      Staged(Expire(if Readable(st, st.pointer.value) then Failure(lex, st, st.pointer.value).value else Stale))
  {
    hide LivenessFailure, BoundSourceText;
  }

  // ------------------------------------------------------------------ what the turn writes down

  /** The state of the question and its task once it has ended this way. */
  predicate Ended(c: Clarification, task: TaskStatus, t: Transition, resolvedAs: TaskStatus) {
    match t
    case Resolve(_, _) => c.status == Resolved && task == resolvedAs && c.supersededReason == None && c.supersededBy == None
    case SupersedeForNewTask =>
      c.status == Superseded && task == Cancelled && c.supersededReason == Some(NewTask) && c.supersededBy == None
    case Retry => c.status == Superseded && task == WaitingClarification && c.supersededReason == Some(Unclear)
    case Exhaust => c.status == Expired && task == FailedSafe && c.supersededReason == None && c.supersededBy == None
    case Expire(_) => c.status == Expired && task == TaskExpired && c.supersededReason == None && c.supersededBy == None
  }

  /** The committed turn records how the question it began with ended. */
  lemma {:induction false} CommitRecordsTheEnding(lex: Lexicon, before: State, x: Exchange)
    requires Inv(lex, before) && before.pointer.Some? && Commit(lex, before, x).Some?
    ensures ResolveState(lex, before, x.button, x.reading).Staged?
    ensures var p, after := before.pointer.value, Commit(lex, before, x).value;
      var t := ResolveState(lex, before, x.button, x.reading).transition;
      && p in before.rows && p in after.rows && after.rows[p].task == before.rows[p].task && after.rows[p].task in after.tasks
      && Ended(after.rows[p], after.tasks[after.rows[p].task], t, x.resolvedAs)
      && (t.Retry? ==> after.rows[p].supersededBy == after.pointer)
  {
    hide ResolveState, StillHolds, BoundedTurns, Opened, Failure, Inv;
    PointerIsConsistent(lex, before);
    NoQuestionNoPointer(lex, before, x.button, x.reading);
    var p := before.pointer.value;
    assert Readable(before, p) && before.tasks[before.rows[p].task] == WaitingClarification && before.rows[p].status == Open;
    assert p < before.nextId && before.rows[p].task < before.nextId && before.rows[p].supersededBy.None?;
    hide RowOk;
    var t := ResolveState(lex, before, x.button, x.reading).transition;
    var st := before.(now := before.now + x.elapsed);
    var settled := Transitioned(st, p, t, x.resolvedAs);
    assert Ended(settled.rows[p], settled.tasks[settled.rows[p].task], t, x.resolvedAs);
    assert before.rows[p].task !in x.purged;
    hide Transitioned, Ended, Consistent;
    assert Consistent(st) by { StaysConsistent(before, x.elapsed); }
  }

  lemma {:induction false} StaysConsistent(st: State, elapsed: nat)
    requires Consistent(st)
    ensures Consistent(st.(now := st.now + elapsed))
  {
  }

  // ------------------------------------------------------------------ the question a turn leaves

  /** The turn handled its message as a new request: there was no question, or the reply started anew. */
  predicate HandlesAnew(res: Resolution) {
    res.NoQuestion? || res == Staged(SupersedeForNewTask)
  }

  /** The turn ends in one of the two questions; a message is only kept as a source when it can serve as one. */
  predicate AsksFirst(lex: Lexicon, x: Exchange, res: Resolution, kind: Kind) {
    HandlesAnew(res) && x.opens == Some(kind) && (kind == SearchOrVacancy ==> Eligible(lex, x.message))
  }

  /** A fresh, open question on the exchange with these ids, until the earlier of its own and the session's expiry. */
  predicate IsFresh(lex: Lexicon, st: State, x: Exchange, q: Clarification, question: TurnId, message: TurnId) {
    && q.question == question && q.createdFrom == message
    && q.status == Open && q.supersededBy.None? && q.supersededReason.None?
    && q.context == st.context && q.epoch == st.epoch && q.versions == lex.versions
    && q.expiresAt <= st.now + x.questionSeconds && q.expiresAt <= x.sessionExpiresAt
    && (q.expiresAt == st.now + x.questionSeconds || q.expiresAt == x.sessionExpiresAt)
    && q.task in st.tasks && st.tasks[q.task] == WaitingClarification
  }

  /** The transcript ends with the message and the question, and the question is fresh on them. */
  predicate AskedNow(lex: Lexicon, st: State, x: Exchange, q: Clarification) {
    && FromEnd(st.turns, 1) == Some(Entry(Assistant, q.question, x.reply, 0))
    && FromEnd(st.turns, 2) == Some(Entry(User, q.createdFrom, x.message, 0))
    && IsFresh(lex, st, x, q, q.question, q.createdFrom)
  }

  /** The binding of a first question of the first kind is the whole of the message that raised it. */
  predicate BindsMessage(lex: Lexicon, x: Exchange, q: Clarification) {
    if q.kind == SearchOrVacancy then
      q.source == Some(Binding(q.createdFrom, lex.sha256(x.message), 0, |x.message|))
    else q.source == None
  }

  /**
   A committed turn leaves a question in exactly two ways: a first one on a new task, when it asks and can,
   or a second one on the same task and source, when a first answer was unclear. Otherwise it leaves none.
   */
  lemma {:induction false} CommitAsksExactly(lex: Lexicon, before: State, x: Exchange)
    requires Inv(lex, before) && Commit(lex, before, x).Some?
    ensures var after, res := Commit(lex, before, x).value, ResolveState(lex, before, x.button, x.reading);
      && (after.pointer.Some? <==> res == Staged(Retry) || exists kind :: AsksFirst(lex, x, res, kind))
      && (after.pointer.Some? ==>
            after.pointer.value !in before.rows && after.pointer.value in after.rows
            && AskedNow(lex, after, x, after.rows[after.pointer.value])
            && if res == Staged(Retry) then IsRetry(before, after.rows[after.pointer.value])
               else IsFirst(lex, before, x, res, after.rows[after.pointer.value]))
  {
    var res := ResolveState(lex, before, x.button, x.reading);
    CommitAppends(lex, before, x);
    AppendedTurnsOk(before, x.message, x.reply, before.nextId + 2);
    FreshIds(lex, before);
    if res == Staged(Retry) {
      RetryIsFirst(lex, before, x.button, x.reading);
      RetryAsks(lex, before, x);
    } else {
      NoQuestionNoPointer(lex, before, x.button, x.reading);
      FirstAsks(lex, before, x);
    }
    hide Inv, Commit, ResolveState, IsFresh, BindsMessage, Eligible, Longer, BoundedTurns;
  }

  /** The second question: same task, same kind, the same source. */
  predicate IsRetry(before: State, q: Clarification) {
    && before.pointer.Some? && before.pointer.value in before.rows
    && var c := before.rows[before.pointer.value];
       q.attempt == 2 && q.task == c.task && q.kind == c.kind && q.source == c.source
  }

  predicate IsFirst(lex: Lexicon, before: State, x: Exchange, res: Resolution, q: Clarification) {
    q.attempt == 1 && AsksFirst(lex, x, res, q.kind) && q.task !in before.tasks && BindsMessage(lex, x, q)
  }

  lemma {:induction false} FreshIds(lex: Lexicon, st: State)
    requires Inv(lex, st)
    ensures forall id :: id in st.rows ==> id < st.nextId
    ensures forall t :: t in st.tasks ==> t < st.nextId
  {
    forall id | id in st.rows ensures id < st.nextId { assert RowOk(lex, st, id); }
  }

  lemma {:induction false} RetryAsks(lex: Lexicon, before: State, x: Exchange)
    requires Commit(lex, before, x).Some? && ResolveState(lex, before, x.button, x.reading) == Staged(Retry)
    requires before.pointer.Some? && Readable(before, before.pointer.value) && before.rows[before.pointer.value].attempt == 1
    requires forall id :: id in before.rows ==> id < before.nextId
    ensures var after := Commit(lex, before, x).value;
      && after.pointer == Some(before.nextId + 2) && before.nextId + 2 !in before.rows && before.nextId + 2 in after.rows
      && IsFresh(lex, after, x, after.rows[before.nextId + 2], before.nextId + 1, before.nextId)
      && IsRetry(before, after.rows[before.nextId + 2])
  {
    hide ResolveState, BoundedTurns, Opened, Failure, Inv, Longer, Eligible;
  }

  lemma {:induction false} FirstAsks(lex: Lexicon, before: State, x: Exchange)
    requires Commit(lex, before, x).Some? && ResolveState(lex, before, x.button, x.reading) != Staged(Retry)
    requires ResolveState(lex, before, x.button, x.reading).NoQuestion? ==> before.pointer.None?
    requires forall id :: id in before.rows ==> id < before.nextId
    requires forall t :: t in before.tasks ==> t < before.nextId
    ensures var after, res := Commit(lex, before, x).value, ResolveState(lex, before, x.button, x.reading);
      && (after.pointer.Some? <==> exists kind :: AsksFirst(lex, x, res, kind))
      && (after.pointer.Some? ==>
            after.pointer == Some(before.nextId + 2) && before.nextId + 2 !in before.rows && before.nextId + 2 in after.rows
            && IsFresh(lex, after, x, after.rows[before.nextId + 2], before.nextId + 1, before.nextId)
            && IsFirst(lex, before, x, res, after.rows[before.nextId + 2]))
  {
    var res := ResolveState(lex, before, x.button, x.reading);
    OpenedIs(lex, x, res);
    hide ResolveState, BoundedTurns, Failure, Inv, Longer, Eligible, Opened, AsksFirst, StillHolds, Consistent;
  }

  lemma {:induction false} OpenedIs(lex: Lexicon, x: Exchange, res: Resolution)
    ensures forall kind :: Opened(lex, x, res) == Some(kind) <==> AsksFirst(lex, x, res, kind)
    ensures Opened(lex, x, res).Some? <==> exists kind :: AsksFirst(lex, x, res, kind)
  {
    hide Eligible;
    if Opened(lex, x, res).Some? { assert AsksFirst(lex, x, res, Opened(lex, x, res).value); }
  }
}
