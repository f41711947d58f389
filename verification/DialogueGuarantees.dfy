/** What a person answering a question can rely on. */
module DialogueGuarantees {
  import opened Wrappers
  import opened Dialogue
  import opened DialogueRuns

  // ------------------------------------------------------------------ resuming

  /**
   Resume exactness. However the question of the first kind is answered, at either attempt, and whatever
   happened before, what resumes is exactly the message that was ambiguous in the first place.
   */
  lemma {:induction false} ResumesTheOriginalMessage(lex: Lexicon, st: State, button: Option<Button>, r: Reading)
    requires Inv(lex, st) && st.pointer.Some? && Readable(st, st.pointer.value) && st.rows[st.pointer.value].kind == SearchOrVacancy
    requires ResolveState(lex, st, button, r).Staged? && ResolveState(lex, st, button, r).transition.Resolve?
    ensures st.pointer.value in st.origin && ResolveState(lex, st, button, r).transition.resumed == st.origin[st.pointer.value]
  {
    var id := st.pointer.value;
    var c := st.rows[id];
    assert RowOk(lex, st, id);
    assert LivenessFailure(lex, st.turns, c, PredecessorOf(st, id), st.tasks[c.task], st.now, st.context, st.epoch) == None;
    BoundSourceIsTheMessage(lex, st, c, st.origin[id], PredecessorOf(st, id), st.tasks[c.task]);
  }

  lemma {:induction false} BoundSourceIsTheMessage(
      lex: Lexicon, st: State, c: Clarification, message: string, p: Option<Clarification>, taskStatus: TaskStatus)
    requires LivenessFailure(lex, st.turns, c, p, taskStatus, st.now, st.context, st.epoch) == None && c.kind == SearchOrVacancy
    requires c.source.Some? && BoundTo(lex, st, c.source.value, message)
    ensures BoundSourceText(st.turns, c) == Some(message)
  {
    hide LivenessFailure, FirstWithId;
    BoundSourceNeverRaises(lex, st.turns, c, p, taskStatus, st.now, st.context, st.epoch);
    var last := LastFour(st.turns);
    var i := FirstWithIdAt(last, c.source.value.turn);
    assert st.turns[|st.turns| - |last| + i] == last[i];
    assert Slice(message, 0, |message|) == message;
  }

  lemma {:induction false} FirstWithIdAt(turns: seq<Entry>, id: TurnId) returns (i: nat)
    requires FirstWithId(turns, id).Some?
    ensures i < |turns| && turns[i].id == id && FirstWithId(turns, id) == Some(turns[i])
  {
    if turns[0].id == id { return 0; }
    var j := FirstWithIdAt(turns[1..], id);
    i := j + 1;
  }

  // ------------------------------------------------------------------ a new question is live

  /** The question a turn leaves open. */
  predicate Asks(before: State, after: State, q: ClarificationId) {
    after.pointer == Some(q) && q !in before.rows && Readable(after, q)
  }

  /** A question whose own exchange is the end of the transcript passes every positional rule. */
  lemma {:induction false} FirstChain(lex: Lexicon, st: State, turns: seq<Entry>, x: Exchange, kind: Kind)
    requires FromEnd(turns, 1) == Some(Entry(Assistant, st.nextId + 1, x.reply, 0)) && FromEnd(turns, 2) == Some(Entry(User, st.nextId, x.message, 0))
    requires kind == SearchOrVacancy ==> Eligible(lex, x.message)
    ensures var q := FirstQuestion(lex, st, x, kind); ChainFailure(turns, q, None) == None && SourceFailure(lex, turns, q) == None
  {
    assert Slice(x.message, 0, |x.message|) == x.message;
  }

  lemma {:induction false} FirstHasNoPredecessor(lex: Lexicon, st: State, x: Exchange, kind: Kind, now: int)
    requires RowsOk(lex, st)
    ensures Predecessors(WithFirst(lex, Appended(st, x), x, kind).(nextId := st.nextId + 4, now := now), st.nextId + 2) == {}
  {
    var after := WithFirst(lex, Appended(st, x), x, kind);
    forall k | k in after.rows
      ensures after.rows[k].supersededBy != Some(st.nextId + 2)
    {
      if k in st.rows { assert RowOk(lex, st, k); }
    }
  }

  lemma {:induction false} FirstIsLive(lex: Lexicon, st: State, x: Exchange, kind: Kind, now: int)
    requires Inv(lex, st) && st.pointer == None && (kind == SearchOrVacancy ==> Eligible(lex, x.message))
    ensures var after := WithFirst(lex, Appended(st, x), x, kind).(nextId := st.nextId + 4);
      var q := st.nextId + 2;
      now < after.rows[q].expiresAt ==> Failure(lex, after.(now := now), q) == None
  {
    assert TurnsOk(st) && RowsOk(lex, st);
    hide Inv, TurnsOk, RowsOk, BoundedTurns, Longer, Predecessors, ChainFailure, SourceFailure, Eligible;
    AppendedTurnsOk(st, x.message, x.reply, st.nextId + 4);
    FirstHasNoPredecessor(lex, st, x, kind, now);
    FirstChain(lex, st, Appended(st, x).turns, x, kind);
  }

  /** One more exchange turns a live first question into the live predecessor of its retry. */
  lemma {:induction false} RetryChain(
      lex: Lexicon, turns: seq<Entry>, longer: seq<Entry>, c: Clarification, ended: Clarification, retry: Clarification)
    requires c.attempt == 1 && ChainFailure(turns, c, None) == None && SourceFailure(lex, turns, c) == None
    requires ended == c.(status := Superseded, supersededReason := Some(Unclear), supersededBy := Some(retry.id))
    requires retry.attempt == 2 && retry.task == c.task && retry.context == c.context && retry.kind == c.kind && retry.source == c.source
    requires FromEnd(longer, 3) == FromEnd(turns, 1) && FromEnd(longer, 4) == FromEnd(turns, 2)
    requires Is(FromEnd(longer, 1), retry.question, Assistant) && Is(FromEnd(longer, 2), retry.createdFrom, User)
    ensures ChainFailure(longer, retry, Some(ended)) == None && SourceFailure(lex, longer, retry) == None
  {
  }

  lemma {:induction false} LiveFirstIs(lex: Lexicon, st: State, p: ClarificationId)
    requires Inv(lex, st) && st.pointer == Some(p) && Readable(st, p) && st.rows[p].attempt == 1 && Failure(lex, st, p) == None
    ensures PredecessorOf(st, p) == None && |st.turns| >= 2
    ensures ChainFailure(st.turns, st.rows[p], None) == None && SourceFailure(lex, st.turns, st.rows[p]) == None
    ensures st.rows[p].context == st.context && st.rows[p].epoch == st.epoch && st.tasks[st.rows[p].task] == WaitingClarification
  {
    assert Predecessors(st, p) == {};
    assert RowOk(lex, st, p);
  }

  lemma {:induction false} SecondHasOnePredecessor(lex: Lexicon, st: State, x: Exchange, p: ClarificationId, now: int)
    requires RowsOk(lex, st) && p in st.rows && Readable(st, p)
    ensures var after := WithSecond(lex, Appended(Transitioned(st, p, Retry, FailedSafe), x), x, p).(nextId := st.nextId + 4, now := now);
      var q := st.nextId + 2;
      p != q && Predecessors(after, q) == {p} && PredecessorOf(after, q) == Some(after.rows[p])
  {
    forall k | k in st.rows
      ensures st.rows[k].supersededBy != Some(st.nextId + 2) && k != st.nextId + 2
    {
      assert RowOk(lex, st, k);
    }
    var after := WithSecond(lex, Appended(Transitioned(st, p, Retry, FailedSafe), x), x, p).(nextId := st.nextId + 4, now := now);
    assert Predecessors(after, st.nextId + 2) == {p};
  }

  lemma {:induction false} NewEntriesAre(turns: seq<Entry>, st: State, x: Exchange)
    requires FromEnd(turns, 1) == Some(Entry(Assistant, st.nextId + 1, x.reply, 0)) && FromEnd(turns, 2) == Some(Entry(User, st.nextId, x.message, 0))
    ensures Is(FromEnd(turns, 1), st.nextId + 1, Assistant) && Is(FromEnd(turns, 2), st.nextId, User)
  {
  }

  lemma {:induction false} SecondIsLive(lex: Lexicon, st: State, x: Exchange, now: int)
    requires Inv(lex, st) && st.pointer.Some? && Readable(st, st.pointer.value) && st.rows[st.pointer.value].attempt == 1
    requires Failure(lex, st, st.pointer.value) == None
    ensures var after := WithSecond(lex, Appended(Transitioned(st, st.pointer.value, Retry, FailedSafe), x), x, st.pointer.value).(nextId := st.nextId + 4);
      var q := st.nextId + 2;
      now < after.rows[q].expiresAt ==> Failure(lex, after.(now := now), q) == None
  {
    var p := st.pointer.value;
    var after := Retried(lex, st, x);
    assert TurnsOk(st) && RowsOk(lex, st);
    RetriedParts(lex, st, x);
    hide Transitioned, Appended, WithSecond, Retried, BoundedTurns, Longer, Inv, PredecessorOf, Predecessors,
         ChainFailure, SourceFailure, TurnsOk, RowsOk, Is;
    LiveFirstIs(lex, st, p);
    AppendedTurnsOk(st, x.message, x.reply, st.nextId + 4);
    SecondHasOnePredecessor(lex, st, x, p, now);
    assert Is(FromEnd(after.turns, 1), st.nextId + 1, Assistant) && Is(FromEnd(after.turns, 2), st.nextId, User) by { NewEntriesAre(after.turns, st, x); }
    RetryChain(lex, st.turns, after.turns, st.rows[p], after.rows[p], after.rows[st.nextId + 2]);
  }

  /**
   Liveness. The question that a committed turn leaves open, first attempt or retry, is live on the
   resulting transcript at every moment until it expires.
   */
  lemma {:induction false} NewQuestionIsLive(lex: Lexicon, before: State, x: Exchange, q: ClarificationId, now: int)
    requires Inv(lex, before) && Commit(lex, before, x).Some? && Asks(before, Commit(lex, before, x).value, q)
    requires now < Commit(lex, before, x).value.rows[q].expiresAt
    ensures Failure(lex, Commit(lex, before, x).value.(now := now), q) == None
  {
    hide Inv, ResolveState, Consistent, Failure;
    var res := ResolveState(lex, before, x.button, x.reading);
    var st := before.(now := before.now + x.elapsed);
    TickKeepsInv(lex, before, x.elapsed);
    if res == Staged(Retry) {
      RetryIsFirst(lex, before, x.button, x.reading);
      SecondIsLive(lex, st, x, now);
    } else {
      var settled := st;
      if res.Staged? {
        StagedHasPointer(lex, before, x.button, x.reading);
        PointerIsConsistent(lex, st);
        assert Readable(st, st.pointer.value) by { ConsistentIsReadable(st); }
        EndingKeepsInv(lex, st, res.transition, x.resolvedAs);
        settled := Transitioned(st, st.pointer.value, res.transition, x.resolvedAs);
      } else {
        NoQuestionNoPointer(lex, before, x.button, x.reading);
      }
      var asked := Opened(lex, x, res);
      assert asked.Some?;
      FirstIsLive(lex, settled, x, asked.value, now);
    }
  }

  // ------------------------------------------------------------------ and only on the very next turn

  /** Something has been said since the question: it is no longer the last thing in the transcript. */
  predicate Overtaken(st: State, q: ClarificationId) {
    && q < st.nextId
    && (q in st.rows ==> st.rows[q].question < st.nextId && FromEnd(st.turns, 1).Some? && FromEnd(st.turns, 1).value.id != st.rows[q].question)
  }

  lemma {:induction false} OvertakenIsNotLive(lex: Lexicon, st: State, q: ClarificationId)
    requires Overtaken(st, q) && q in st.rows && Readable(st, q)
    ensures Failure(lex, st, q) != None
  {
  }

  /** Every exchange, of this session or another, overtakes every question there was. */
  lemma {:induction false} ExchangeOvertakes(lex: Lexicon, st: State, step: Step, q: ClarificationId)
    requires Inv(lex, st) && q in st.rows
    requires step.ForeignTurn? || (step.OwnTurn? && Commit(lex, st, step.x).Some?)
    ensures Overtaken(Next(lex, st, step), q)
  {
    assert RowOk(lex, st, q);
    match step
    case ForeignTurn(message, reply) => AppendedTurnsOk(st, message, reply, st.nextId + 2);
    case OwnTurn(x) => CommitOvertakes(lex, st, x, q);
    case _ =>
  }

  lemma {:induction false} CommitOvertakes(lex: Lexicon, st: State, x: Exchange, q: ClarificationId)
    requires Inv(lex, st) && Commit(lex, st, x).Some? && q < st.nextId && (q in st.rows ==> st.rows[q].question < st.nextId)
    ensures Overtaken(Commit(lex, st, x).value, q)
  {
    AppendedTurnsOk(st, x.message, x.reply, st.nextId + 2);
    CommitAppends(lex, st, x);
    if q in Commit(lex, st, x).value.rows { CommitKeepsQuestions(lex, st, x, q); }
    hide Commit, Inv, BoundedTurns, Longer;
  }

  lemma {:induction false} CommitAppends(lex: Lexicon, st: State, x: Exchange)
    requires Commit(lex, st, x).Some?
    ensures Commit(lex, st, x).value.turns == BoundedTurns(Longer(st, x.message, x.reply)) && Commit(lex, st, x).value.nextId == st.nextId + 4
  {
    hide ResolveState, StillHolds, BoundedTurns, Opened, Consistent, FirstQuestion, SecondQuestion;
  }

  lemma {:induction false} CommitKeepsQuestions(lex: Lexicon, st: State, x: Exchange, q: ClarificationId)
    requires Commit(lex, st, x).Some? && q < st.nextId && q in Commit(lex, st, x).value.rows
    ensures q in st.rows && Commit(lex, st, x).value.rows[q].question == st.rows[q].question
  {
    hide ResolveState, Failure, BoundedTurns, Opened;
  }

  lemma {:induction false} StaysOvertaken(lex: Lexicon, st: State, step: Step, q: ClarificationId)
    requires Inv(lex, st) && Overtaken(st, q)
    ensures Overtaken(Next(lex, st, step), q)
  {
    match step
    case ForeignTurn(message, reply) => AppendedTurnsOk(st, message, reply, st.nextId + 2);
    case OwnTurn(x) => if Commit(lex, st, x).Some? { CommitOvertakes(lex, st, x, q); }
    case _ =>
  }

  lemma {:induction false} RunStaysOvertaken(lex: Lexicon, st: State, steps: seq<Step>, q: ClarificationId)
    requires Inv(lex, st) && Overtaken(st, q)
    ensures Overtaken(RunAll(lex, st, steps), q)
  {
    hide Next, Inv, Overtaken;
    if steps != [] {
      var before := steps[..|steps| - 1];
      RunStaysOvertaken(lex, st, before, q);
      RunKeepsInv(lex, st, before);
      StaysOvertaken(lex, RunAll(lex, st, before), steps[|steps| - 1], q);
    }
  }

  /** After one further exchange, by whichever session, a question is live in no later state of any run. */
  lemma {:induction false} FurtherExchangeEndsQuestion(
      lex: Lexicon, st: State, step: Step, q: ClarificationId, steps: seq<Step>)
    requires Inv(lex, st) && q in st.rows
    requires step.ForeignTurn? || (step.OwnTurn? && Commit(lex, st, step.x).Some?)
    ensures var end := RunAll(lex, Next(lex, st, step), steps);
      q in end.rows && Readable(end, q) ==> Failure(lex, end, q) != None
  {
    hide Next, Inv, Overtaken, Failure, RunAll;
    ExchangeOvertakes(lex, st, step, q);
    InvKept(lex, st, step);
    RunStaysOvertaken(lex, Next(lex, st, step), steps, q);
    var end := RunAll(lex, Next(lex, st, step), steps);
    if q in end.rows && Readable(end, q) { OvertakenIsNotLive(lex, end, q); }
  }

  // ------------------------------------------------------------------ retirement and bounded chains

  /** Every committed turn that began with a live pointer retires that question. */
  lemma {:induction false} CommittedTurnRetires(lex: Lexicon, before: State, x: Exchange)
    requires Inv(lex, before) && before.pointer.Some? && Commit(lex, before, x).Some?
    ensures var after := Commit(lex, before, x).value;
      && after.pointer != before.pointer
      && (before.pointer.value in after.rows ==> after.rows[before.pointer.value].status != Open)
  {
    hide ResolveState, StillHolds, Inv, Failure, BoundedTurns, Eligible;
    var p := before.pointer.value;
    var res := ResolveState(lex, before, x.button, x.reading);
    var st := before.(now := before.now + x.elapsed);
    PointerIsConsistent(lex, before);
    TickKeepsInv(lex, before, x.elapsed);
    PointerIsConsistent(lex, st);
    NoQuestionNoPointer(lex, before, x.button, x.reading);
    assert p < before.nextId && p in before.rows && Readable(st, p);
    hide RowOk, Consistent;
  }

  /** The unclear answers left before the question gives up. */
  function AttemptsLeft(st: State): nat
    requires st.pointer.Some? && st.pointer.value in st.rows && st.rows[st.pointer.value].attempt <= MAX_ATTEMPTS
  {
    MAX_ATTEMPTS - st.rows[st.pointer.value].attempt
  }

  /** An unclear answer either ends the question or asks again with one attempt fewer; a third never comes. */
  lemma {:induction false} UnclearAnswersRunOut(lex: Lexicon, before: State, x: Exchange)
    requires Inv(lex, before) && Commit(lex, before, x).Some? && before.pointer.Some?
    requires ResolveState(lex, before, x.button, x.reading) in {Staged(Retry), Staged(Exhaust)}
    ensures before.pointer.value in before.rows && before.rows[before.pointer.value].attempt <= MAX_ATTEMPTS
    ensures var after := Commit(lex, before, x).value;
      if AttemptsLeft(before) == 0 then after.pointer == None
      else
        && after.pointer.Some? && after.pointer.value in after.rows && after.rows[after.pointer.value].attempt <= MAX_ATTEMPTS
        && AttemptsLeft(after) < AttemptsLeft(before)
        && after.rows[after.pointer.value].task == before.rows[before.pointer.value].task
        && after.rows[after.pointer.value].source == before.rows[before.pointer.value].source
  {
    hide LivenessFailure, BoundedTurns, Inv, ResolveState, StillHolds, Failure, Consistent;
    var res := ResolveState(lex, before, x.button, x.reading);
    var st := before.(now := before.now + x.elapsed);
    UnclearIs(lex, before, x.button, x.reading);
    TickKeepsInv(lex, before, x.elapsed);
    PointerIsConsistent(lex, st);
    ConsistentIsReadable(st);
  }

  /** An unclear answer to a first question is a retry, to a second one the end. */
  lemma {:induction false} UnclearIs(lex: Lexicon, st: State, button: Option<Button>, r: Reading)
    requires Inv(lex, st) && st.pointer.Some? && ResolveState(lex, st, button, r) in {Staged(Retry), Staged(Exhaust)}
    ensures Readable(st, st.pointer.value) && 1 <= st.rows[st.pointer.value].attempt <= MAX_ATTEMPTS
    ensures ResolveState(lex, st, button, r) == Staged(if st.rows[st.pointer.value].attempt == 1 then Retry else Exhaust)
  {
    PointerIsConsistent(lex, st);
    hide LivenessFailure, Inv;
  }

  /** In every reachable state at most one question is open, and it is the pointer's. */
  lemma {:induction false} AtMostOneOpen(lex: Lexicon, now: int, context: nat, epoch: nat, steps: seq<Step>)
    ensures var st := RunAll(lex, Initial(now, context, epoch), steps);
      && (forall id :: id in st.rows && st.rows[id].status == Open ==> st.pointer == Some(id))
      && (st.pointer.Some? ==> st.pointer.value in st.rows && st.rows[st.pointer.value].status == Open)
      && (forall id :: id in st.rows ==> 1 <= st.rows[id].attempt <= MAX_ATTEMPTS)
  {
    InitialOk(lex, now, context, epoch);
    RunKeepsInv(lex, Initial(now, context, epoch), steps);
    var st := RunAll(lex, Initial(now, context, epoch), steps);
    hide RunAll, ChainOk, TurnsOk;
    forall id | id in st.rows ensures 1 <= st.rows[id].attempt <= MAX_ATTEMPTS { assert RowOk(lex, st, id); }
  }

  // ------------------------------------------------------------------ when a staged answer is lost

  lemma {:induction false} OnlyTimeCanFail(lex: Lexicon, st: State, later: int, id: ClarificationId)
    requires Readable(st, id) && Failure(lex, st, id) == None && st.now <= later
    ensures Failure(lex, st.(now := later), id) == (if st.rows[id].expiresAt <= later then Some(TimedOut) else None)
  {
    assert Predecessors(st.(now := later), id) == Predecessors(st, id);
  }

  lemma {:induction false} StagedWhileLive(lex: Lexicon, st: State, button: Option<Button>, r: Reading)
    requires Inv(lex, st) && ResolveState(lex, st, button, r).Staged? && RequiresLive(ResolveState(lex, st, button, r).transition)
    ensures st.pointer.Some? && Readable(st, st.pointer.value) && Failure(lex, st, st.pointer.value) == None
  {
  }

  /** An admissible request: only ended tasks are swept, and a resolution ends in one of three ways. */
  predicate Admissible(st: State, x: Exchange) {
    && (forall t :: t in x.purged ==> t in st.tasks && Terminal(st.tasks[t]))
    && x.resolvedAs in {WaitingConfirmation, Completed, FailedSafe}
  }

  /** A turn that got its answer is lost exactly when the question it relied on expired before the commit. */
  lemma {:induction false} AnswerLostIffExpired(lex: Lexicon, before: State, x: Exchange)
    requires Inv(lex, before) && Admissible(before, x)
    requires !ResolveState(lex, before, x.button, x.reading).Rejected? && !ResolveState(lex, before, x.button, x.reading).AnswerUnavailable?
    ensures Commit(lex, before, x).None? <==>
      && ResolveState(lex, before, x.button, x.reading).Staged? && RequiresLive(ResolveState(lex, before, x.button, x.reading).transition)
      && before.pointer.Some? && before.pointer.value in before.rows
      && before.rows[before.pointer.value].expiresAt <= before.now + x.elapsed
  {
    var res := ResolveState(lex, before, x.button, x.reading);
    var st := before.(now := before.now + x.elapsed);
    if res.Staged? {
      StagedHasPointer(lex, before, x.button, x.reading);
      PointerIsConsistent(lex, before);
      assert Consistent(st);
      if RequiresLive(res.transition) {
        StagedWhileLive(lex, before, x.button, x.reading);
        OnlyTimeCanFail(lex, before, before.now + x.elapsed, before.pointer.value);
      }
    }
    hide ResolveState, Failure, Inv, Consistent, Appended, WithFirst, WithSecond;
  }
}
