/** Questions over whole sessions: one at a time, two attempts at most, and always about the original message. */
module DialogueRuns {
  import opened Wrappers
  import opened Dialogue

  /** What can happen to the session's transcript and rows. */
  datatype Step =
    | OwnTurn(x: Exchange)
    | ForeignTurn(message: string, reply: string)
    | PayloadsRewritten(payload: TurnId -> nat)
    | Tick(seconds: nat)

  function Rewritten(turns: seq<Entry>, payload: TurnId -> nat): (r: seq<Entry>)
    ensures |r| == |turns|
    ensures forall i :: 0 <= i < |r| ==> r[i] == turns[i].(payload := payload(turns[i].id))
  {
    seq(|turns|, i requires 0 <= i < |turns| => turns[i].(payload := payload(turns[i].id)))
  }

  /** A turn of another browser session on the same conversation. */
  function Foreign(st: State, message: string, reply: string): State {
    st.(turns := BoundedTurns(st.turns + [Entry(User, st.nextId, message, 0), Entry(Assistant, st.nextId + 1, reply, 0)]), nextId := st.nextId + 2)
  }

  ghost function Next(lex: Lexicon, st: State, step: Step): State {
    match step
    case OwnTurn(x) => var r := Commit(lex, st, x); if r.Some? then r.value else st
    case ForeignTurn(message, reply) => Foreign(st, message, reply)
    case PayloadsRewritten(payload) => st.(turns := Rewritten(st.turns, payload))
    case Tick(seconds) => st.(now := st.now + seconds)
  }

  ghost function RunAll(lex: Lexicon, st: State, steps: seq<Step>): State {
    if steps == [] then st else Next(lex, RunAll(lex, st, steps[..|steps| - 1]), steps[|steps| - 1])
  }

  function Initial(now: int, context: nat, epoch: nat): State {
    State(now, [], context, epoch, None, map[], map[], 0, map[])
  }

  // ------------------------------------------------------------------ the invariant

  predicate TurnsOk(st: State) {
    && (forall i :: 0 <= i < |st.turns| ==> st.turns[i].id < st.nextId)
    && forall i, j :: 0 <= i < j < |st.turns| ==> st.turns[i].id != st.turns[j].id
  }

  predicate RowOk(lex: Lexicon, st: State, id: ClarificationId)
    requires id in st.rows
  {
    var c := st.rows[id];
    && c.id == id && id < st.nextId && c.question < st.nextId && c.task in st.tasks && c.task < st.nextId
    && 1 <= c.attempt <= MAX_ATTEMPTS && c.context == st.context && c.epoch == st.epoch && c.versions == lex.versions
    && (c.supersededBy.Some? ==> c.supersededBy.value < st.nextId) && (c.status == Open ==> c.supersededBy.None?)
    && (c.kind == VacancySource ==> c.source.None?)
    && (c.kind == SearchOrVacancy ==> id in st.origin && c.source.Some? && BoundTo(lex, st, c.source.value, st.origin[id]))
    && (c.kind == SearchOrVacancy && c.attempt == 1 ==> c.createdFrom == c.source.value.turn)
  }

  /** The binding covers exactly the original message, wherever its turn still stands in the transcript. */
  predicate BoundTo(lex: Lexicon, st: State, b: Binding, message: string) {
    && b.start == 0 && b.end == |message| && b.sha256 == lex.sha256(message) && b.turn < st.nextId
    && forall i :: 0 <= i < |st.turns| && st.turns[i].id == b.turn ==> st.turns[i].text == message
  }

  ghost predicate RowsOk(lex: Lexicon, st: State) {
    && (forall id :: id in st.rows ==> RowOk(lex, st, id))
    && forall t :: t in st.tasks ==> t < st.nextId
  }

  /** One open question at most, the pointer's; one waiting task at most, its own. */
  predicate OneOpen(st: State) {
    && (st.pointer.Some? ==> Consistent(st))
    && (forall id :: id in st.rows && st.rows[id].status == Open ==> st.pointer == Some(id))
    && (forall t :: t in st.tasks && st.tasks[t] == WaitingClarification ==>
          st.pointer.Some? && st.pointer.value in st.rows && st.rows[st.pointer.value].task == t)
  }

  predicate IsPredecessor(st: State, q: ClarificationId, p: ClarificationId) {
    && q in st.rows && p in st.rows
    && st.rows[q].supersededBy == Some(p) && st.rows[q].status == Superseded && st.rows[q].supersededReason == Some(Unclear)
    && st.rows[q].attempt == 1 && st.rows[q].task == st.rows[p].task && st.rows[q].context == st.rows[p].context
    && st.rows[q].kind == st.rows[p].kind && st.rows[q].source == st.rows[p].source
  }

  /** A first question has no predecessor, a second one exactly the question it retries. */
  ghost predicate ChainOk(st: State) {
    st.pointer.Some? && st.pointer.value in st.rows ==>
      var p := st.pointer.value;
      if st.rows[p].attempt == 1 then Predecessors(st, p) == {}
      else exists q: nat :: IsPredecessor(st, q, p) && Predecessors(st, p) == {q}
  }

  ghost predicate Inv(lex: Lexicon, st: State) {
    TurnsOk(st) && RowsOk(lex, st) && OneOpen(st) && ChainOk(st)
  }

  lemma {:induction false} InitialOk(lex: Lexicon, now: int, context: nat, epoch: nat)
    ensures Inv(lex, Initial(now, context, epoch))
  {
  }

  // ------------------------------------------------------------------ appending to the transcript

  predicate Distinct(turns: seq<Entry>, bound: nat) {
    && (forall i :: 0 <= i < |turns| ==> turns[i].id < bound)
    && forall i, j :: 0 <= i < j < |turns| ==> turns[i].id != turns[j].id
  }

  lemma {:induction false} BoundedIsSuffix(turns: seq<Entry>, bound: nat)
    requires Distinct(turns, bound)
    ensures Distinct(BoundedTurns(turns), bound) && |BoundedTurns(turns)| <= |turns|
    ensures forall e :: e in BoundedTurns(turns) ==> e in turns
    ensures |turns| >= 1 ==> FromEnd(BoundedTurns(turns), 1) == FromEnd(turns, 1)
    ensures |turns| >= 2 ==> FromEnd(BoundedTurns(turns), 2) == FromEnd(turns, 2)
    ensures |turns| >= 3 ==> FromEnd(BoundedTurns(turns), 3) == FromEnd(turns, 3)
    ensures |turns| >= 4 ==> FromEnd(BoundedTurns(turns), 4) == FromEnd(turns, 4)
  {
    SuffixIsDistinct(turns, bound);
    hide Distinct, BoundedTurns;
    if |turns| >= 1 { SameFromEnd(turns, 1); }
    if |turns| >= 2 { SameFromEnd(turns, 2); }
    if |turns| >= 3 { SameFromEnd(turns, 3); }
    if |turns| >= 4 { SameFromEnd(turns, 4); }
  }

  lemma {:induction false} SuffixIsDistinct(turns: seq<Entry>, bound: nat)
    requires Distinct(turns, bound)
    ensures Distinct(BoundedTurns(turns), bound) && |BoundedTurns(turns)| <= |turns|
    ensures forall e :: e in BoundedTurns(turns) ==> e in turns
  {
    var kept := BoundedTurns(turns);
    assert forall i :: 0 <= i < |kept| ==> kept[i] == turns[i + (|turns| - |kept|)];
  }

  lemma {:induction false} SameFromEnd(turns: seq<Entry>, k: nat)
    requires 1 <= k <= 4 && k <= |turns|
    ensures FromEnd(BoundedTurns(turns), k) == FromEnd(turns, k)
  {
  }

  /** The transcript after one more exchange. */
  function Longer(st: State, message: string, reply: string): seq<Entry> {
    st.turns + [Entry(User, st.nextId, message, 0), Entry(Assistant, st.nextId + 1, reply, 0)]
  }

  lemma {:induction false} LongerIs(st: State, message: string, reply: string)
    requires TurnsOk(st)
    ensures Distinct(Longer(st, message, reply), st.nextId + 2)
    ensures var all := Longer(st, message, reply);
      && FromEnd(all, 1) == Some(Entry(Assistant, st.nextId + 1, reply, 0)) && FromEnd(all, 2) == Some(Entry(User, st.nextId, message, 0))
      && (|st.turns| >= 2 ==> FromEnd(all, 3) == FromEnd(st.turns, 1) && FromEnd(all, 4) == FromEnd(st.turns, 2))
      && forall e :: e in all ==> e in st.turns || (e.id >= st.nextId && (e.id == st.nextId ==> e.text == message))
  {
  }

  lemma {:induction false} AppendedTurnsOk(st: State, message: string, reply: string, nextId: nat)
    requires TurnsOk(st) && nextId >= st.nextId + 2
    ensures var turns := BoundedTurns(Longer(st, message, reply));
      && TurnsOk(st.(turns := turns, nextId := nextId))
      && FromEnd(turns, 1) == Some(Entry(Assistant, st.nextId + 1, reply, 0)) && FromEnd(turns, 2) == Some(Entry(User, st.nextId, message, 0))
      && (|st.turns| >= 2 ==> FromEnd(turns, 3) == FromEnd(st.turns, 1) && FromEnd(turns, 4) == FromEnd(st.turns, 2))
      && forall e :: e in turns ==> e in st.turns || (e.id >= st.nextId && (e.id == st.nextId ==> e.text == message))
  {
    LongerIs(st, message, reply);
    BoundedIsSuffix(Longer(st, message, reply), st.nextId + 2);
    hide Longer, BoundedTurns;
  }

  /** Bindings of earlier questions survive: the new entries have new ids. */
  lemma {:induction false} BindingStays(lex: Lexicon, st: State, after: State, b: Binding, message: string)
    requires BoundTo(lex, st, b, message) && after.nextId >= st.nextId
    requires forall e :: e in after.turns ==> (exists d :: d in st.turns && d.id == e.id && d.text == e.text) || e.id >= st.nextId
    ensures BoundTo(lex, after, b, message)
  {
    forall i | 0 <= i < |after.turns| && after.turns[i].id == b.turn
      ensures after.turns[i].text == message
    {
      assert after.turns[i] in after.turns;
    }
  }

  // ------------------------------------------------------------------ steps that are not this session's turns

  /** The rows and tasks are untouched; only the clock, the transcript or fresh ids moved. */
  lemma {:induction false} RowsUntouched(lex: Lexicon, st: State, after: State)
    requires Inv(lex, st) && TurnsOk(after) && after.nextId >= st.nextId
    requires after.rows == st.rows && after.tasks == st.tasks && after.pointer == st.pointer && after.origin == st.origin
    requires after.context == st.context && after.epoch == st.epoch
    requires forall e :: e in after.turns ==> (exists d :: d in st.turns && d.id == e.id && d.text == e.text) || e.id >= st.nextId
    ensures Inv(lex, after)
  {
    forall id | id in after.rows
      ensures RowOk(lex, after, id)
    {
      assert RowOk(lex, st, id);
      if st.rows[id].kind == SearchOrVacancy { BindingStays(lex, st, after, st.rows[id].source.value, st.origin[id]); }
    }
    hide RowOk;
    SameChain(st, after);
  }

  lemma {:induction false} SameChain(st: State, after: State)
    requires ChainOk(st) && after.rows == st.rows && after.pointer == st.pointer
    ensures ChainOk(after)
  {
    if st.pointer.Some? && st.pointer.value in st.rows {
      var p := st.pointer.value;
      assert Predecessors(after, p) == Predecessors(st, p);
      if st.rows[p].attempt != 1 {
        var q: nat :| IsPredecessor(st, q, p) && Predecessors(st, p) == {q};
        assert IsPredecessor(after, q, p);
      }
    }
  }

  lemma {:induction false} ForeignKeepsInv(lex: Lexicon, st: State, message: string, reply: string)
    requires Inv(lex, st)
    ensures Inv(lex, Foreign(st, message, reply))
  {
    hide RowsOk, OneOpen, ChainOk, BoundedTurns;
    AppendedTurnsOk(st, message, reply, st.nextId + 2);
    RowsUntouched(lex, st, Foreign(st, message, reply));
  }

  lemma {:induction false} RewriteKeepsInv(lex: Lexicon, st: State, payload: TurnId -> nat)
    requires Inv(lex, st)
    ensures Inv(lex, st.(turns := Rewritten(st.turns, payload)))
  {
    hide RowsOk, OneOpen, ChainOk;
    var after := st.(turns := Rewritten(st.turns, payload));
    forall e | e in after.turns
      ensures exists d :: d in st.turns && d.id == e.id && d.text == e.text
    {
      var i :| 0 <= i < |after.turns| && after.turns[i] == e;
      assert st.turns[i] in st.turns;
    }
    RowsUntouched(lex, st, after);
  }

  lemma {:induction false} TickKeepsInv(lex: Lexicon, st: State, seconds: nat)
    requires Inv(lex, st)
    ensures Inv(lex, st.(now := st.now + seconds))
  {
    hide RowsOk, OneOpen, ChainOk;
    RowsUntouched(lex, st, st.(now := st.now + seconds));
  }

  // ------------------------------------------------------------------ one turn of this session

  lemma {:induction false} PointerIsConsistent(lex: Lexicon, st: State)
    requires Inv(lex, st) && st.pointer.Some?
    ensures Consistent(st) && RowOk(lex, st, st.pointer.value)
  {
  }

  /** Ending the question, in any way but a retry, leaves no question open and no task waiting. */
  lemma {:induction false} EndingKeepsInv(lex: Lexicon, st: State, t: Transition, resolvedAs: TaskStatus)
    requires Inv(lex, st) && st.pointer.Some? && Readable(st, st.pointer.value) && !t.Retry? && resolvedAs != WaitingClarification
    ensures Inv(lex, Transitioned(st, st.pointer.value, t, resolvedAs))
    ensures Transitioned(st, st.pointer.value, t, resolvedAs).rows[st.pointer.value].status != Open
  {
    EndedRowsOk(lex, st, t, resolvedAs);
    assert RowOk(lex, st, st.pointer.value);
    hide RowsOk, RowOk, TurnsOk;
  }

  lemma {:induction false} EndedRowsOk(lex: Lexicon, st: State, t: Transition, resolvedAs: TaskStatus)
    requires TurnsOk(st) && RowsOk(lex, st) && st.pointer.Some? && Readable(st, st.pointer.value) && !t.Retry?
    ensures TurnsOk(Transitioned(st, st.pointer.value, t, resolvedAs)) && RowsOk(lex, Transitioned(st, st.pointer.value, t, resolvedAs))
  {
    var after := Transitioned(st, st.pointer.value, t, resolvedAs);
    forall id | id in after.rows ensures RowOk(lex, after, id) { assert RowOk(lex, st, id); }
  }

  lemma {:induction false} AppendingKeepsInv(lex: Lexicon, st: State, x: Exchange)
    requires Inv(lex, st)
    ensures Inv(lex, Appended(st, x).(nextId := st.nextId + 4))
  {
    hide RowsOk, OneOpen, ChainOk, BoundedTurns;
    AppendedTurnsOk(st, x.message, x.reply, st.nextId + 4);
    RowsUntouched(lex, st, Appended(st, x).(nextId := st.nextId + 4));
  }

  lemma {:induction false} FirstRowsOk(lex: Lexicon, st: State, x: Exchange, kind: Kind)
    requires Inv(lex, st) && st.pointer == None
    ensures var after := WithFirst(lex, Appended(st, x), x, kind).(nextId := st.nextId + 4); RowsOk(lex, after)
  {
    var after := WithFirst(lex, Appended(st, x), x, kind).(nextId := st.nextId + 4);
    hide RowOk, BoundedTurns, TurnsOk;
    forall id | id in after.rows
      ensures RowOk(lex, after, id)
    {
      if id == st.nextId + 2 { FirstRowOk(lex, st, x, kind); } else { EarlierRowOk(lex, st, x, kind, id); }
    }
  }

  lemma {:induction false} FirstRowOk(lex: Lexicon, st: State, x: Exchange, kind: Kind)
    requires TurnsOk(st)
    ensures RowOk(lex, WithFirst(lex, Appended(st, x), x, kind).(nextId := st.nextId + 4), st.nextId + 2)
  {
    var after := WithFirst(lex, Appended(st, x), x, kind).(nextId := st.nextId + 4);
    AppendedTurnsOk(st, x.message, x.reply, st.nextId + 4);
    hide BoundedTurns, TurnsOk;
    forall i | 0 <= i < |after.turns| && after.turns[i].id == st.nextId
      ensures after.turns[i].text == x.message
    {
      assert after.turns[i] in after.turns;
    }
  }

  lemma {:induction false} EarlierRowOk(lex: Lexicon, st: State, x: Exchange, kind: Kind, id: ClarificationId)
    requires TurnsOk(st) && RowsOk(lex, st) && id != st.nextId + 2
    requires id in WithFirst(lex, Appended(st, x), x, kind).(nextId := st.nextId + 4).rows
    ensures RowOk(lex, WithFirst(lex, Appended(st, x), x, kind).(nextId := st.nextId + 4), id)
  {
    var after := WithFirst(lex, Appended(st, x), x, kind).(nextId := st.nextId + 4);
    AppendedTurnsOk(st, x.message, x.reply, st.nextId + 4);
    assert id in st.rows && RowOk(lex, st, id);
    hide BoundedTurns, TurnsOk, RowsOk, BoundTo;
    if st.rows[id].kind == SearchOrVacancy { BindingStays(lex, st, after, st.rows[id].source.value, st.origin[id]); }
  }

  lemma {:induction false} FirstKeepsInv(lex: Lexicon, st: State, x: Exchange, kind: Kind)
    requires Inv(lex, st) && st.pointer == None
    requires forall t :: t in x.purged ==> t in st.tasks && Terminal(st.tasks[t])
    ensures Inv(lex, WithFirst(lex, Appended(st, x), x, kind).(nextId := st.nextId + 4))
  {
    var after := WithFirst(lex, Appended(st, x), x, kind).(nextId := st.nextId + 4);
    FirstRowsOk(lex, st, x, kind);
    assert TurnsOk(after) by { AppendedTurnsOk(st, x.message, x.reply, st.nextId + 4); }
    assert OneOpen(after) by { FirstIsOnlyOpen(lex, st, x, kind); }
    hide BoundedTurns, Longer, OneOpen, TurnsOk, BoundTo;
    forall k | k in after.rows
      ensures after.rows[k].supersededBy != Some(st.nextId + 2)
    {
      if k in st.rows { assert RowOk(lex, st, k); }
    }
    assert Predecessors(after, st.nextId + 2) == {};
  }

  lemma {:induction false} FirstIsOnlyOpen(lex: Lexicon, st: State, x: Exchange, kind: Kind)
    requires RowsOk(lex, st) && OneOpen(st) && st.pointer == None
    ensures OneOpen(WithFirst(lex, Appended(st, x), x, kind).(nextId := st.nextId + 4))
  {
    hide BoundedTurns, BoundTo;
  }

  lemma {:induction false} RetriedParts(lex: Lexicon, st: State, x: Exchange)
    requires CanRetry(st)
    ensures var after, p := Retried(lex, st, x), st.pointer.value;
      && after.turns == BoundedTurns(Longer(st, x.message, x.reply)) && after.nextId == st.nextId + 4
      && after.context == st.context && after.epoch == st.epoch
      && after.tasks == st.tasks[st.rows[p].task := WaitingClarification]
      && after.rows == st.rows[p := st.rows[p].(status := Superseded, supersededReason := Some(Unclear), supersededBy := Some(st.nextId + 2))][
           st.nextId + 2 := SecondQuestion(lex, st, x, st.rows[p])]
      && after.origin == if p in st.origin then st.origin[st.nextId + 2 := st.origin[p]] else st.origin
  {
    hide BoundedTurns;
  }

  /** Every row, the retry included, keeps the binding of the row it comes from. */
  lemma {:induction false} SecondRowOk(lex: Lexicon, st: State, x: Exchange, id: ClarificationId)
    requires TurnsOk(st) && RowsOk(lex, st) && CanRetry(st) && id in Retried(lex, st, x).rows
    ensures RowOk(lex, Retried(lex, st, x), id)
  {
    var p := st.pointer.value;
    RetriedParts(lex, st, x);
    var from := if id == st.nextId + 2 then p else id;
    assert RowOk(lex, st, p) && RowOk(lex, st, from);
    if st.rows[from].kind == SearchOrVacancy { RetriedBinding(lex, st, x, st.rows[from].source.value, st.origin[from]); }
    hide BoundedTurns, Longer, Retried, TurnsOk, BoundTo, RowsOk;
  }

  lemma {:induction false} RetriedBinding(lex: Lexicon, st: State, x: Exchange, b: Binding, message: string)
    requires TurnsOk(st) && CanRetry(st) && BoundTo(lex, st, b, message)
    ensures BoundTo(lex, Retried(lex, st, x), b, message)
  {
    AppendedTurnsOk(st, x.message, x.reply, st.nextId + 4);
    RetriedParts(lex, st, x);
    hide BoundedTurns, Longer, Retried, TurnsOk, BoundTo;
    BindingStays(lex, st, Retried(lex, st, x), b, message);
  }

  lemma {:induction false} SecondRowsOk(lex: Lexicon, st: State, x: Exchange)
    requires Inv(lex, st) && CanRetry(st)
    ensures RowsOk(lex, Retried(lex, st, x))
  {
    var after := Retried(lex, st, x);
    RetriedParts(lex, st, x);
    assert RowOk(lex, st, st.pointer.value);
    hide Retried, BoundedTurns, Longer, TurnsOk, OneOpen, ChainOk, RowOk;
    forall id | id in after.rows ensures RowOk(lex, after, id) { SecondRowOk(lex, st, x, id); }
  }

  predicate CanRetry(st: State) {
    st.pointer.Some? && Readable(st, st.pointer.value) && st.rows[st.pointer.value].attempt == 1
  }

  /** The state after an unclear first answer. */
  function Retried(lex: Lexicon, st: State, x: Exchange): State
    requires CanRetry(st)
  {
    WithSecond(lex, Appended(Transitioned(st, st.pointer.value, Retry, FailedSafe), x), x, st.pointer.value).(nextId := st.nextId + 4)
  }

  lemma {:induction false} SecondTurnsOk(lex: Lexicon, st: State, x: Exchange)
    requires TurnsOk(st) && CanRetry(st)
    ensures TurnsOk(Retried(lex, st, x))
  {
    AppendedTurnsOk(st, x.message, x.reply, st.nextId + 4);
    RetriedParts(lex, st, x);
    hide BoundedTurns, Longer, Retried;
  }

  lemma {:induction false} SecondIsOnlyOpen(lex: Lexicon, st: State, x: Exchange)
    requires RowsOk(lex, st) && OneOpen(st) && CanRetry(st)
    ensures OneOpen(Retried(lex, st, x))
  {
    hide BoundedTurns, BoundTo;
    assert RowOk(lex, st, st.pointer.value);
  }

  lemma {:induction false} SecondChainOk(lex: Lexicon, st: State, x: Exchange)
    requires RowsOk(lex, st) && CanRetry(st)
    ensures ChainOk(Retried(lex, st, x))
  {
    hide BoundedTurns, BoundTo;
    var p, after := st.pointer.value, Retried(lex, st, x);
    forall k | k in st.rows
      ensures st.rows[k].supersededBy != Some(st.nextId + 2) && k != st.nextId + 2
    {
      assert RowOk(lex, st, k);
    }
    assert Predecessors(after, st.nextId + 2) == {p};
    assert IsPredecessor(after, p, st.nextId + 2);
  }

  lemma {:induction false} SecondKeepsInv(lex: Lexicon, st: State, x: Exchange)
    requires Inv(lex, st) && CanRetry(st)
    ensures Inv(lex, Retried(lex, st, x))
  {
    hide TurnsOk, RowsOk, OneOpen, ChainOk;
    SecondTurnsOk(lex, st, x);
    SecondRowsOk(lex, st, x);
    SecondIsOnlyOpen(lex, st, x);
    SecondChainOk(lex, st, x);
  }

  lemma {:induction false} RetryIsFirst(lex: Lexicon, st: State, button: Option<Button>, r: Reading)
    requires Inv(lex, st) && ResolveState(lex, st, button, r) == Staged(Retry)
    ensures st.pointer.Some? && Readable(st, st.pointer.value) && st.rows[st.pointer.value].attempt == 1
  {
    assert RowOk(lex, st, st.pointer.value);
  }

  lemma {:induction false} CommitKeepsInv(lex: Lexicon, before: State, x: Exchange)
    requires Inv(lex, before) && Commit(lex, before, x).Some?
    ensures Inv(lex, Commit(lex, before, x).value)
  {
    hide Inv, ResolveState, StillHolds, Consistent;
    var res := ResolveState(lex, before, x.button, x.reading);
    var st := before.(now := before.now + x.elapsed);
    TickKeepsInv(lex, before, x.elapsed);
    if res == Staged(Retry) {
      RetryIsFirst(lex, before, x.button, x.reading);
      PointerIsConsistent(lex, st);
      SecondKeepsInv(lex, st, x);
    } else {
      var settled := st;
      if res.Staged? {
        StagedHasPointer(lex, before, x.button, x.reading);
        PointerIsConsistent(lex, st);
        assert Readable(st, st.pointer.value) by { ConsistentIsReadable(st); }
        EndingKeepsInv(lex, st, res.transition, x.resolvedAs);
        settled := Transitioned(st, st.pointer.value, res.transition, x.resolvedAs);
      } else {
        NoQuestionNoPointer(lex, before, x.button, x.reading);
      }
      AppendingKeepsInv(lex, settled, x);
      var asked := Opened(lex, x, res);
      if asked.Some? {
        assert forall t :: t in x.purged ==> t in settled.tasks && Terminal(settled.tasks[t]);
        FirstKeepsInv(lex, settled, x, asked.value);
      }
    }
  }

  lemma {:induction false} ConsistentIsReadable(st: State)
    requires Consistent(st)
    ensures st.pointer.Some? && Readable(st, st.pointer.value)
  {
  }

  lemma {:induction false} StagedHasPointer(lex: Lexicon, st: State, button: Option<Button>, r: Reading)
    requires ResolveState(lex, st, button, r).Staged?
    ensures st.pointer.Some?
  {
  }

  lemma {:induction false} NoQuestionNoPointer(lex: Lexicon, st: State, button: Option<Button>, r: Reading)
    ensures ResolveState(lex, st, button, r).NoQuestion? <==> st.pointer.None? && button.None?
  {
  }

  lemma {:induction false} InvKept(lex: Lexicon, st: State, step: Step)
    requires Inv(lex, st)
    ensures Inv(lex, Next(lex, st, step))
  {
    hide Inv, Commit, Foreign, Rewritten;
    match step
    case OwnTurn(x) => if Commit(lex, st, x).Some? { CommitKeepsInv(lex, st, x); }
    case ForeignTurn(message, reply) => ForeignKeepsInv(lex, st, message, reply);
    case PayloadsRewritten(payload) => RewriteKeepsInv(lex, st, payload);
    case Tick(seconds) => TickKeepsInv(lex, st, seconds);
  }

  /** Every reachable state: one open question at most, its chain intact, and every binding exact. */
  lemma {:induction false} RunKeepsInv(lex: Lexicon, st: State, steps: seq<Step>)
    requires Inv(lex, st)
    ensures Inv(lex, RunAll(lex, st, steps))
  {
    hide Inv, Next;
    if steps != [] {
      RunKeepsInv(lex, st, steps[..|steps| - 1]);
      InvKept(lex, RunAll(lex, st, steps[..|steps| - 1]), steps[|steps| - 1]);
    }
  }
}
