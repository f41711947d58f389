/**
 Resumable questions (`agent/dialogue.py`, `_resolve_dialogue_state` of `agent/service.py` and the rows
 written by `services/agent_task_repo.py`): when a question is still the one being answered, what an
 answer resumes, and what each committed exchange does to the question.
 */
module Dialogue {
  import opened Wrappers

  type TurnId = nat
  type ClarificationId = nat
  type TaskId = nat

  const MAX_SOURCE_OFFSET := 4000
  const MAX_ATTEMPTS := 2
  const MAX_PERSISTED_TURNS := 100

  datatype Role = User | Assistant

  /** One transcript entry. The payload is whatever draft or display data it also carries. */
  datatype Entry = Entry(role: Role, id: TurnId, text: string, payload: nat)

  datatype Kind = SearchOrVacancy | VacancySource
  datatype Choice = CandidateSearch | VacancyAnalysis
  datatype Status = Open | Resolved | Superseded | Expired
  datatype SupersededReason = Unclear | NewTask
  datatype ExpiryReason = Stale | TimedOut | VersionChanged | SourceMismatch | AttemptsExhausted
  datatype TaskStatus = WaitingClarification | WaitingConfirmation | Completed | Cancelled | TaskExpired | FailedSafe

  /** The answer schema, semantic policy and routing policy a question was asked under. */
  datatype Versions = Versions(answerSchema: string, semanticPolicy: string, routingPolicy: string)

  datatype Binding = Binding(turn: TurnId, sha256: string, start: nat, end: nat)

  datatype Clarification = Clarification(
    id: ClarificationId, task: TaskId, context: nat, epoch: nat, kind: Kind, versions: Versions,
    question: TurnId, createdFrom: TurnId, source: Option<Binding>,
    status: Status, attempt: nat, expiresAt: int,
    supersededBy: Option<ClarificationId>, supersededReason: Option<SupersededReason>)

  /** The source analysis and the digest, as uninterpreted functions. */
  datatype Lexicon = Lexicon(requirementsOk: string -> bool, sha256: string -> string, versions: Versions)

  // ------------------------------------------------------------------ is the question still live?

  /** `turns[-k]`. */
  function FromEnd(turns: seq<Entry>, k: nat): Option<Entry>
    requires k >= 1
  {
    if |turns| >= k then Some(turns[|turns| - k]) else None
  }

  predicate Is(e: Option<Entry>, id: TurnId, role: Role) {
    e.Some? && e.value.role == role && e.value.id == id
  }

  /** Python's `text[start:end]`, which never fails. */
  function Slice(text: string, start: nat, end: nat): string {
    var last := if end <= |text| then end else |text|;
    if start <= last then text[start..last] else ""
  }

  /** The rules of the append-position binding and the two-attempt chain, after the row's own fields. */
  function ChainFailure(turns: seq<Entry>, c: Clarification, p: Option<Clarification>): Option<ExpiryReason> {
    if !Is(FromEnd(turns, 1), c.question, Assistant) || !Is(FromEnd(turns, 2), c.createdFrom, User) then Some(Stale)
    else if c.attempt == 1 then
      if p.Some? then Some(Stale)
      else if c.kind == SearchOrVacancy && (c.source.None? || c.createdFrom != c.source.value.turn) then Some(Stale)
      else None
    else if c.attempt == 2 then
      if p.None? then Some(Stale)
      else
        var q := p.value;
        if q.supersededBy != Some(c.id) || q.status != Superseded || q.supersededReason != Some(Unclear) || q.attempt != 1
           || q.task != c.task || q.context != c.context || q.kind != c.kind
           || !Is(FromEnd(turns, 4), q.createdFrom, User) || !Is(FromEnd(turns, 3), q.question, Assistant) then Some(Stale)
        else if c.kind == SearchOrVacancy && (q.source != c.source || q.source.None? || q.createdFrom != q.source.value.turn) then Some(Stale)
        else None
    else Some(Stale)
  }

  /** Where the source entry of a chain stands: the user turn that began it. */
  function SourceEntry(turns: seq<Entry>, c: Clarification): Option<Entry> {
    FromEnd(turns, if c.attempt == 1 then 2 else 4)
  }

  function SourceFailure(lex: Lexicon, turns: seq<Entry>, c: Clarification): Option<ExpiryReason> {
    if c.kind == VacancySource then (if c.source.Some? then Some(Stale) else None)
    else
      var e := SourceEntry(turns, c);
      if c.source.None? || e.None? then Some(SourceMismatch)
      else
        var b, text := c.source.value, e.value.text;
        if !(b.start < b.end && b.end <= |text| && b.end <= MAX_SOURCE_OFFSET)
           || e.value.id != b.turn || lex.sha256(Slice(text, b.start, b.end)) != b.sha256
           || !lex.requirementsOk(Slice(text, b.start, b.end)) then Some(SourceMismatch)
        else None
  }

  /** `liveness_failure`: nothing means live. */
  function LivenessFailure(
      lex: Lexicon, turns: seq<Entry>, c: Clarification, p: Option<Clarification>, taskStatus: TaskStatus, now: int,
      context: nat, epoch: nat): Option<ExpiryReason>
  {
    if c.status != Open then Some(Stale)
    else if c.expiresAt <= now then Some(TimedOut)
    else if c.context != context || c.epoch != epoch || taskStatus != WaitingClarification then Some(Stale)
    else if c.versions != lex.versions then Some(VersionChanged)
    else if ChainFailure(turns, c, p).Some? then ChainFailure(turns, c, p)
    else SourceFailure(lex, turns, c)
  }

  /** The last four entries: nothing before them is ever read. */
  function LastFour(turns: seq<Entry>): seq<Entry> {
    if |turns| <= 4 then turns else turns[|turns| - 4..]
  }

  function FirstWithId(turns: seq<Entry>, id: TurnId): Option<Entry> {
    if turns == [] then None else if turns[0].id == id then Some(turns[0]) else FirstWithId(turns[1..], id)
  }

  /** `bound_source_text`; nothing where the code would raise. */
  function BoundSourceText(turns: seq<Entry>, c: Clarification): Option<string> {
    if c.source.None? then None
    else
      var e := FirstWithId(LastFour(turns), c.source.value.turn);
      if e.None? then None else Some(Slice(e.value.text, c.source.value.start, c.source.value.end))
  }

  lemma {:induction false} FirstWithIdFinds(turns: seq<Entry>, k: nat)
    requires k < |turns|
    ensures FirstWithId(turns, turns[k].id).Some?
    ensures FirstWithId(turns, turns[k].id).value in turns && FirstWithId(turns, turns[k].id).value.id == turns[k].id
  {
    if k > 0 && turns[0].id != turns[k].id {
      FirstWithIdFinds(turns[1..], k - 1);
    }
  }

  /** After a liveness check the source is always found, whatever else the transcript holds. */
  lemma {:induction false} BoundSourceNeverRaises(
      lex: Lexicon, turns: seq<Entry>, c: Clarification, p: Option<Clarification>, taskStatus: TaskStatus, now: int,
      context: nat, epoch: nat)
    requires LivenessFailure(lex, turns, c, p, taskStatus, now, context, epoch) == None && c.kind == SearchOrVacancy
    ensures BoundSourceText(turns, c).Some?
  {
    var k := if c.attempt == 1 then 2 else 4;
    var last := LastFour(turns);
    assert last[|last| - k] == turns[|turns| - k];
    FirstWithIdFinds(last, |last| - k);
  }

  // ------------------------------------------------------------------ what an answer does

  datatype Proposal = NewRequest | CannotTell | Picked(choice: Choice) | ClassifierFailed
  datatype Slot = SlotSource(text: string) | SlotNewTask | SlotUnclear

  /** How the message reads: the label table, the router, the model's answer and the slot detector. */
  datatype Reading = Reading(named: Option<Choice>, clearNewTask: bool, proposal: Proposal, slot: Slot)

  /** A posted button; an unreadable choice is none. */
  datatype Button = Button(clarification: Option<ClarificationId>, choice: Option<Choice>)

  datatype Transition =
    | Resolve(answer: Choice, resumed: string)
    | SupersedeForNewTask
    | Retry
    | Exhaust
    | Expire(reason: ExpiryReason)

  datatype Resolution = NoQuestion | Rejected | AnswerUnavailable | Staged(transition: Transition)

  /** `_resolve_dialogue_state` once the pointed-to row has been read. */
  function ResolveLive(
      lex: Lexicon, turns: seq<Entry>, c: Clarification, p: Option<Clarification>, taskStatus: TaskStatus, now: int,
      context: nat, epoch: nat, choice: Option<Choice>, r: Reading): Resolution
  {
    var failure := LivenessFailure(lex, turns, c, p, taskStatus, now, context, epoch);
    if failure.Some? then Staged(Expire(failure.value))
    else
      var unclear := if c.attempt >= MAX_ATTEMPTS then Exhaust else Retry;
      if c.kind == SearchOrVacancy then
        var source := BoundSourceText(turns, c);
        if source.None? then AnswerUnavailable
        else if choice.Some? then Staged(Resolve(choice.value, source.value))
        else if r.named.Some? then Staged(Resolve(r.named.value, source.value))
        else if r.clearNewTask then Staged(SupersedeForNewTask)
        else
          match r.proposal
          case NewRequest => Staged(SupersedeForNewTask)
          case CannotTell => Staged(unclear)
          case Picked(answer) => Staged(Resolve(answer, source.value))
          case ClassifierFailed => AnswerUnavailable
      else
        match r.slot
        case SlotSource(text) => Staged(Resolve(VacancyAnalysis, text))
        case SlotNewTask => Staged(SupersedeForNewTask)
        case SlotUnclear => Staged(unclear)
  }

  // ------------------------------------------------------------------ the rows

  /**
   One session's side of a conversation. `origin` is an observer's note: for each question of the first
   kind, the message that was ambiguous in the first place.
   */
  datatype State = State(
    now: int, turns: seq<Entry>, context: nat, epoch: nat, pointer: Option<ClarificationId>,
    rows: map<ClarificationId, Clarification>, tasks: map<TaskId, TaskStatus>, nextId: nat,
    origin: map<ClarificationId, string>)

  /** The rows that name `id` as their successor; more than one is a forged chain. */
  function Predecessors(st: State, id: ClarificationId): set<ClarificationId> {
    set k | k in st.rows && st.rows[k].supersededBy == Some(id)
  }

  ghost function PredecessorOf(st: State, id: ClarificationId): Option<Clarification> {
    var ps := Predecessors(st, id);
    if |ps| == 1 then (var k :| k in ps; Some(st.rows[k])) else None
  }

  ghost function Failure(lex: Lexicon, st: State, id: ClarificationId): Option<ExpiryReason>
    requires id in st.rows && st.rows[id].task in st.tasks
  {
    if |Predecessors(st, id)| > 1 then Some(Stale)
    else LivenessFailure(lex, st.turns, st.rows[id], PredecessorOf(st, id), st.tasks[st.rows[id].task], st.now, st.context, st.epoch)
  }

  predicate Readable(st: State, id: ClarificationId) {
    id in st.rows && st.rows[id].task in st.tasks
  }

  /** `_resolve_dialogue_state`. */
  ghost function ResolveState(lex: Lexicon, st: State, button: Option<Button>, r: Reading): Resolution {
    if button.Some?
       && (st.pointer.None? || !Readable(st, st.pointer.value) || button.value.clarification != st.pointer
           || st.rows[st.pointer.value].kind == VacancySource || button.value.choice.None?) then Rejected
    else if st.pointer.None? then NoQuestion
    else
      var id := st.pointer.value;
      if !Readable(st, id) then Staged(Expire(Stale))
      else if |Predecessors(st, id)| > 1 then Staged(Expire(Stale))
      else
        ResolveLive(lex, st.turns, st.rows[id], PredecessorOf(st, id), st.tasks[st.rows[id].task], st.now, st.context, st.epoch,
                    if button.Some? then button.value.choice else None, r)
  }

  /** Whether the transition was staged on the claim that the question is live. */
  predicate RequiresLive(t: Transition) {
    !t.Expire?
  }

  function StatusAfter(t: Transition): Status {
    match t
    case Resolve(_, _) => Resolved
    case SupersedeForNewTask => Superseded
    case Retry => Superseded
    case Exhaust => Expired
    case Expire(_) => Expired
  }

  /** The question's task afterwards; a retry keeps it waiting, a resolution ends as its capability did. */
  function TaskAfter(t: Transition, resolvedAs: TaskStatus): TaskStatus {
    match t
    case Resolve(_, _) => resolvedAs
    case SupersedeForNewTask => Cancelled
    case Retry => WaitingClarification
    case Exhaust => FailedSafe
    case Expire(_) => TaskExpired
  }

  /** One committed turn of this session, apart from the question it answers. */
  datatype Exchange = Exchange(
    message: string, reply: string, button: Option<Button>, reading: Reading, opens: Option<Kind>,
    resolvedAs: TaskStatus, elapsed: nat, questionSeconds: nat, sessionExpiresAt: int, purged: set<TaskId>)

  function Eligible(lex: Lexicon, message: string): bool {
    0 < |message| <= MAX_SOURCE_OFFSET && lex.requirementsOk(message)
  }

  /** Which new first-attempt question the turn opens: none when it resumes, retries or only replies. */
  function Opened(lex: Lexicon, x: Exchange, res: Resolution): Option<Kind> {
    if !(res.NoQuestion? || (res.Staged? && res.transition.SupersedeForNewTask?)) then None
    else if x.opens == Some(SearchOrVacancy) && !Eligible(lex, x.message) then None
    else x.opens
  }

  function MinInt(a: int, b: int): int {
    if a < b then a else b
  }

  function BoundedTurns(turns: seq<Entry>): seq<Entry> {
    if |turns| <= MAX_PERSISTED_TURNS then turns else turns[|turns| - MAX_PERSISTED_TURNS..]
  }

  /** `search_or_vacancy_clarification` and `vacancy_source_clarification`. */
  function FirstQuestion(lex: Lexicon, st: State, x: Exchange, kind: Kind): Clarification {
    Clarification(
      st.nextId + 2, st.nextId + 3, st.context, st.epoch, kind, lex.versions, st.nextId + 1, st.nextId,
      if kind == SearchOrVacancy then Some(Binding(st.nextId, lex.sha256(x.message), 0, |x.message|)) else None,
      Open, 1, MinInt(st.now + x.questionSeconds, x.sessionExpiresAt), None, None)
  }

  /** `retry_clarification`: same task, same kind, the same original source. */
  function SecondQuestion(lex: Lexicon, st: State, x: Exchange, c: Clarification): Clarification {
    Clarification(
      st.nextId + 2, c.task, st.context, st.epoch, c.kind, lex.versions, st.nextId + 1, st.nextId, c.source,
      Open, c.attempt + 1, MinInt(st.now + x.questionSeconds, x.sessionExpiresAt), None, None)
  }

  predicate Terminal(s: TaskStatus) {
    s == Completed || s == Cancelled || s == TaskExpired || s == FailedSafe
  }

  /** The old question's row and task after the transition, and the dangling pointer gone. */
  function Transitioned(st: State, id: ClarificationId, t: Transition, resolvedAs: TaskStatus): State
    requires Readable(st, id)
  {
    var c := st.rows[id];
    st.(rows := st.rows[id := c.(
          status := StatusAfter(t),
          supersededReason := if t.Retry? then Some(Unclear) else if t.SupersedeForNewTask? then Some(NewTask) else None)],
        tasks := st.tasks[c.task := TaskAfter(t, resolvedAs)], pointer := None)
  }

  function Appended(st: State, x: Exchange): State {
    st.(turns := BoundedTurns(st.turns + [Entry(User, st.nextId, x.message, 0), Entry(Assistant, st.nextId + 1, x.reply, 0)]))
  }

  function WithFirst(lex: Lexicon, st: State, x: Exchange, kind: Kind): State {
    var q := FirstQuestion(lex, st, x, kind);
    var kept := map k | k in st.rows && !(st.rows[k].task in x.purged) :: st.rows[k];
    st.(rows := kept[q.id := q], tasks := (st.tasks - x.purged)[q.task := WaitingClarification], pointer := Some(q.id),
        origin := if kind == SearchOrVacancy then st.origin[q.id := x.message] else st.origin)
  }

  function WithSecond(lex: Lexicon, st: State, x: Exchange, id: ClarificationId): State
    requires id in st.rows
  {
    var q := SecondQuestion(lex, st, x, st.rows[id]);
    st.(rows := st.rows[id := st.rows[id].(supersededBy := Some(q.id))][q.id := q], pointer := Some(q.id),
        origin := if id in st.origin then st.origin[q.id := st.origin[id]] else st.origin)
  }

  /** The row, its task and the reservation are as the turn saw them (`lock_dialogue_rows`). */
  ghost predicate StillHolds(lex: Lexicon, st: State, t: Transition) {
    && st.pointer.Some?
    && (Consistent(st) || t.Expire?)
    && (RequiresLive(t) ==> Readable(st, st.pointer.value) && Failure(lex, st, st.pointer.value) == None)
  }

  predicate Consistent(st: State) {
    && st.pointer.Some? && Readable(st, st.pointer.value)
    && st.rows[st.pointer.value].status == Open && st.tasks[st.rows[st.pointer.value].task] == WaitingClarification
  }

  /**
   One turn of this session: the question is resolved on what the turn read, and `elapsed` seconds later
   everything is written at once, unless the question has gone in the meantime. Nothing means the turn
   did not commit.
   */
  ghost function Commit(lex: Lexicon, before: State, x: Exchange): Option<State> {
    var res := ResolveState(lex, before, x.button, x.reading);
    var st := before.(now := before.now + x.elapsed);
    if res.Rejected? || res.AnswerUnavailable? then None
    else if res.Staged? && !StillHolds(lex, st, res.transition) then None
    else if !(forall t :: t in x.purged ==> t in st.tasks && Terminal(st.tasks[t])) || x.resolvedAs !in {WaitingConfirmation, Completed, FailedSafe} then None
    else
      var settled :=
        if res.Staged? then (if Consistent(st) then Transitioned(st, st.pointer.value, res.transition, x.resolvedAs) else st.(pointer := None))
        else st;
      var appended := Appended(settled, x);
      var asked := Opened(lex, x, res);
      Some((if res.Staged? && res.transition.Retry? then WithSecond(lex, appended, x, before.pointer.value)
            else if asked.Some? then WithFirst(lex, appended, x, asked.value)
            else appended).(nextId := st.nextId + 4))
  }
}
