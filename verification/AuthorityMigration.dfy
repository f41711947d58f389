/**
 The schema migration that separates durable conversations from live session contexts
 (`alembic/versions/b7e3c9d41f28`), as a transformation of tables. A column that does not exist at a
 revision, and a NULL in one that does, is nothing. A failed migration rolls its transaction back.
 */
module AuthorityMigration {
  import opened Wrappers

  type ConversationId = nat
  type ContextId = nat
  type SessionId = nat
  type ResultSetId = nat
  type UserId = nat
  type MembershipId = nat
  type TenantId = nat

  datatype Title = New | General | OtherTitle

  /** One transcript element; only an object can carry the draft key. */
  datatype Turn = Turn(isObject: bool, hasDraftKey: bool, body: string)

  datatype Conversation = Conversation(
    tenant: TenantId, turns: seq<Turn>, createdAt: int, updatedAt: int,
    session: Option<SessionId>, epoch: Option<int>, resultSet: Option<ResultSetId>,
    ownerUser: Option<UserId>, ownerMembership: Option<MembershipId>, title: Option<Title>)

  datatype Context = Context(
    tenant: TenantId, conversation: ConversationId, session: SessionId, epoch: int,
    resultSet: Option<ResultSetId>, draft: Option<nat>, createdAt: int, updatedAt: int)

  datatype ResultSet = ResultSet(tenant: TenantId, session: SessionId, payload: string, conversation: Option<ConversationId>)

  datatype BrowserSession = BrowserSession(user: UserId, membership: MembershipId)
  datatype Membership = Membership(user: UserId, tenant: TenantId)

  datatype Database = Database(
    conversations: map<ConversationId, Conversation>, contexts: map<ContextId, Context>, resultSets: map<ResultSetId, ResultSet>,
    sessions: map<SessionId, BrowserSession>, memberships: map<MembershipId, Membership>)

  datatype Refusal =
    | NotOneToOne | OwnerUnknown | EpochNotPositive | ResultSetUnattributed
    | NotOneContext | SessionShared | ResultSetElsewhere | OwnerWouldChange | DraftPending | DraftInTranscript

  // ------------------------------------------------------------------ the two layouts

  /** The old revision: sessions live on the conversation row, uniquely, and nothing else exists yet. */
  ghost predicate IsOld(db: Database) {
    && db.contexts == map[]
    && (forall c :: c in db.conversations ==> OldRow(db.conversations[c]))
    && (forall r :: r in db.resultSets ==> db.resultSets[r].conversation == None)
    && forall s :: s in db.sessions ==> db.sessions[s].membership in db.memberships
  }

  predicate OldRow(c: Conversation) {
    c.session.Some? && c.epoch.Some? && c.ownerUser == None && c.ownerMembership == None && c.title == None
  }

  /** The new revision, with the constraints its tables declare. */
  ghost predicate IsNew(db: Database) {
    && (forall c :: c in db.conversations ==> NewRow(db.conversations[c]))
    && (forall x :: x in db.contexts ==> db.contexts[x].conversation in db.conversations && db.contexts[x].epoch >= 1)
    && (forall r :: r in db.resultSets ==> db.resultSets[r].conversation.Some? && db.resultSets[r].conversation.value in db.conversations)
    && forall s :: s in db.sessions ==> db.sessions[s].membership in db.memberships
  }

  predicate NewRow(c: Conversation) {
    c.session == None && c.epoch == None && c.resultSet == None && c.ownerUser.Some? && c.ownerMembership.Some? && c.title.Some?
  }

  // ------------------------------------------------------------------ upgrade

  predicate OneToOne(db: Database) {
    forall c, d :: c in db.conversations && d in db.conversations && c != d ==> db.conversations[c].session != db.conversations[d].session
  }

  /** The owner behind a session, when its membership belongs to the same user and to the tenant. */
  function OwnerOf(db: Database, session: Option<SessionId>, tenant: TenantId): Option<(UserId, MembershipId)> {
    if session.None? || session.value !in db.sessions then None
    else
      var bs := db.sessions[session.value];
      if bs.membership in db.memberships && db.memberships[bs.membership] == Membership(bs.user, tenant) then Some((bs.user, bs.membership)) else None
  }

  predicate OwnersKnown(db: Database) {
    forall c :: c in db.conversations ==> OwnerOf(db, db.conversations[c].session, db.conversations[c].tenant).Some?
  }

  predicate EpochsPositive(db: Database) {
    forall c :: c in db.conversations ==> db.conversations[c].epoch.Some? && db.conversations[c].epoch.value >= 1
  }

  predicate Attributes(db: Database, r: ResultSet, c: ConversationId) {
    c in db.conversations && db.conversations[c].session == Some(r.session) && db.conversations[c].tenant == r.tenant
  }

  predicate AllAttributed(db: Database) {
    forall r :: r in db.resultSets ==> exists c :: c in db.conversations && Attributes(db, db.resultSets[r], c)
  }

  ghost function Attribution(db: Database, r: ResultSet): ConversationId
    requires exists c :: Attributes(db, r, c)
  {
    var c :| Attributes(db, r, c);
    c
  }

  function UpgradedRow(db: Database, c: Conversation): Conversation {
    var owner := OwnerOf(db, c.session, c.tenant);
    c.(session := None, epoch := None, resultSet := None,
       ownerUser := if owner.Some? then Some(owner.value.0) else None, ownerMembership := if owner.Some? then Some(owner.value.1) else None,
       title := Some(if c.turns == [] then New else General))
  }

  function ContextOf(id: ConversationId, c: Conversation): Context
    requires c.session.Some? && c.epoch.Some?
  {
    Context(c.tenant, id, c.session.value, c.epoch.value, c.resultSet, None, c.createdAt, c.updatedAt)
  }

  /** A new context id for every conversation, no two the same. */
  ghost predicate FreshIds(db: Database, ids: map<ConversationId, ContextId>) {
    && ids.Keys == db.conversations.Keys
    && forall c, d :: c in ids && d in ids && c != d ==> ids[c] != ids[d]
  }

  ghost function ConversationFor(ids: map<ConversationId, ContextId>, x: ContextId): (c: ConversationId)
    requires x in ids.Values
    ensures c in ids && ids[c] == x
  {
    var c :| c in ids && ids[c] == x;
    c
  }

  ghost function ContextTable(db: Database, ids: map<ConversationId, ContextId>): (r: map<ContextId, Context>)
    requires FreshIds(db, ids) && EpochsPositive(db) && OwnersKnown(db)
    ensures forall x :: x in r <==> exists c :: c in ids && ids[c] == x
    ensures forall c :: c in ids ==> ids[c] in r && r[ids[c]] == ContextOf(c, db.conversations[c])
  {
    assert forall c :: c in ids ==> ids[c] in ids.Values && ConversationFor(ids, ids[c]) == c;
    map x | x in ids.Values :: ContextOf(ConversationFor(ids, x), db.conversations[ConversationFor(ids, x)])
  }

  function UpgradedRows(db: Database): map<ConversationId, Conversation> {
    map c | c in db.conversations :: UpgradedRow(db, db.conversations[c])
  }

  ghost function BoundSets(db: Database): map<ResultSetId, ResultSet>
    requires AllAttributed(db)
  {
    map r | r in db.resultSets :: db.resultSets[r].(conversation := Some(Attribution(db, db.resultSets[r])))
  }

  /** `upgrade`: the checks in the order they are met, then the new tables. */
  ghost function Upgraded(db: Database, ids: map<ConversationId, ContextId>): Result<Database, Refusal>
    requires FreshIds(db, ids)
  {
    if !OneToOne(db) then Err(NotOneToOne)
    else if !OwnersKnown(db) then Err(OwnerUnknown)
    else if !EpochsPositive(db) then Err(EpochNotPositive)
    else if !AllAttributed(db) then Err(ResultSetUnattributed)
    else
      Ok(db.(
        conversations := UpgradedRows(db), contexts := ContextTable(db, ids), resultSets := BoundSets(db)))
  }

  // ------------------------------------------------------------------ downgrade

  function ContextsOf(db: Database, c: ConversationId): set<ContextId> {
    set x | x in db.contexts && db.contexts[x].conversation == c
  }

  predicate OneContextEach(db: Database) {
    forall c :: c in db.conversations ==> |ContextsOf(db, c)| == 1
  }

  predicate SessionsUnshared(db: Database) {
    forall x, y :: x in db.contexts && y in db.contexts && x != y ==> db.contexts[x].session != db.contexts[y].session
  }

  predicate ResultSetsAtHome(db: Database) {
    forall r, x :: r in db.resultSets && x in db.contexts && db.resultSets[r].conversation == Some(db.contexts[x].conversation) ==>
      db.contexts[x].session == db.resultSets[r].session && db.contexts[x].tenant == db.resultSets[r].tenant
  }

  /** The session behind a context still belongs to exactly the conversation's durable owner. */
  predicate OwnerStands(db: Database, x: Context) {
    && x.conversation in db.conversations
    && var c := db.conversations[x.conversation];
       && x.tenant == c.tenant && c.ownerUser.Some? && c.ownerMembership.Some?
       && OwnerOf(db, Some(x.session), c.tenant) == Some((c.ownerUser.value, c.ownerMembership.value))
  }

  predicate OwnersStand(db: Database) {
    forall x :: x in db.contexts ==> OwnerStands(db, db.contexts[x])
  }

  predicate NothingPending(db: Database) {
    forall x :: x in db.contexts ==> db.contexts[x].draft == None
  }

  predicate CarriesDraft(t: Turn) {
    t.isObject && t.hasDraftKey
  }

  predicate TranscriptsClean(db: Database) {
    forall c :: c in db.conversations ==> forall t :: t in db.conversations[c].turns ==> !CarriesDraft(t)
  }

  /** `_assert_downgrade_representable`, check by check. */
  function DowngradeRefusal(db: Database): Option<Refusal> {
    if !OneContextEach(db) then Some(NotOneContext)
    else if !SessionsUnshared(db) then Some(SessionShared)
    else if !ResultSetsAtHome(db) then Some(ResultSetElsewhere)
    else if !OwnersStand(db) then Some(OwnerWouldChange)
    else if !NothingPending(db) then Some(DraftPending)
    else if !TranscriptsClean(db) then Some(DraftInTranscript)
    else None
  }

  ghost function TheContext(db: Database, c: ConversationId): Context
    requires |ContextsOf(db, c)| == 1
  {
    var x :| x in ContextsOf(db, c);
    db.contexts[x]
  }

  function DowngradedRow(c: Conversation, x: Context): Conversation {
    c.(session := Some(x.session), epoch := Some(x.epoch), resultSet := x.resultSet, ownerUser := None, ownerMembership := None, title := None)
  }

  ghost function DowngradedRows(db: Database): map<ConversationId, Conversation>
    requires OneContextEach(db)
  {
    map c | c in db.conversations :: DowngradedRow(db.conversations[c], TheContext(db, c))
  }

  function UnboundSets(db: Database): map<ResultSetId, ResultSet> {
    map r | r in db.resultSets :: db.resultSets[r].(conversation := None)
  }

  /** `downgrade`. */
  ghost function Downgraded(db: Database): Result<Database, Refusal> {
    var refusal := DowngradeRefusal(db);
    if refusal.Some? then Err(refusal.value)
    else
      Ok(db.(
        conversations := DowngradedRows(db), contexts := map[], resultSets := UnboundSets(db)))
  }

  // ------------------------------------------------------------------ the statements, in place

  function WithOwner(db: Database, c: Conversation): Conversation {
    var owner := OwnerOf(db, c.session, c.tenant);
    c.(ownerUser := if owner.Some? then Some(owner.value.0) else None,
       ownerMembership := if owner.Some? then Some(owner.value.1) else None, title := Some(New))
  }

  /** A conversation with a transcript is history already; its text is not looked at. */
  function Titled(c: Conversation): Conversation {
    if c.turns != [] then c.(title := Some(General)) else c
  }

  function Opened(rows: map<ConversationId, Conversation>): map<ConversationId, Conversation> {
    map c | c in rows :: rows[c].(ownerUser := None, ownerMembership := None, title := Some(New))
  }

  function Owned(db: Database): map<ConversationId, Conversation> {
    map c | c in db.conversations :: WithOwner(db, db.conversations[c])
  }

  function AllTitled(rows: map<ConversationId, Conversation>): map<ConversationId, Conversation> {
    map c | c in rows :: Titled(rows[c])
  }

  function Narrowed(rows: map<ConversationId, Conversation>): map<ConversationId, Conversation> {
    map c | c in rows :: rows[c].(session := None, epoch := None, resultSet := None)
  }

  lemma {:induction false} OwnersMissingIff(db: Database)
    ensures (exists c :: c in Owned(db) && (Owned(db)[c].ownerUser.None? || Owned(db)[c].ownerMembership.None?)) <==> !OwnersKnown(db)
  {
    hide OwnerOf;
    var rows := Owned(db);
    forall c | c in rows
      ensures (rows[c].ownerUser.None? || rows[c].ownerMembership.None?) <==> OwnerOf(db, db.conversations[c].session, db.conversations[c].tenant).None?
    {
    }
    if !OwnersKnown(db) {
      var c :| c in db.conversations && OwnerOf(db, db.conversations[c].session, db.conversations[c].tenant).None?;
      assert c in rows;
    }
  }

  /** The column steps one after the other are the row the specification describes. */
  lemma {:induction false} ColumnsMoved(db: Database)
    ensures Narrowed(AllTitled(Owned(db))) == UpgradedRows(db)
  {
    hide OwnerOf;
  }

  class Tables {
    var conversations: map<ConversationId, Conversation>
    var contexts: map<ContextId, Context>
    var resultSets: map<ResultSetId, ResultSet>
    var sessions: map<SessionId, BrowserSession>
    var memberships: map<MembershipId, Membership>

    function State(): Database
      reads this
    {
      Database(conversations, contexts, resultSets, sessions, memberships)
    }

    constructor (db: Database)
      ensures State() == db
    {
      conversations, contexts, resultSets, sessions, memberships := db.conversations, db.contexts, db.resultSets, db.sessions, db.memberships;
    }

    method Rollback(db: Database)
      modifies this
      ensures State() == db
    {
      conversations, contexts, resultSets, sessions, memberships := db.conversations, db.contexts, db.resultSets, db.sessions, db.memberships;
    }

    /** `upgrade`: owners and titles, then the context table, then the result sets, then the old columns go. */
    method Upgrade(ids: map<ConversationId, ContextId>) returns (refusal: Option<Refusal>)
      requires IsOld(State()) && FreshIds(State(), ids)
      modifies this
      ensures match Upgraded(old(State()), ids)
        case Ok(db) => refusal == None && State() == db
        case Err(e) => refusal == Some(e) && State() == old(State())
      ensures refusal.None? <==>
        OneToOne(old(State())) && OwnersKnown(old(State())) && EpochsPositive(old(State())) && AllAttributed(old(State()))
    {
      hide IsOld, OneToOne, OwnersKnown, EpochsPositive, AllAttributed, ContextTable, UpgradedRows, FreshIds, BoundSets,
           Opened, Owned, AllTitled, Narrowed;
      var before := State();
      if !OneToOne(before) {
        return Some(NotOneToOne);
      }
      AddOwners();
      SetOwners(before);
      var missing := exists c :: c in conversations && (conversations[c].ownerUser.None? || conversations[c].ownerMembership.None?);
      OwnersMissingIff(before);
      if missing {
        Rollback(before);
        return Some(OwnerUnknown);
      }
      SetTitles();
      if !EpochsPositive(before) {
        Rollback(before);
        return Some(EpochNotPositive);
      }
      contexts := InsertContexts(before, ids);
      var bound := BindResultSets(before);
      if bound.None? {
        Rollback(before);
        return Some(ResultSetUnattributed);
      }
      resultSets := bound.value;
      DropOldColumns();
      ColumnsMoved(before);
      return None;
    }

    /** `ADD COLUMN`: the owners are NULL, the title has its default. */
    method AddOwners()
      modifies this`conversations
      ensures conversations == Opened(old(conversations))
    {
      conversations := map c | c in conversations :: conversations[c].(ownerUser := None, ownerMembership := None, title := Some(New));
    }

    /** `UPDATE ... FROM browser_sessions`: owners come only from the session's own membership. */
    method SetOwners(before: Database)
      requires conversations == Opened(before.conversations)
      modifies this`conversations
      ensures conversations == Owned(before)
    {
      conversations := map c | c in conversations :: WithOwner(before, before.conversations[c]);
    }

    method SetTitles()
      modifies this`conversations
      ensures conversations == AllTitled(old(conversations))
    {
      conversations := map c | c in conversations :: Titled(conversations[c]);
    }

    method DropOldColumns()
      modifies this`conversations
      ensures conversations == Narrowed(old(conversations))
    {
      conversations := map c | c in conversations :: conversations[c].(session := None, epoch := None, resultSet := None);
    }

    /** `INSERT ... SELECT`: one context for each conversation, holding what its row held. */
    method InsertContexts(
        before: Database, ids: map<ConversationId, ContextId>) returns (table: map<ContextId, Context>)
      requires FreshIds(before, ids) && EpochsPositive(before) && OwnersKnown(before)
      ensures table == ContextTable(before, ids)
    {
      table := map[];
      var left := ids.Keys;
      while left != {}
        invariant left <= ids.Keys
        invariant forall c :: c in ids && c !in left ==> ids[c] in table && table[ids[c]] == ContextOf(c, before.conversations[c])
        invariant forall x :: x in table ==> exists c :: c in ids && c !in left && ids[c] == x
        decreases left
      {
        var c :| c in left;
        table := table[ids[c] := ContextOf(c, before.conversations[c])];
        left := left - {c};
      }
      TableIs(before, ids, table);
    }

    /** `UPDATE agent_result_sets`: bind each to the conversation of its own session and tenant. */
    method BindResultSets(before: Database) returns (bound: Option<map<ResultSetId, ResultSet>>)
      requires OneToOne(before)
      ensures bound.Some? <==> AllAttributed(before)
      ensures bound.Some? ==> bound.value == BoundSets(before)
    {
      var table: map<ResultSetId, ResultSet> := map[];
      var left := before.resultSets.Keys;
      while left != {}
        invariant left <= before.resultSets.Keys && table.Keys == before.resultSets.Keys - left
        invariant forall r :: r in table ==>
          && (exists c :: c in before.conversations && Attributes(before, before.resultSets[r], c))
          && table[r] == before.resultSets[r].(conversation := Some(Attribution(before, before.resultSets[r])))
        decreases left
      {
        var r :| r in left;
        if !exists c :: c in before.conversations && Attributes(before, before.resultSets[r], c) {
          return None;
        }
        var c :| c in before.conversations && Attributes(before, before.resultSets[r], c);
        AttributionIs(before, before.resultSets[r], c);
        table := table[r := before.resultSets[r].(conversation := Some(c))];
        left := left - {r};
      }
      return Some(table);
    }

    /** `downgrade`: every check comes before the first change. */
    method Downgrade() returns (refusal: Option<Refusal>)
      requires IsNew(State())
      modifies this
      ensures match Downgraded(old(State()))
        case Ok(db) => refusal == None && State() == db
        case Err(e) => refusal == Some(e) && State() == old(State())
    {
      hide IsNew, SessionsUnshared, ResultSetsAtHome, OwnersStand, NothingPending, TranscriptsClean, UnboundSets,
           DowngradedRow;
      refusal := DowngradeRefusal(State());
      if refusal.Some? {
        return;
      }
      var before := State();
      var table: map<ConversationId, Conversation> := map[];
      var left := conversations.Keys;
      while left != {}
        invariant State() == before
        invariant left <= before.conversations.Keys && table.Keys == before.conversations.Keys - left
        invariant forall c :: c in table ==> table[c] == DowngradedRow(before.conversations[c], TheContext(before, c))
        decreases left
      {
        var c :| c in left;
        var x :| x in ContextsOf(before, c);
        TheContextIs(before, c, x);
        table := table[c := DowngradedRow(before.conversations[c], before.contexts[x])];
        left := left - {c};
      }
      RowsAre(before, table);
      conversations := table;
      resultSets := UnboundSets(before);
      contexts := map[];
    }
  }

  lemma {:induction false} RowsAre(db: Database, table: map<ConversationId, Conversation>)
    requires OneContextEach(db) && table.Keys == db.conversations.Keys
    requires forall c :: c in table ==> table[c] == DowngradedRow(db.conversations[c], TheContext(db, c))
    ensures table == DowngradedRows(db)
  {
  }

  lemma {:induction false} TableIs(db: Database, ids: map<ConversationId, ContextId>, table: map<ContextId, Context>)
    requires FreshIds(db, ids) && EpochsPositive(db) && OwnersKnown(db)
    requires forall c :: c in ids ==> ids[c] in table && table[ids[c]] == ContextOf(c, db.conversations[c])
    requires forall x :: x in table ==> exists c :: c in ids && ids[c] == x
    ensures table == ContextTable(db, ids)
  {
    var spec := ContextTable(db, ids);
    forall x | x in table
      ensures x in spec && table[x] == spec[x]
    {
      var c :| c in ids && ids[c] == x;
    }
    forall x | x in spec ensures x in table {
      var c :| c in ids && ids[c] == x;
    }
  }

  lemma {:induction false} AttributionIs(db: Database, r: ResultSet, c: ConversationId)
    requires OneToOne(db) && Attributes(db, r, c)
    ensures Attribution(db, r) == c
  {
  }

  lemma {:induction false} TheContextIs(db: Database, c: ConversationId, x: ContextId)
    requires |ContextsOf(db, c)| == 1 && x in ContextsOf(db, c)
    ensures TheContext(db, c) == db.contexts[x]
  {
    var y :| y in ContextsOf(db, c) && TheContext(db, c) == db.contexts[y];
    if x != y {
      assert ContextsOf(db, c) == {x, y} + (ContextsOf(db, c) - {x, y});
    }
  }

  // ------------------------------------------------------------------ when it applies, and both round trips

  /** Upgrading succeeds exactly on rows whose owners, epochs and result sets the new tables can hold. */
  lemma {:induction false} UpgradeSucceedsIff(db: Database, ids: map<ConversationId, ContextId>)
    requires FreshIds(db, ids)
    ensures Upgraded(db, ids).Ok? <==> OneToOne(db) && OwnersKnown(db) && EpochsPositive(db) && AllAttributed(db)
    ensures Upgraded(db, ids).Ok? ==>
      (var up := Upgraded(db, ids).value; up.conversations == UpgradedRows(db) && up.sessions == db.sessions && up.memberships == db.memberships)
  {
    hide ContextTable, OwnerOf, BoundSets, OneToOne, Attributes, AllAttributed, OwnersKnown, EpochsPositive,
         UpgradedRows, FreshIds;
  }

  /** One conversation, admissible in every other way, whose context epoch is still 0. */
  function AtEpochZero(): Database {
    Database(
      map[0 := Conversation(1, [], 0, 0, Some(2), Some(0), None, None, None, None)], map[], map[],
      map[2 := BrowserSession(3, 4)], map[4 := Membership(3, 1)])
  }

  /** The old tables admit epoch 0, and it alone aborts the upgrade: the new context table would refuse the row. */
  lemma {:induction false} EpochZeroAborts()
    ensures var db := AtEpochZero();
      && IsOld(db) && OneToOne(db) && OwnersKnown(db) && AllAttributed(db)
      && FreshIds(db, map[0 := 5]) && Upgraded(db, map[0 := 5]) == Err(EpochNotPositive)
  {
    assert AtEpochZero().conversations[0].epoch == Some(0);
  }

  lemma {:induction false} UpgradedRowAt(db: Database, ids: map<ConversationId, ContextId>, c: ConversationId)
    requires FreshIds(db, ids) && Upgraded(db, ids).Ok? && c in db.conversations
    ensures c in Upgraded(db, ids).value.conversations && Upgraded(db, ids).value.conversations[c] == UpgradedRow(db, db.conversations[c])
    ensures NewRow(UpgradedRow(db, db.conversations[c]))
    ensures db.conversations[c].session.Some? && db.conversations[c].epoch.Some? && db.conversations[c].epoch.value >= 1
    ensures Upgraded(db, ids).value.conversations.Keys == db.conversations.Keys
  {
    UpgradeSucceedsIff(db, ids);
    hide Upgraded, FreshIds, OneToOne, AllAttributed;
    KnownRow(db, c);
    hide OwnerOf, OwnersKnown, EpochsPositive, UpgradedRow, NewRow;
  }

  lemma {:induction false} KnownRow(db: Database, c: ConversationId)
    requires OwnersKnown(db) && EpochsPositive(db) && c in db.conversations
    ensures OwnerOf(db, db.conversations[c].session, db.conversations[c].tenant).Some?
    ensures db.conversations[c].session.Some? && db.conversations[c].epoch.Some? && db.conversations[c].epoch.value >= 1
    ensures NewRow(UpgradedRow(db, db.conversations[c]))
  {
  }

  lemma {:induction false} UpgradedRowsAreNew(db: Database, ids: map<ConversationId, ContextId>)
    requires FreshIds(db, ids) && Upgraded(db, ids).Ok?
    ensures Upgraded(db, ids).value.conversations.Keys == db.conversations.Keys
    ensures forall c :: c in Upgraded(db, ids).value.conversations ==> NewRow(Upgraded(db, ids).value.conversations[c])
  {
    UpgradeSucceedsIff(db, ids);
    hide Upgraded, UpgradedRow, NewRow, FreshIds, OneToOne, OwnersKnown, EpochsPositive, AllAttributed;
    var up := Upgraded(db, ids).value;
    forall c | c in up.conversations ensures NewRow(up.conversations[c]) { UpgradedRowAt(db, ids, c); }
  }

  /** The upgraded tables satisfy every constraint they declare, and no draft authority is carried over. */
  lemma {:induction false} UpgradedIsNew(db: Database, ids: map<ConversationId, ContextId>)
    requires IsOld(db) && FreshIds(db, ids) && Upgraded(db, ids).Ok?
    ensures IsNew(Upgraded(db, ids).value) && NothingPending(Upgraded(db, ids).value)
  {
    hide Upgraded, UpgradedRow, UpgradedRows, FreshIds, OneToOne, OwnersKnown, EpochsPositive, AllAttributed,
         Attributes, NewRow, OldRow;
    var up := Upgraded(db, ids).value;
    UpgradeSucceedsIff(db, ids);
    UpgradedRowsAreNew(db, ids);
    forall r | r in up.resultSets ensures up.resultSets[r].conversation.Some? && up.resultSets[r].conversation.value in up.conversations {
      var c := UpgradedSetAt(db, ids, r);
      assert c in db.conversations.Keys;
    }
    forall x | x in up.contexts
      ensures up.contexts[x].conversation in up.conversations && up.contexts[x].epoch >= 1 && up.contexts[x].draft == None
    {
      var c := UpgradedContextAt(db, ids, x);
      UpgradedRowAt(db, ids, c);
    }
  }

  /** What becomes of one old conversation: its owner is the one behind its session, and its context holds what was live. */
  predicate MovedTo(db: Database, id: ConversationId, old_: Conversation, row: Conversation, x: Context) {
    && old_.session.Some? && old_.epoch.Some? && old_.session.value in db.sessions
    && var bs := db.sessions[old_.session.value];
       && bs.membership in db.memberships && db.memberships[bs.membership] == Membership(bs.user, old_.tenant)
       && row.ownerUser == Some(bs.user) && row.ownerMembership == Some(bs.membership)
       && row.title == Some(if old_.turns == [] then New else General)
       && row.session == None && row.epoch == None && row.resultSet == None
       && row.tenant == old_.tenant && row.turns == old_.turns && row.createdAt == old_.createdAt && row.updatedAt == old_.updatedAt
       && x.tenant == old_.tenant && x.conversation == id && x.session == old_.session.value && x.epoch == old_.epoch.value
       && x.resultSet == old_.resultSet && x.draft == None && x.createdAt == old_.createdAt && x.updatedAt == old_.updatedAt
  }

  lemma {:induction false} UpgradeMoves(db: Database, ids: map<ConversationId, ContextId>, c: ConversationId)
    requires FreshIds(db, ids) && Upgraded(db, ids).Ok? && c in db.conversations
    ensures var up := Upgraded(db, ids).value;
      && c in up.conversations && c in ids && ids[c] in up.contexts
      && MovedTo(db, c, db.conversations[c], up.conversations[c], up.contexts[ids[c]])
  {
    UpgradedRowAt(db, ids, c);
    assert c in ids.Keys;
    OwnerIsKnown(db, ids, c);
    ContextIsThere(db, ids, c);
    hide Upgraded, FreshIds;
  }

  lemma {:induction false} OwnerIsKnown(db: Database, ids: map<ConversationId, ContextId>, c: ConversationId)
    requires FreshIds(db, ids) && Upgraded(db, ids).Ok? && c in db.conversations
    ensures OwnerOf(db, db.conversations[c].session, db.conversations[c].tenant).Some?
  {
    UpgradeSucceedsIff(db, ids);
    hide Upgraded, FreshIds, OneToOne, AllAttributed, EpochsPositive, OwnerOf;
  }

  lemma {:induction false} ContextIsThere(db: Database, ids: map<ConversationId, ContextId>, c: ConversationId)
    requires FreshIds(db, ids) && Upgraded(db, ids).Ok? && c in db.conversations
    requires db.conversations[c].session.Some? && db.conversations[c].epoch.Some?
    ensures c in ids && ids[c] in Upgraded(db, ids).value.contexts
    ensures Upgraded(db, ids).value.contexts[ids[c]] == ContextOf(c, db.conversations[c])
  {
    hide OwnerOf, BoundSets, UpgradedRows, ContextOf, OneToOne, AllAttributed;
    assert c in ids.Keys;
  }

  /** An upgrade moves every conversation and binds every result set to the conversation of its own session. */
  lemma {:induction false} UpgradeMovesEverything(db: Database, ids: map<ConversationId, ContextId>)
    requires FreshIds(db, ids) && Upgraded(db, ids).Ok?
    ensures var up := Upgraded(db, ids).value;
      && up.sessions == db.sessions && up.memberships == db.memberships
      && (forall c :: c in db.conversations ==>
            && c in up.conversations && c in ids && ids[c] in up.contexts
            && MovedTo(db, c, db.conversations[c], up.conversations[c], up.contexts[ids[c]]))
      && (forall x :: x in up.contexts ==> exists c :: c in db.conversations && c in ids && ids[c] == x)
      && forall r :: r in up.resultSets ==>
           r in db.resultSets && exists c :: Attributes(db, db.resultSets[r], c) && up.resultSets[r] == db.resultSets[r].(conversation := Some(c))
  {
    UpgradeSucceedsIff(db, ids);
    hide Upgraded, MovedTo, Attributes, OneToOne, OwnersKnown, EpochsPositive, AllAttributed, UpgradedRows;
    var up := Upgraded(db, ids).value;
    forall c | c in db.conversations
      ensures c in up.conversations && c in ids && ids[c] in up.contexts
      ensures MovedTo(db, c, db.conversations[c], up.conversations[c], up.contexts[ids[c]])
    {
      UpgradeMoves(db, ids, c);
    }
    forall x | x in up.contexts
      ensures exists c :: c in db.conversations && c in ids && ids[c] == x
    {
      var c := UpgradedContextAt(db, ids, x);
      assert c in ids.Keys;
    }
    forall r | r in up.resultSets
      ensures r in db.resultSets
      ensures exists c :: Attributes(db, db.resultSets[r], c) && up.resultSets[r] == db.resultSets[r].(conversation := Some(c))
    {
      var c := UpgradedSetAt(db, ids, r);
    }
  }

  lemma {:induction false} BoundAt(db: Database, r: ResultSetId)
    requires AllAttributed(db) && r in db.resultSets
    ensures exists c :: c in db.conversations && Attributes(db, db.resultSets[r], c) && BoundSets(db)[r] == db.resultSets[r].(conversation := Some(c))
    ensures r in BoundSets(db)
  {
    var c := Attribution(db, db.resultSets[r]);
    assert c in db.conversations && Attributes(db, db.resultSets[r], c);
  }

  lemma {:induction false} ContextAt(db: Database, ids: map<ConversationId, ContextId>, x: ContextId)
    requires FreshIds(db, ids) && EpochsPositive(db) && OwnersKnown(db) && x in ContextTable(db, ids)
    ensures exists c :: c in db.conversations && c in ids && ids[c] == x && ContextTable(db, ids)[x] == ContextOf(c, db.conversations[c])
  {
    var c :| c in ids && ids[c] == x;
    assert c in db.conversations;
  }

  /** After the upgrade each conversation's one context is the one made from its row. */
  lemma {:induction false} UpgradedContexts(db: Database, ids: map<ConversationId, ContextId>, c: ConversationId)
    requires FreshIds(db, ids) && Upgraded(db, ids).Ok? && c in db.conversations
    ensures var up := Upgraded(db, ids).value;
      && ContextsOf(up, c) == {ids[c]} && |ContextsOf(up, c)| == 1
      && TheContext(up, c) == ContextOf(c, db.conversations[c])
  {
    var up := Upgraded(db, ids).value;
    hide OwnerOf, BoundSets, UpgradedRows;
    forall x | x in up.contexts && up.contexts[x].conversation == c ensures x == ids[c] {
      ContextAt(db, ids, x);
    }
    assert ids[c] in up.contexts && up.contexts[ids[c]].conversation == c;
    assert ContextsOf(up, c) == {ids[c]};
  }

  /** A context of the upgraded tables is the one made from some old row. */
  lemma {:induction false} UpgradedContextAt(
      db: Database, ids: map<ConversationId, ContextId>, x: ContextId) returns (c: ConversationId)
    requires FreshIds(db, ids) && Upgraded(db, ids).Ok? && x in Upgraded(db, ids).value.contexts
    ensures c in db.conversations && ids[c] == x && db.conversations[c].session.Some? && db.conversations[c].epoch.Some?
    ensures Upgraded(db, ids).value.contexts[x] == ContextOf(c, db.conversations[c])
  {
    hide OwnerOf, BoundSets, UpgradedRows, ContextTable;
    forall c | c in db.conversations ensures db.conversations[c].session.Some? && db.conversations[c].epoch.Some? { UpgradedRowAt(db, ids, c); }
    ContextAt(db, ids, x);
    c :| c in db.conversations && c in ids && ids[c] == x && ContextTable(db, ids)[x] == ContextOf(c, db.conversations[c]);
  }

  lemma {:induction false} UpgradedSessionsUnshared(db: Database, ids: map<ConversationId, ContextId>)
    requires FreshIds(db, ids) && Upgraded(db, ids).Ok?
    ensures SessionsUnshared(Upgraded(db, ids).value)
  {
    var up := Upgraded(db, ids).value;
    assert OneToOne(db);
    hide Upgraded;
    forall x, y | x in up.contexts && y in up.contexts && x != y ensures up.contexts[x].session != up.contexts[y].session {
      var c := UpgradedContextAt(db, ids, x);
      var d := UpgradedContextAt(db, ids, y);
    }
  }

  lemma {:induction false} UpgradedSetAt(
      db: Database, ids: map<ConversationId, ContextId>, r: ResultSetId) returns (c: ConversationId)
    requires FreshIds(db, ids) && Upgraded(db, ids).Ok? && r in Upgraded(db, ids).value.resultSets
    ensures r in db.resultSets && c in db.conversations && Attributes(db, db.resultSets[r], c)
    ensures Upgraded(db, ids).value.resultSets[r] == db.resultSets[r].(conversation := Some(c))
  {
    hide OwnerOf, ContextTable, UpgradedRows, BoundSets;
    BoundKeys(db);
    BoundAt(db, r);
    c :| c in db.conversations && Attributes(db, db.resultSets[r], c) && BoundSets(db)[r] == db.resultSets[r].(conversation := Some(c));
  }

  lemma {:induction false} UpgradedSetsAtHome(db: Database, ids: map<ConversationId, ContextId>)
    requires FreshIds(db, ids) && Upgraded(db, ids).Ok?
    ensures ResultSetsAtHome(Upgraded(db, ids).value)
  {
    var up := Upgraded(db, ids).value;
    hide Upgraded;
    forall r, x | r in up.resultSets && x in up.contexts && up.resultSets[r].conversation == Some(up.contexts[x].conversation)
      ensures up.contexts[x].session == up.resultSets[r].session && up.contexts[x].tenant == up.resultSets[r].tenant
    {
      var c := UpgradedContextAt(db, ids, x);
      var d := UpgradedSetAt(db, ids, r);
    }
  }

  lemma {:induction false} UpgradedOwnersStand(db: Database, ids: map<ConversationId, ContextId>)
    requires FreshIds(db, ids) && Upgraded(db, ids).Ok?
    ensures OwnersStand(Upgraded(db, ids).value) && NothingPending(Upgraded(db, ids).value)
  {
    var up := Upgraded(db, ids).value;
    hide ContextTable, BoundSets, OwnerOf;
    forall x | x in up.contexts
      ensures OwnerStands(up, up.contexts[x]) && up.contexts[x].draft == None
    {
      var c := UpgradedContextAt(db, ids, x);
      assert OwnerOf(db, db.conversations[c].session, db.conversations[c].tenant).Some?;
      SameOwnerOf(db, up, db.conversations[c].session, db.conversations[c].tenant);
    }
  }

  lemma {:induction false} UpgradedIsRepresentable(db: Database, ids: map<ConversationId, ContextId>)
    requires FreshIds(db, ids) && Upgraded(db, ids).Ok?
    ensures var up := Upgraded(db, ids).value;
      OneContextEach(up) && SessionsUnshared(up) && ResultSetsAtHome(up) && OwnersStand(up) && NothingPending(up)
  {
    var up := Upgraded(db, ids).value;
    assert up.conversations.Keys == db.conversations.Keys;
    hide Upgraded, SessionsUnshared, ResultSetsAtHome, OwnersStand, NothingPending, ContextsOf;
    UpgradedSessionsUnshared(db, ids);
    UpgradedSetsAtHome(db, ids);
    UpgradedOwnersStand(db, ids);
    forall c | c in up.conversations ensures |ContextsOf(up, c)| == 1 { UpgradedContexts(db, ids, c); }
  }

  lemma {:induction false} RowRestored(db: Database, ids: map<ConversationId, ContextId>, c: ConversationId)
    requires IsOld(db) && FreshIds(db, ids) && Upgraded(db, ids).Ok? && c in db.conversations
    ensures |ContextsOf(Upgraded(db, ids).value, c)| == 1 && c in Upgraded(db, ids).value.conversations
    ensures DowngradedRow(Upgraded(db, ids).value.conversations[c], TheContext(Upgraded(db, ids).value, c)) == db.conversations[c]
  {
    UpgradedContexts(db, ids, c);
    hide ContextsOf, TheContext, ContextTable, BoundSets, OwnerOf;
    assert OldRow(db.conversations[c]);
  }

  lemma {:induction false} RowsRestored(db: Database, ids: map<ConversationId, ContextId>)
    requires IsOld(db) && FreshIds(db, ids) && Upgraded(db, ids).Ok?
    ensures OneContextEach(Upgraded(db, ids).value) && DowngradedRows(Upgraded(db, ids).value) == db.conversations
  {
    hide Upgraded, ContextsOf, TheContext, DowngradedRow, IsOld, FreshIds, OneContextEach, SessionsUnshared,
         ResultSetsAtHome, OwnersStand, NothingPending, UpgradedRow;
    var up := Upgraded(db, ids).value;
    UpgradedIsRepresentable(db, ids);
    UpgradeSucceedsIff(db, ids);
    assert up.conversations.Keys == db.conversations.Keys;
    hide UpgradedRows, OneToOne, OwnersKnown, EpochsPositive, AllAttributed;
    assert forall c :: c in up.conversations ==> |ContextsOf(up, c)| == 1 by { EachHasOne(up); }
    forall c | c in db.conversations ensures DowngradedRow(up.conversations[c], TheContext(up, c)) == db.conversations[c] { RowRestored(db, ids, c); }
  }

  lemma {:induction false} EachHasOne(db: Database)
    requires OneContextEach(db)
    ensures forall c :: c in db.conversations ==> |ContextsOf(db, c)| == 1
  {
  }

  lemma {:induction false} SetsRestored(db: Database, ids: map<ConversationId, ContextId>)
    requires IsOld(db) && FreshIds(db, ids) && Upgraded(db, ids).Ok?
    ensures UnboundSets(Upgraded(db, ids).value) == db.resultSets
  {
    hide Upgraded, FreshIds;
    var up := Upgraded(db, ids).value;
    UpgradedSetKeys(db, ids);
    assert forall r :: r in db.resultSets ==> db.resultSets[r].conversation == None;
    hide IsOld, Attributes;
    forall r | r in up.resultSets ensures r in db.resultSets && up.resultSets[r].(conversation := None) == db.resultSets[r] {
      var c := UpgradedSetAt(db, ids, r);
    }
    assert UnboundSets(up).Keys == up.resultSets.Keys;
  }

  /**
   Upgrade, then downgrade. Every old row comes back exactly as it was if and only if no transcript
   carries a draft; otherwise the downgrade refuses, and before any change.
   */
  lemma {:induction false} UpgradeThenDowngrade(db: Database, ids: map<ConversationId, ContextId>)
    requires IsOld(db) && FreshIds(db, ids) && Upgraded(db, ids).Ok?
    ensures var back := Downgraded(Upgraded(db, ids).value);
      if TranscriptsClean(db) then back == Ok(db) else back == Err(DraftInTranscript)
  {
    var up := Upgraded(db, ids).value;
    assert db.contexts == map[] && up.sessions == db.sessions && up.memberships == db.memberships && up.conversations == UpgradedRows(db);
    hide Upgraded, IsOld, OneContextEach, SessionsUnshared, ResultSetsAtHome, OwnersStand, NothingPending,
         TranscriptsClean, DowngradedRows, UnboundSets, UpgradedRows;
    UpgradedIsRepresentable(db, ids);
    RowsRestored(db, ids);
    SetsRestored(db, ids);
    SameTurns(db, up);
  }

  lemma {:induction false} BoundKeys(db: Database)
    requires AllAttributed(db)
    ensures BoundSets(db).Keys == db.resultSets.Keys
  {
  }

  lemma {:induction false} SameTurns(db: Database, up: Database)
    requires up.conversations == UpgradedRows(db)
    ensures TranscriptsClean(up) <==> TranscriptsClean(db)
  {
    hide OwnerOf;
    forall c | c in db.conversations ensures up.conversations[c].turns == db.conversations[c].turns { }
    if TranscriptsClean(up) {
      forall c | c in db.conversations ensures forall t :: t in db.conversations[c].turns ==> !CarriesDraft(t) { assert c in up.conversations; }
    }
  }

  // ------------------------------------------------------------------ downgrade, then upgrade

  /** The title a migrated conversation gets: its transcript is never read for one. */
  function Retitled(c: Conversation): Conversation {
    c.(title := Some(if c.turns == [] then New else General))
  }

  lemma {:induction false} DowngradedAt(db: Database, c: ConversationId)
    requires IsNew(db) && Downgraded(db).Ok? && c in db.conversations
    ensures var down := Downgraded(db).value;
      && c in down.conversations && down.conversations[c] == DowngradedRow(db.conversations[c], TheContext(db, c))
      && TheContext(db, c).conversation == c && TheContext(db, c).epoch >= 1 && OwnerStands(db, TheContext(db, c))
      && TheContext(db, c).draft == None
      && exists x :: x in db.contexts && db.contexts[x] == TheContext(db, c)
  {
    assert |ContextsOf(db, c)| == 1;
    var x :| x in ContextsOf(db, c);
    TheContextIs(db, c, x);
  }

  lemma {:induction false} DowngradedRowAt(db: Database, c: ConversationId)
    requires IsNew(db) && Downgraded(db).Ok? && c in db.conversations
    ensures var down := Downgraded(db).value;
      && c in down.conversations && OldRow(down.conversations[c]) && down.conversations[c].epoch.value >= 1
      && OwnerOf(down, down.conversations[c].session, down.conversations[c].tenant).Some?
  {
    DowngradedAt(db, c);
    var down := Downgraded(db).value;
    SameOwnerOf(db, down, down.conversations[c].session, down.conversations[c].tenant);
    hide OwnerOf, IsNew, Downgraded, TheContext;
  }

  lemma {:induction false} DowngradedSessionsDiffer(db: Database, c: ConversationId, d: ConversationId)
    requires IsNew(db) && Downgraded(db).Ok? && c in db.conversations && d in db.conversations && c != d
    ensures var down := Downgraded(db).value;
      c in down.conversations && d in down.conversations && down.conversations[c].session != down.conversations[d].session
  {
    DowngradedAt(db, c);
    DowngradedAt(db, d);
    assert SessionsUnshared(db);
    hide IsNew, Downgraded, TheContext, OwnerStands;
    var x :| x in db.contexts && db.contexts[x] == TheContext(db, c);
    var y :| y in db.contexts && db.contexts[y] == TheContext(db, d);
    assert x != y;
  }

  lemma {:induction false} DowngradedSetAt(db: Database, r: ResultSetId)
    requires IsNew(db) && Downgraded(db).Ok? && r in db.resultSets
    ensures var down := Downgraded(db).value;
      && r in down.resultSets && down.resultSets[r] == db.resultSets[r].(conversation := None)
      && db.resultSets[r].conversation.Some? && Attributes(down, down.resultSets[r], db.resultSets[r].conversation.value)
  {
    hide IsNew, Downgraded, OneContextEach, TheContext, OwnerStands, UnboundSets;
    IsAtHome(db, r);
    var c := db.resultSets[r].conversation.value;
    NewRowAt(db, c);
    DowngradedAt(db, c);
    var x :| x in db.contexts && db.contexts[x] == TheContext(db, c);
  }

  lemma {:induction false} IsAtHome(db: Database, r: ResultSetId)
    requires IsNew(db) && Downgraded(db).Ok? && r in db.resultSets
    ensures ResultSetsAtHome(db) && db.resultSets[r].conversation.Some? && db.resultSets[r].conversation.value in db.conversations
    ensures var down := Downgraded(db).value; r in down.resultSets && down.resultSets[r] == db.resultSets[r].(conversation := None)
  {
    hide OneContextEach, SessionsUnshared, ResultSetsAtHome, OwnersStand, NothingPending, TranscriptsClean,
         DowngradedRows;
  }

  /** Nothing but the three tables changes, and they keep their rows. */
  lemma {:induction false} DowngradedTables(db: Database)
    requires Downgraded(db).Ok?
    ensures var down := Downgraded(db).value;
      && down.conversations.Keys == db.conversations.Keys && down.resultSets == UnboundSets(db) && down.resultSets.Keys == db.resultSets.Keys
      && down.contexts == map[] && down.sessions == db.sessions && down.memberships == db.memberships
  {
  }

  lemma {:induction false} DowngradedIsOld(db: Database)
    requires IsNew(db) && Downgraded(db).Ok?
    ensures IsOld(Downgraded(db).value)
  {
    var down := Downgraded(db).value;
    hide Downgraded, OldRow;
    DowngradedTables(db);
    hide IsNew;
    forall c | c in down.conversations ensures OldRow(down.conversations[c]) { DowngradedRowAt(db, c); }
  }

  lemma {:induction false} DowngradedCanReturn(db: Database)
    requires IsNew(db) && Downgraded(db).Ok?
    ensures var down := Downgraded(db).value;
      IsOld(down) && OneToOne(down) && OwnersKnown(down) && EpochsPositive(down) && AllAttributed(down)
  {
    hide IsNew, IsOld, Downgraded, OwnerOf, OldRow, Attributes, UnboundSets;
    var down := Downgraded(db).value;
    DowngradedTables(db);
    DowngradedIsOld(db);
    forall c, d | c in down.conversations && d in down.conversations && c != d
      ensures down.conversations[c].session != down.conversations[d].session
    {
      DowngradedSessionsDiffer(db, c, d);
    }
    forall c | c in down.conversations
      ensures down.conversations[c].epoch.Some? && down.conversations[c].epoch.value >= 1
      ensures OwnerOf(down, down.conversations[c].session, down.conversations[c].tenant).Some?
    {
      DowngradedRowAt(db, c);
      RowHasEpoch(down.conversations[c]);
    }
    forall r | r in down.resultSets
      ensures exists c :: c in down.conversations && Attributes(down, down.resultSets[r], c)
    {
      DowngradedSetAt(db, r);
      AttributesExists(down, down.resultSets[r], db.resultSets[r].conversation.value);
    }
  }

  lemma {:induction false} RowHasEpoch(c: Conversation)
    requires OldRow(c)
    ensures c.epoch.Some?
  {
  }

  lemma {:induction false} AttributesExists(db: Database, r: ResultSet, c: ConversationId)
    requires Attributes(db, r, c)
    ensures exists d :: d in db.conversations && Attributes(db, r, d)
  {
  }

  lemma {:induction false} SameOwnerOf(db: Database, down: Database, session: Option<SessionId>, tenant: TenantId)
    requires down.sessions == db.sessions && down.memberships == db.memberships
    ensures OwnerOf(down, session, tenant) == OwnerOf(db, session, tenant)
  {
  }

  lemma {:induction false} RowReturns(db: Database, ids: map<ConversationId, ContextId>, c: ConversationId)
    requires IsNew(db) && Downgraded(db).Ok? && FreshIds(Downgraded(db).value, ids) && Upgraded(Downgraded(db).value, ids).Ok? && c in db.conversations
    ensures var again := Upgraded(Downgraded(db).value, ids).value;
      && c in again.conversations && again.conversations[c] == Retitled(db.conversations[c])
      && |ContextsOf(again, c)| == 1 && |ContextsOf(db, c)| == 1
      && TheContext(again, c) == TheContext(db, c).(createdAt := db.conversations[c].createdAt, updatedAt := db.conversations[c].updatedAt)
  {
    hide Upgraded, Downgraded, IsNew, ContextsOf, TheContext, FreshIds;
    var down := Downgraded(db).value;
    DowngradedAt(db, c);
    DowngradedTables(db);
    assert NewRow(db.conversations[c]) && |ContextsOf(db, c)| == 1 by { NewRowAt(db, c); }
    SameOwnerOf(db, down, down.conversations[c].session, down.conversations[c].tenant);
    UpgradedContexts(down, ids, c);
    UpgradedRowAt(down, ids, c);
    hide OwnerOf;
  }

  lemma {:induction false} NewRowAt(db: Database, c: ConversationId)
    requires IsNew(db) && Downgraded(db).Ok? && c in db.conversations
    ensures NewRow(db.conversations[c]) && |ContextsOf(db, c)| == 1
  {
    hide TheContext, ContextsOf, DowngradedRows;
  }

  lemma {:induction false} BindingReturns(db: Database, ids: map<ConversationId, ContextId>, r: ResultSetId)
    requires IsNew(db) && Downgraded(db).Ok? && FreshIds(Downgraded(db).value, ids) && Upgraded(Downgraded(db).value, ids).Ok? && r in db.resultSets
    ensures r in Upgraded(Downgraded(db).value, ids).value.resultSets
    ensures Upgraded(Downgraded(db).value, ids).value.resultSets[r] == db.resultSets[r]
  {
    var down := Downgraded(db).value;
    DowngradedSetAt(db, r);
    UpgradeSucceedsIff(down, ids);
    UpgradedSetKeys(down, ids);
    hide Upgraded, Downgraded, IsNew, OneToOne, AllAttributed, OwnersKnown, EpochsPositive, FreshIds;
    var c := UpgradedSetAt(down, ids, r);
    AttributionIs(down, down.resultSets[r], c);
    AttributionIs(down, down.resultSets[r], db.resultSets[r].conversation.value);
  }

  /**
   Downgrade, then upgrade. From any state the downgrade accepts, upgrading again succeeds and restores
   owners, live contexts and result-set bindings; only titles, context ids and context times are new.
   */
  lemma {:induction false} DowngradeThenUpgrade(db: Database, ids: map<ConversationId, ContextId>)
    requires IsNew(db) && Downgraded(db).Ok? && FreshIds(Downgraded(db).value, ids)
    ensures Upgraded(Downgraded(db).value, ids).Ok?
    ensures var again := Upgraded(Downgraded(db).value, ids).value;
      && again.conversations.Keys == db.conversations.Keys && again.resultSets == db.resultSets
      && again.sessions == db.sessions && again.memberships == db.memberships
      && forall c :: c in db.conversations ==>
        && again.conversations[c] == Retitled(db.conversations[c])
        && |ContextsOf(again, c)| == 1 && |ContextsOf(db, c)| == 1
        && TheContext(again, c) == TheContext(db, c).(createdAt := db.conversations[c].createdAt, updatedAt := db.conversations[c].updatedAt)
  {
    hide Upgraded, Downgraded, IsNew, IsOld, OneToOne, OwnersKnown, EpochsPositive, AllAttributed, ContextsOf,
         TheContext, Retitled, FreshIds, UpgradedRow, UnboundSets;
    var down := Downgraded(db).value;
    DowngradedTables(db);
    DowngradedCanReturn(db);
    UpgradeSucceedsIff(down, ids);
    var again := Upgraded(down, ids).value;
    assert again.conversations.Keys == db.conversations.Keys;
    assert again.resultSets.Keys == db.resultSets.Keys by { UpgradedSetKeys(down, ids); }
    hide UpgradedRows;
    forall c | c in db.conversations
      ensures again.conversations[c] == Retitled(db.conversations[c]) && |ContextsOf(again, c)| == 1 && |ContextsOf(db, c)| == 1
      ensures TheContext(again, c) == TheContext(db, c).(createdAt := db.conversations[c].createdAt, updatedAt := db.conversations[c].updatedAt)
    {
      RowReturns(db, ids, c);
    }
    forall r | r in db.resultSets ensures again.resultSets[r] == db.resultSets[r] { BindingReturns(db, ids, r); }
    assert again.resultSets == db.resultSets;
  }

  lemma {:induction false} UpgradedSetKeys(db: Database, ids: map<ConversationId, ContextId>)
    requires FreshIds(db, ids) && Upgraded(db, ids).Ok?
    ensures Upgraded(db, ids).value.resultSets.Keys == db.resultSets.Keys
  {
    BoundKeys(db);
    hide BoundSets, ContextTable, UpgradedRows;
  }
}
