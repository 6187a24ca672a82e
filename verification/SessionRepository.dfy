/**
 * The durable session repository: the same operations as conditional UPDATEs and transactions over one
 * table. Every statement is an atomic guarded write of all matching rows; an operation that fails inside
 * a transaction leaves the table as it found it, expiry writes included.
 *
 * The in-memory store expires every session it scans; this one expires a single row, one firm's rows or
 * none. The simulation theorem says no reply and no effective status tells the two apart.
 */
module SessionRepository {
  import opened Options
  import opened HandoffSessions
  import opened ConversationEvents

  datatype Table = Table(rows: map<string, Session>, events: seq<Event>)

  datatype TableStep = TableStep(table: Table, reply: Reply)

  // ── Statements ─────────────────────────────────────────────────────────────

  predicate Live(x: Session, now: int) {
    x.status.AwaitingTransfer? && x.expiresAtMs > now
  }

  /** The rows an expiry UPDATE scoped to one firm may touch; `MarkSome` is the UPDATE. */
  function FirmRows(rows: map<string, Session>, firmId: string): set<string> {
    set id | id in rows && rows[id].firmId == firmId
  }

  function LiveRows(rows: map<string, Session>, firmId: string, now: int): set<string> {
    set id | id in rows && rows[id].firmId == firmId && Live(rows[id], now)
  }

  function TokenRows(rows: map<string, Session>, tokenHash: string): set<string> {
    set id | id in rows && rows[id].tokenHash == tokenHash
  }

  function RedeemableRows(rows: map<string, Session>, tokenHash: string, now: int): set<string> {
    set id | id in rows && rows[id].tokenHash == tokenHash && Live(rows[id], now)
  }

  function ConnectRows(rows: map<string, Session>, ids: set<string>, now: int): map<string, Session> {
    map id | id in rows :: if id in ids then ConnectedAt(rows[id], now) else rows[id]
  }

  function Appended(t: Table, kind: EventKind, x: Session): Table {
    t.(events := t.events + [Event(kind, x.firmId, x.id)])
  }

  function SetRow(t: Table, id: string, x: Session): Table {
    t.(rows := t.rows[id := x])
  }

  // ── Operations ─────────────────────────────────────────────────────────────

  /** The first step of a redemption: one conditional UPDATE, with its event in the same transaction. */
  function RedeemUpdate(t: Table, tokenHash: string, now: int): TableStep {
    var hits := RedeemableRows(t.rows, tokenHash, now);
    var t' := t.(rows := ConnectRows(t.rows, hits, now));
    if |hits| == 1 then
      var x := t'.rows[Only(hits)];
      TableStep(Appended(t', ConversationConnected, x), One(x))
    else TableStep(t', Missing)
  }

  /** The second step: the losing paths, told apart by a read of the token's row. */
  function Classify(t: Table, tokenHash: string, now: int): TableStep {
    var found := TokenRows(t.rows, tokenHash);
    if |found| != 1 then TableStep(t, Refused(UnknownToken))
    else
      var id := Only(found);
      var x := t.rows[id];
      if x.status.Cancelled? then TableStep(t, Refused(TokenCancelled))
      else if x.status.Expired? || x.expiresAtMs <= now
        then TableStep(SetRow(t, id, Mark(x, now)), Refused(TokenExpired))
      else TableStep(t, Refused(TokenAlreadyRedeemed))
  }

  function InsertRow(t: Table, x: Session): TableStep {
    if x.id in t.rows || TokenRows(t.rows, x.tokenHash) != {} then TableStep(t, Refused(DuplicateKey))
    else TableStep(SetRow(t, x.id, x), One(x))
  }

  function SqlCancel(t: Table, id: string, hash: string, now: int): TableStep {
    if id !in t.rows then TableStep(t, Refused(UnknownSession))
    else if t.rows[id].consoleTokenHash != hash then TableStep(t, Refused(Forbidden))
    else
      var x := t.rows[id];
      var status := if x.status.AwaitingTransfer? && x.expiresAtMs <= now then Expired else x.status;
      if status.Cancelled? then TableStep(t, if x.expiresAtMs <= now then Refused(SessionExpired) else One(x))
      else if status.Connected? then TableStep(t, Refused(CannotCancel))
      else if status.Expired? then TableStep(t, Refused(SessionExpired))
      else
        var y := x.(status := Cancelled, cancelledAtMs := Some(now));
        TableStep(SetRow(t, id, y), One(y))
  }

  function SqlConnect(t: Table, firmId: string, c: Criteria, now: int): TableStep {
    var expired := MarkSome(t.rows, FirmRows(t.rows, firmId), now);
    var found := Candidates(expired, firmId, c);
    if |found| == 0 then TableStep(t, Refused(NoPreparedSession))
    else if |found| > 1 then TableStep(t, Refused(AmbiguousSession))
    else
      var x := ConnectedAt(expired[Only(found)], now);
      TableStep(Appended(SetRow(t.(rows := expired), Only(found), x), ConversationConnected, x), One(x))
  }

  function SqlOutcome(t: Table, id: string, outcome: Outcome, now: int): TableStep {
    if id !in t.rows then TableStep(t, Refused(UnknownSession))
    else
      var x := t.rows[id];
      if Terminal(x.status)
        then TableStep(t, if x.outcome == Some(outcome) then Applied(x, true) else Refused(OutcomeConflict))
      else if !x.status.Connected? && !x.status.Scheduling? then TableStep(t, Refused(InvalidOutcomeState))
      else
        var y := x.(status := outcome.status, outcome := Some(outcome), completedAtMs := Some(now));
        TableStep(Appended(SetRow(t, id, y), ConversationCompleted(outcome.status), y), Applied(y, false))
  }

  function SqlPurge(t: Table, firmId: string, shortCut: int, terminalCut: int): TableStep {
    var short := PurgedShort(t.rows, firmId, shortCut);
    var rest := t.rows - short;
    var terminal := set id | id in rest && rest[id].firmId == firmId && Terminal(rest[id].status)
                             && rest[id].completedAtMs.Some? && rest[id].completedAtMs.value <= terminalCut;
    TableStep(t.(rows := rest - terminal), Purged(|short|, |terminal|))
  }

  function Sql(t: Table, op: Op, now: int): TableStep {
    match op
    case Create(x, cap) =>
      if cap.None? || !x.status.AwaitingTransfer? then InsertRow(t, x)
      else if |LiveRows(t.rows, x.firmId, now)| >= cap.value then TableStep(t, Refused(TooManyPreparedSessions))
      else InsertRow(t, x)
    case Redeem(hash) =>
      var first := RedeemUpdate(t, hash, now);
      if first.reply.One? then first else Classify(first.table, hash, now)
    case StatusByConsole(id, hash) =>
      if id !in t.rows then TableStep(t, Refused(UnknownSession))
      else if t.rows[id].consoleTokenHash != hash then TableStep(t, Refused(Forbidden))
      else
        var t' := t.(rows := MarkSome(t.rows, {id}, now));
        TableStep(t', One(t'.rows[id]))
    case Cancel(id, hash) => SqlCancel(t, id, hash, now)
    case ConnectEligible(firmId, c) => SqlConnect(t, firmId, c, now)
    case CountEligible(firmId) => TableStep(t, Count(|LiveRows(t.rows, firmId, now)|))
    case ApplyOutcome(id, outcome) => SqlOutcome(t, id, outcome, now)
    case ClaimSummary(id) =>
      if id in t.rows && SummaryClaimable(t.rows[id], now)
      then TableStep(SetRow(t, id, Claimed(t.rows[id], now)), Claim(true, Some(Claims.Pending)))
      else TableStep(t, if id in t.rows then Claim(false, t.rows[id].summaryDelivery) else Refused(UnknownSession))
    case RecordSummary(id, delivery) =>
      if id !in t.rows then TableStep(t, Refused(UnknownSession))
      else TableStep(SetRow(t, id, t.rows[id].(summaryDelivery := Some(delivery))), Recorded)
    case CountByStatus(firmId, status) =>
      var t' := t.(rows := MarkSome(t.rows, FirmRows(t.rows, firmId), now));
      TableStep(t', Count(|InStatus(t'.rows, firmId, status)|))
    case ListByStatuses(firmId, statuses) =>
      var t' := t.(rows := MarkSome(t.rows, FirmRows(t.rows, firmId), now));
      TableStep(t', Many(Listing(t'.rows, firmId, statuses)))
    case Get(id) =>
      if id !in t.rows then TableStep(t, Missing)
      else
        var t' := t.(rows := MarkSome(t.rows, {id}, now));
        TableStep(t', One(t'.rows[id]))
    case Size => TableStep(t, Count(|t.rows|))
    case Purge(firmId, shortCut, terminalCut) => SqlPurge(t, firmId, shortCut, terminalCut)
  }

  // ── One step of the two stores from the same rows ──────────────────────────

  /** The table seen as an in-memory store with the token index it would have. */
  function AsStore(t: Table, byToken: map<string, string>): Store {
    Store(t.rows, byToken, t.events)
  }

  /** Same reply, and rows and log that agree once swept. */
  ghost predicate Alike(sql: TableStep, mem: Step, now: int) {
    && sql.reply == mem.reply
    && sql.table.events == mem.store.events
    && MarkAll(sql.table.rows, now) == MarkAll(mem.store.byId, now)
  }

  lemma ExpiryIsInvisible(rows: map<string, Session>, ids: set<string>, now: int)
    ensures MarkAll(MarkSome(rows, ids, now), now) == MarkAll(rows, now)
    ensures MarkAll(MarkAll(rows, now), now) == MarkAll(rows, now)
    ensures MarkSome(rows, ids, now).Keys == rows.Keys == MarkAll(rows, now).Keys
    ensures forall id | id in rows ::
              MarkSome(rows, ids, now)[id] == if id in ids then Mark(rows[id], now) else rows[id]
  {
  }

  lemma MarkAllPut(rows: map<string, Session>, id: string, x: Session, now: int)
    ensures MarkAll(rows[id := x], now) == MarkAll(rows, now)[id := Mark(x, now)]
  {
  }

  lemma MarkAllSame(rows: map<string, Session>, id: string, now: int)
    requires id in rows
    ensures MarkAll(rows[id := Mark(rows[id], now)], now) == MarkAll(rows, now)
  {
  }

  lemma FirmScopedSets(rows: map<string, Session>, firmId: string, c: Criteria, now: int)
    ensures var local := MarkSome(rows, FirmRows(rows, firmId), now);
            var all := MarkAll(rows, now);
            && LiveRows(rows, firmId, now) == Eligible(all, firmId)
            && Candidates(local, firmId, c) == Candidates(all, firmId, c)
            && (forall status :: InStatus(local, firmId, status) == InStatus(all, firmId, status))
            && (forall statuses :: Listing(local, firmId, statuses) == Listing(all, firmId, statuses))
            && (forall id | id in Candidates(all, firmId, c) :: id in rows && id in local && local[id] == all[id])
  {
    var local := MarkSome(rows, FirmRows(rows, firmId), now);
    var all := MarkAll(rows, now);
    assert forall id | id in rows && rows[id].firmId == firmId :: local[id] == all[id];
    assert forall id | id in rows && rows[id].firmId != firmId ::
             local[id].firmId != firmId && all[id].firmId != firmId;
    assert Eligible(local, firmId) == Eligible(all, firmId);
    forall statuses ensures Listing(local, firmId, statuses) == Listing(all, firmId, statuses) {
      forall x ensures x in Listing(local, firmId, statuses) <==> x in Listing(all, firmId, statuses) {
        if x in Listing(local, firmId, statuses) {
          var id :| id in local && local[id].firmId == firmId && local[id].status in statuses && local[id] == x;
          assert all[id] == x;
        }
        if x in Listing(all, firmId, statuses) {
          var id :| id in all && all[id].firmId == firmId && all[id].status in statuses && all[id] == x;
          assert local[id] == x;
        }
      }
    }
  }

  /** A present token names one row; an absent one none. */
  lemma TokenRowsAre(s: Store, tokenHash: string, now: int)
    requires TokensIndexed(s)
    ensures tokenHash !in s.byToken ==>
              TokenRows(s.byId, tokenHash) == {} && RedeemableRows(s.byId, tokenHash, now) == {}
    ensures tokenHash in s.byToken ==>
              && s.byToken[tokenHash] in s.byId
              && TokenRows(s.byId, tokenHash) == {s.byToken[tokenHash]}
              && RedeemableRows(s.byId, tokenHash, now)
                 == if Live(s.byId[s.byToken[tokenHash]], now) then {s.byToken[tokenHash]} else {}
  {
  }

  lemma OnlySingleton(id: string)
    ensures |{id}| == 1 && Only({id}) == id
  {
    assert Only({id}) in {id};
  }

  lemma ConnectRowsAre(rows: map<string, Session>, id: string, now: int)
    ensures id in rows ==> ConnectRows(rows, {id}, now) == rows[id := ConnectedAt(rows[id], now)]
    ensures ConnectRows(rows, {}, now) == rows
  {
  }

  lemma RedeemAlike(t: Table, byToken: map<string, string>, l: Ledger, hash: string, now: int)
    requires Consistent(AsStore(t, byToken), l)
    ensures Alike(Sql(t, Redeem(hash), now), Lazy(AsStore(t, byToken), Redeem(hash), now), now)
  {
    hide Consistent, TokenRows, RedeemableRows, ConnectRows, MarkAll, Only, TokensIndexed;
    var s := AsStore(t, byToken);
    IndexOf(s, l);
    TokenRowsAre(s, hash, now);
    ConnectRowsAre(t.rows, "", now);
    if hash in byToken {
      var id := byToken[hash];
      FitsAt(s, l, id);
      OnlySingleton(id);
      ConnectRowsAre(t.rows, id, now);
      MarkAllSame(t.rows, id, now);
      assert t.rows[id := Mark(t.rows[id], now)][id := ConnectedAt(t.rows[id], now)]
               == t.rows[id := ConnectedAt(t.rows[id], now)];
    }
  }

  lemma CancelAlike(t: Table, byToken: map<string, string>, id: string, hash: string, now: int)
    ensures Alike(Sql(t, Cancel(id, hash), now), Lazy(AsStore(t, byToken), Cancel(id, hash), now), now)
  {
    hide MarkAll;
    if id in t.rows {
      MarkAllSame(t.rows, id, now);
      var y := Mark(t.rows[id], now).(status := Cancelled, cancelledAtMs := Some(now));
      assert t.rows[id := Mark(t.rows[id], now)][id := y] == t.rows[id := y];
    }
  }

  lemma ConnectAlike(t: Table, byToken: map<string, string>, firmId: string, c: Criteria, now: int)
    ensures Alike(Sql(t, ConnectEligible(firmId, c), now), Lazy(AsStore(t, byToken), ConnectEligible(firmId, c), now),
                  now)
  {
    hide MarkAll, Candidates, MarkSome, Only, FirmRows;
    FirmScopedSets(t.rows, firmId, c, now);
    var firm := FirmRows(t.rows, firmId);
    ExpiryIsInvisible(t.rows, firm, now);
    var found := Candidates(MarkAll(t.rows, now), firmId, c);
    if |found| == 1 {
      var id := Only(found);
      assert id in found;
      var x := ConnectedAt(MarkAll(t.rows, now)[id], now);
      MarkAllPut(MarkAll(t.rows, now), id, x, now);
      MarkAllPut(MarkSome(t.rows, firm, now), id, x, now);
    }
  }

  lemma FirmReadsAlike(t: Table, byToken: map<string, string>, op: Op, now: int)
    requires op.CountEligible? || op.CountByStatus? || op.ListByStatuses?
    ensures Alike(Sql(t, op, now), Lazy(AsStore(t, byToken), op, now), now)
  {
    hide MarkAll, MarkSome, FirmRows, Eligible, LiveRows, InStatus, Listing;
    FirmScopedSets(t.rows, op.firmId, Criteria(None, None), now);
    ExpiryIsInvisible(t.rows, FirmRows(t.rows, op.firmId), now);
  }

  lemma RowOpsAlike(t: Table, byToken: map<string, string>, op: Op, now: int)
    requires op.StatusByConsole? || op.Get? || op.ApplyOutcome? || op.ClaimSummary? || op.RecordSummary? || op.Size?
    ensures Alike(Sql(t, op, now), Lazy(AsStore(t, byToken), op, now), now)
  {
    hide MarkAll, MarkSome;
    if (op.StatusByConsole? || op.Get?) && op.id in t.rows {
      ExpiryIsInvisible(t.rows, {op.id}, now);
      MarkAllSame(t.rows, op.id, now);
    }
  }

  lemma CreateAlike(t: Table, byToken: map<string, string>, l: Ledger, x: Session, cap: Option<int>, now: int)
    requires Consistent(AsStore(t, byToken), l) && FreshFor(l, x)
    ensures Alike(Sql(t, Create(x, cap), now), Lazy(AsStore(t, byToken), Create(x, cap), now), now)
  {
    hide MarkAll, MarkSome, FirmRows, Eligible, LiveRows;
    var s := AsStore(t, byToken);
    FirmScopedSets(t.rows, x.firmId, Criteria(None, None), now);
    ExpiryIsInvisible(t.rows, {}, now);
    MarkAllPut(t.rows, x.id, x, now);
    MarkAllPut(MarkAll(t.rows, now), x.id, x, now);
    forall id | id in t.rows ensures id != x.id && t.rows[id].tokenHash != x.tokenHash {
      FitsAt(s, l, id);
    }
    assert TokenRows(t.rows, x.tokenHash) == {};
  }

  lemma PurgeAlike(t: Table, byToken: map<string, string>, l: Ledger, firmId: string, shortCut: int, terminalCut: int,
                   now: int)
    requires Consistent(AsStore(t, byToken), l)
    ensures Alike(Sql(t, Purge(firmId, shortCut, terminalCut), now),
                  Lazy(AsStore(t, byToken), Purge(firmId, shortCut, terminalCut), now), now)
  {
    hide Consistent, MarkAll;
    var s := AsStore(t, byToken);
    var short := PurgedShort(t.rows, firmId, shortCut);
    var terminal := PurgedTerminal(t.rows, firmId, terminalCut);
    var rest := t.rows - short;
    var sqlTerminal := set id | id in rest && rest[id].firmId == firmId && Terminal(rest[id].status)
                                && rest[id].completedAtMs.Some? && rest[id].completedAtMs.value <= terminalCut;
    forall id | id in t.rows ensures Terminal(t.rows[id].status) ==> t.rows[id].completedAtMs.Some? {
      FitsAt(s, l, id);
    }
    assert forall id | id in terminal :: id in t.rows && id !in short && id in rest;
    assert sqlTerminal == terminal;
    assert rest - terminal == t.rows - (short + terminal);
  }

  lemma EveryOperationAlike(t: Table, byToken: map<string, string>, l: Ledger, op: Op, now: int)
    requires Consistent(AsStore(t, byToken), l) && CreatesFresh(l, op)
    ensures Alike(Sql(t, op, now), Lazy(AsStore(t, byToken), op, now), now)
  {
    hide Consistent, Alike, Sql, Lazy, AsStore;
    match op
    case Create(x, cap) => CreateAlike(t, byToken, l, x, cap, now);
    case Redeem(hash) => RedeemAlike(t, byToken, l, hash, now);
    case Cancel(id, hash) => CancelAlike(t, byToken, id, hash, now);
    case ConnectEligible(firmId, c) => ConnectAlike(t, byToken, firmId, c, now);
    case CountEligible(_) => FirmReadsAlike(t, byToken, op, now);
    case CountByStatus(_, _) => FirmReadsAlike(t, byToken, op, now);
    case ListByStatuses(_, _) => FirmReadsAlike(t, byToken, op, now);
    case Purge(firmId, shortCut, terminalCut) => PurgeAlike(t, byToken, l, firmId, shortCut, terminalCut, now);
    case _ => RowOpsAlike(t, byToken, op, now);
  }

  // ── Simulation over runs ───────────────────────────────────────────────────

  /** The table and the in-memory store hold the same sessions once both are swept, and the same log. */
  ghost predicate Simulates(t: Table, s: Store, now: int) {
    t.events == s.events && MarkAll(t.rows, now) == MarkAll(s.byId, now)
  }

  lemma ConsistencyTransfers(t: Table, s: Store, l: Ledger, now: int)
    requires Simulates(t, s, now) && Consistent(s, l)
    ensures Consistent(AsStore(t, s.byToken), l)
  {
    var s' := AsStore(t, s.byToken);
    assert t.rows.Keys == MarkAll(t.rows, now).Keys == MarkAll(s.byId, now).Keys == s.byId.Keys;
    forall id | id in t.rows
      ensures t.rows[id].tokenHash == s.byId[id].tokenHash && SessionFits(l, id, t.rows[id])
    {
      assert MarkAll(t.rows, now)[id] == MarkAll(s.byId, now)[id];
      assert SessionFits(l, id, s.byId[id]);
    }
    assert LogIsExact(s', l) by { assert forall id :: EventsOf(s.events, id) == Expected(l, id); }
  }

  lemma SimulationStep(t: Table, s: Store, l: Ledger, op: Op, now: int)
    requires Simulates(t, s, now) && Consistent(s, l) && CreatesFresh(l, op)
    ensures Sql(t, op, now).reply == Lazy(s, op, now).reply
    ensures Simulates(Sql(t, op, now).table, Lazy(s, op, now).store, now)
  {
    hide Consistent, Sql, Lazy, Eager, MarkAll;
    ConsistencyTransfers(t, s, l, now);
    var s' := AsStore(t, s.byToken);
    EveryOperationAlike(t, s.byToken, l, op, now);
    EveryOperationAgrees(s, op, now);
    EveryOperationAgrees(s', op, now);
    assert Swept(s, now) == Swept(s', now);
    assert Eager(s, op, now) == Eager(s', op, now) by { SameEager(s, s', op, now); }
  }

  lemma SameEager(s: Store, s': Store, op: Op, now: int)
    requires Swept(s, now) == Swept(s', now)
    ensures Eager(s, op, now) == Eager(s', op, now)
  {
    hide Act;
  }

  function SqlReplies(t: Table, run: seq<Timed>): seq<Reply>
    decreases |run|
  {
    if run == [] then []
    else
      var step := Sql(t, run[0].op, run[0].now);
      [step.reply] + SqlReplies(step.table, run[1..])
  }

  function SqlRun(t: Table, run: seq<Timed>): Table
    decreases |run|
  {
    if run == [] then t else SqlRun(Sql(t, run[0].op, run[0].now).table, run[1..])
  }

  lemma SimulatesLater(t: Table, s: Store, since: int, now: int)
    requires since <= now && Simulates(t, s, since)
    ensures Simulates(t, s, now)
  {
    assert MarkAll(MarkAll(t.rows, since), now) == MarkAll(t.rows, now);
    assert MarkAll(MarkAll(s.byId, since), now) == MarkAll(s.byId, now);
  }

  /**
   * Over every clocked run that creates sessions afresh, the repository and the in-memory store give the same replies
   * and end with the same effective sessions and the same event log.
   */
  lemma {:induction false} RepositorySimulatesMemory(t: Table, s: Store, l: Ledger, run: seq<Timed>, since: int)
    requires Clocked(run, since) && Simulates(t, s, since) && Consistent(s, l) && FreshRun(s, l, run)
    ensures SqlReplies(t, run) == LazyReplies(s, run)
    ensures Simulates(SqlRun(t, run), LazyRun(s, run), if run == [] then since else run[|run| - 1].now)
    decreases |run|
  {
    hide Consistent, Sql, Lazy, MarkAll, Note;
    if run != [] {
      var op, now := run[0].op, run[0].now;
      SimulatesLater(t, s, since, now);
      SimulationStep(t, s, l, op, now);
      StepIsConsistent(s, l, op, now);
      RepositorySimulatesMemory(Sql(t, op, now).table, Lazy(s, op, now).store, Note(l, op, Lazy(s, op, now).reply),
                                run[1..], now);
    }
  }

  // ── The two-step redemption under interleaving ─────────────────────────────

  /** What a table is known to hold: rows under their own id, with distinct tokens, all of them in the ledger. */
  ghost predicate Known(t: Table, l: Ledger) {
    && (forall id | id in t.rows :: t.rows[id].id == id && id in l.ids && t.rows[id].tokenHash in l.tokens)
    && (forall i, j | i in t.rows && j in t.rows && t.rows[i].tokenHash == t.rows[j].tokenHash :: i == j)
  }

  /** Every creation of the run is fresh. */
  ghost predicate FreshSqlRun(t: Table, l: Ledger, run: seq<Timed>)
    decreases |run|
  {
    run == []
    || (var step := Sql(t, run[0].op, run[0].now);
        CreatesFresh(l, run[0].op) && FreshSqlRun(step.table, Note(l, run[0].op, step.reply), run[1..]))
  }

  /** Every row of `after` under this token was there before, and has not gone back to awaiting. */
  ghost predicate Descends(before: Table, after: Table, tokenHash: string) {
    forall id | id in after.rows && after.rows[id].tokenHash == tokenHash ::
      && id in before.rows && before.rows[id].tokenHash == tokenHash
      && after.rows[id].expiresAtMs == before.rows[id].expiresAtMs
      && (after.rows[id].status.AwaitingTransfer? ==> before.rows[id].status.AwaitingTransfer?)
  }

  /** A write that keeps identity and does not bring a row back to awaiting. */
  predicate Onward(x: Session, y: Session) {
    && y.id == x.id && y.tokenHash == x.tokenHash && y.expiresAtMs == x.expiresAtMs
    && (y.status.AwaitingTransfer? ==> x.status.AwaitingTransfer?)
  }

  /** Every operation but creation only moves rows onward, or removes them. */
  ghost predicate MovesOnward(before: Table, after: Table) {
    forall id | id in after.rows :: id in before.rows && Onward(before.rows[id], after.rows[id])
  }

  lemma OperationsMoveOnward(t: Table, l: Ledger, op: Op, now: int)
    requires Known(t, l) && !op.Create?
    ensures MovesOnward(t, Sql(t, op, now).table)
  {
    hide Known, PurgedShort, Listing, InStatus, TokenRows, RedeemableRows, FirmRows, LiveRows, SummaryClaimable;
    match op
    case ConnectEligible(firmId, c) =>
      var expired := MarkSome(t.rows, FirmRows(t.rows, firmId), now);
      var found := Candidates(expired, firmId, c);
      if |found| == 1 { assert Only(found) in found; }
    case Redeem(hash) =>
      var first := RedeemUpdate(t, hash, now);
      UpdateMovesOnward(t, hash, now);
      ClassifyMovesOnward(first.table, hash, now);
    case Purge(_, _, _) =>
    case _ =>
  }

  lemma UpdateMovesOnward(t: Table, hash: string, now: int)
    ensures MovesOnward(t, RedeemUpdate(t, hash, now).table)
  {
    hide RedeemableRows;
  }

  lemma ClassifyMovesOnward(t: Table, hash: string, now: int)
    ensures MovesOnward(t, Classify(t, hash, now).table)
  {
    var found := TokenRows(t.rows, hash);
    if |found| == 1 { assert Only(found) in found; }
  }

  lemma StepDescends(t: Table, l: Ledger, op: Op, now: int, tokenHash: string)
    requires Known(t, l) && CreatesFresh(l, op) && tokenHash in l.tokens
    ensures var step := Sql(t, op, now);
            && Descends(t, step.table, tokenHash)
            && Known(step.table, Note(l, op, step.reply))
            && tokenHash in Note(l, op, step.reply).tokens
  {
    var step := Sql(t, op, now);
    LedgerGrows(l, op, step.reply);
    if !op.Create? {
      hide Sql;
      OperationsMoveOnward(t, l, op, now);
      OnwardKeeps(t, step.table, l, Note(l, op, step.reply), tokenHash);
    }
  }

  lemma OnwardKeeps(t: Table, t': Table, l: Ledger, l': Ledger, tokenHash: string)
    requires MovesOnward(t, t') && Known(t, l) && l.ids <= l'.ids && l.tokens <= l'.tokens
    ensures Descends(t, t', tokenHash) && Known(t', l')
  {
  }

  lemma {:induction false} RunDescends(t: Table, l: Ledger, run: seq<Timed>, tokenHash: string)
    requires Known(t, l) && FreshSqlRun(t, l, run) && tokenHash in l.tokens
    ensures Descends(t, SqlRun(t, run), tokenHash)
    decreases |run|
  {
    hide Sql, Note, Known;
    if run != [] {
      var step := Sql(t, run[0].op, run[0].now);
      StepDescends(t, l, run[0].op, run[0].now, tokenHash);
      RunDescends(step.table, Note(l, run[0].op, step.reply), run[1..], tokenHash);
    }
  }

  /**
   * A redemption whose first step missed answers, after any interleaved run, exactly what one atomic redemption would
   * have answered at the moment of its classifying read. The token must be known when it starts.
   */
  lemma TwoStepRedeemLinearizes(t: Table, l: Ledger, run: seq<Timed>, tokenHash: string, now: int)
    requires Known(t, l) && FreshSqlRun(t, l, run) && tokenHash in l.tokens
    requires RedeemUpdate(t, tokenHash, now).reply.Missing?
    ensures RedeemUpdate(t, tokenHash, now).table == t
    ensures Classify(SqlRun(t, run), tokenHash, now) == Sql(SqlRun(t, run), Redeem(tokenHash), now)
  {
    var after := SqlRun(t, run);
    RunDescends(t, l, run, tokenHash);
    var hits := RedeemableRows(t.rows, tokenHash, now);
    AtMostOneHit(t, l, tokenHash, now);
    assert hits == {};
    assert ConnectRows(t.rows, hits, now) == t.rows;
    assert RedeemableRows(after.rows, tokenHash, now) == {};
    assert ConnectRows(after.rows, {}, now) == after.rows;
  }

  lemma AtMostOneHit(t: Table, l: Ledger, tokenHash: string, now: int)
    requires Known(t, l)
    ensures var hits := RedeemableRows(t.rows, tokenHash, now); hits == {} || |hits| == 1
  {
    var hits := RedeemableRows(t.rows, tokenHash, now);
    if hits != {} {
      var id :| id in hits;
      assert hits == {id};
    }
  }

  /** A redemption that missed answers as one atomic redemption would at its classifying read. */
  predicate Linearizes(t: Table, run: seq<Timed>, tokenHash: string, now: int) {
    Classify(SqlRun(t, run), tokenHash, now) == Sql(SqlRun(t, run), Redeem(tokenHash), now)
  }

  /**
   * A token unknown when the UPDATE missed, and created before the classifying read, is called already redeemed while
   * its session still awaits transfer.
   */
  lemma LateTokenIsMisclassified(t: Table, l: Ledger, x: Session, now: int)
    requires Known(t, l) && FreshFor(l, x) && now < x.expiresAtMs
    ensures var run := [Timed(Create(x, None), now)]; var after := SqlRun(t, run);
            && FreshSqlRun(t, l, run) && RedeemUpdate(t, x.tokenHash, now).reply.Missing?
            && Classify(after, x.tokenHash, now).reply == Refused(TokenAlreadyRedeemed)
            && Sql(after, Redeem(x.tokenHash), now).reply == One(ConnectedAt(x, now))
            && !Linearizes(t, run, x.tokenHash, now)
  {
    var run := [Timed(Create(x, None), now)];
    assert RedeemableRows(t.rows, x.tokenHash, now) == {};
    var step := Sql(t, Create(x, None), now);
    var after := step.table;
    assert TokenRows(t.rows, x.tokenHash) == {};
    assert run[1..] == [] && SqlRun(after, []) == after;
    assert SqlRun(t, run) == after;
    assert FreshSqlRun(after, Note(l, run[0].op, step.reply), []);
    assert TokenRows(after.rows, x.tokenHash) == {x.id};
    assert RedeemableRows(after.rows, x.tokenHash, now) == {x.id};
    OnlySingleton(x.id);
  }

  /** Some id no session ever had: one longer than all of them. */
  lemma {:induction false} UnusedId(ids: set<string>) returns (id: string)
    ensures id !in ids && forall k | k in ids :: |k| < |id|
    decreases |ids|
  {
    if ids == {} {
      id := "";
    } else {
      var some :| some in ids;
      var rest := UnusedId(ids - {some});
      id := rest + some + "x";
    }
  }

  /**
   * A redemption whose UPDATE missed linearizes in every interleaving if and only if its token had been known when it
   * missed.
   */
  lemma LinearizesExactlyWhenKnown(t: Table, l: Ledger, tokenHash: string, now: int)
    requires Known(t, l) && RedeemUpdate(t, tokenHash, now).reply.Missing?
    ensures (forall run | FreshSqlRun(t, l, run) :: Linearizes(t, run, tokenHash, now)) <==> tokenHash in l.tokens
  {
    hide Sql, Classify, Known, RedeemUpdate, FreshSqlRun, SqlRun;
    if tokenHash in l.tokens {
      forall run | FreshSqlRun(t, l, run) ensures Linearizes(t, run, tokenHash, now) {
        TwoStepRedeemLinearizes(t, l, run, tokenHash, now);
      }
    } else {
      var id := UnusedId(l.ids);
      var x := Session(id, "", None, tokenHash, "", AwaitingTransfer, None, None, None, None, None, None, now, now + 1);
      LateTokenIsMisclassified(t, l, x, now);
    }
  }

  // ── The repository as it runs ──────────────────────────────────────────────

  /**
   * The repository over its table. A transaction keeps the rows it started from and puts them back when it fails; every
   * statement replaces all matching rows at once.
   */
  class PostgresStore {
    var rows: map<string, Session>
    var events: seq<Event>

    ghost function State(): Table
      reads this
    {
      Table(rows, events)
    }

    constructor ()
      ensures State() == Table(map[], [])
    {
      rows, events := map[], [];
    }

    /** UPDATE … SET status = 'expired' WHERE session_id IN ids AND awaiting AND overdue. */
    method MarkExpired(ids: set<string>, now: int)
      modifies this`rows
      ensures rows == MarkSome(old(rows), ids, now)
    {
      rows := map id | id in rows ::
                if id in ids && rows[id].status.AwaitingTransfer? && rows[id].expiresAtMs <= now
                then rows[id].(status := Expired) else rows[id];
    }

    method InsertSession(session: Session) returns (reply: Reply)
      modifies this
      ensures TableStep(State(), reply) == InsertRow(old(State()), session)
    {
      if session.id in rows || TokenRows(rows, session.tokenHash) != {} { return Refused(DuplicateKey); }
      rows := rows[session.id := session];
      reply := One(session);
    }

    method Create(session: Session, cap: Option<int>, now: int) returns (reply: Reply)
      modifies this
      ensures TableStep(State(), reply) == Sql(old(State()), Op.Create(session, cap), now)
    {
      if cap.Some? && session.status.AwaitingTransfer? {
        var live := LiveRows(rows, session.firmId, now);
        if |live| >= cap.value { return Refused(TooManyPreparedSessions); }
      }
      reply := InsertSession(session);
    }

    method RedeemFirst(tokenHash: string, now: int) returns (reply: Reply)
      modifies this
      ensures TableStep(State(), reply) == RedeemUpdate(old(State()), tokenHash, now)
    {
      var hits := RedeemableRows(rows, tokenHash, now);
      rows := map id | id in rows :: if id in hits then ConnectedAt(rows[id], now) else rows[id];
      if |hits| != 1 { return Missing; }
      var session := rows[Only(hits)];
      events := events + [Event(ConversationConnected, session.firmId, session.id)];
      reply := One(session);
    }

    method RedeemSecond(tokenHash: string, now: int) returns (reply: Reply)
      modifies this
      ensures TableStep(State(), reply) == Classify(old(State()), tokenHash, now)
    {
      var found := TokenRows(rows, tokenHash);
      if |found| != 1 { return Refused(UnknownToken); }
      var id := Only(found);
      assert id in found;
      var session := rows[id];
      if session.status.Cancelled? { return Refused(TokenCancelled); }
      if session.status.Expired? || session.expiresAtMs <= now {
        MarkExpired({id}, now);
        assert rows == old(rows)[id := Mark(session, now)];
        return Refused(TokenExpired);
      }
      reply := Refused(TokenAlreadyRedeemed);
    }

    method Redeem(tokenHash: string, now: int) returns (reply: Reply)
      modifies this
      ensures TableStep(State(), reply) == Sql(old(State()), Op.Redeem(tokenHash), now)
    {
      hide Classify;
      reply := RedeemFirst(tokenHash, now);
      if reply.One? { return reply; }
      reply := RedeemSecond(tokenHash, now);
    }

    method StatusByConsole(id: string, consoleTokenHash: string, now: int) returns (reply: Reply)
      modifies this
      ensures TableStep(State(), reply) == Sql(old(State()), Op.StatusByConsole(id, consoleTokenHash), now)
    {
      if id !in rows { return Refused(UnknownSession); }
      if rows[id].consoleTokenHash != consoleTokenHash { return Refused(Forbidden); }
      MarkExpired({id}, now);
      reply := One(rows[id]);
    }

    method Cancel(id: string, consoleTokenHash: string, now: int) returns (reply: Reply)
      modifies this
      ensures TableStep(State(), reply) == Sql(old(State()), Op.Cancel(id, consoleTokenHash), now)
    {
      var begun := rows;
      reply := CancelBody(id, consoleTokenHash, now);
      if reply.Refused? { rows := begun; }
    }

    /** The statements of a cancellation, before commit or rollback. */
    method CancelBody(id: string, consoleTokenHash: string, now: int) returns (reply: Reply)
      modifies this`rows
      ensures reply == SqlCancel(old(State()), id, consoleTokenHash, now).reply
      ensures !reply.Refused? ==> State() == SqlCancel(old(State()), id, consoleTokenHash, now).table
    {
      if id !in rows { return Refused(UnknownSession); }
      var row := rows[id];
      if row.consoleTokenHash != consoleTokenHash { return Refused(Forbidden); }
      var expired := row.expiresAtMs <= now;
      var status := row.status;
      if status.AwaitingTransfer? && expired {
        MarkExpired({id}, now);
        status := Expired;
      }
      if status.Cancelled? {
        if expired { return Refused(SessionExpired); }
        return One(row);
      }
      if status.Connected? { return Refused(CannotCancel); }
      if status.Expired? { return Refused(SessionExpired); }
      row := rows[id].(status := Cancelled, cancelledAtMs := Some(now));
      rows := rows[id := row];
      reply := One(row);
    }

    method ConnectEligible(firmId: string, criteria: Criteria, now: int) returns (reply: Reply)
      modifies this
      ensures TableStep(State(), reply) == Sql(old(State()), Op.ConnectEligible(firmId, criteria), now)
    {
      var begun := rows;
      MarkExpired(FirmRows(rows, firmId), now);
      var found := Candidates(rows, firmId, criteria);
      if |found| == 0 { rows := begun; return Refused(NoPreparedSession); }
      if |found| > 1 { rows := begun; return Refused(AmbiguousSession); }
      var id := Only(found);
      assert id in found;
      var session := ConnectedAt(rows[id], now);
      rows := rows[id := session];
      events := events + [Event(ConversationConnected, session.firmId, session.id)];
      reply := One(session);
    }

    method CountEligible(firmId: string, now: int) returns (reply: Reply)
      ensures TableStep(State(), reply) == Sql(State(), Op.CountEligible(firmId), now)
    {
      reply := Count(|LiveRows(rows, firmId, now)|);
    }

    method ApplyOutcome(id: string, outcome: Outcome, now: int) returns (reply: Reply)
      modifies this
      ensures TableStep(State(), reply) == Sql(old(State()), Op.ApplyOutcome(id, outcome), now)
    {
      if id !in rows { return Refused(UnknownSession); }
      var row := rows[id];
      if row.status in {Booked, Failed, Escalated} {
        if row.outcome == Some(outcome) { return Applied(row, true); }
        return Refused(OutcomeConflict);
      }
      if !row.status.Connected? && !row.status.Scheduling? { return Refused(InvalidOutcomeState); }
      row := row.(status := outcome.status, outcome := Some(outcome), completedAtMs := Some(now));
      rows := rows[id := row];
      events := events + [Event(ConversationCompleted(outcome.status), row.firmId, row.id)];
      reply := Applied(row, false);
    }

    method ClaimSummaryDelivery(id: string, now: int) returns (reply: Reply)
      modifies this
      ensures TableStep(State(), reply) == Sql(old(State()), Op.ClaimSummary(id), now)
    {
      var staleBefore := now - Claims.STALE_CLAIM_MS;
      if id in rows {
        var row := rows[id];
        if row.summaryDelivery.None? || row.summaryDelivery == Some(Claims.Failed)
           || (row.summaryDelivery == Some(Claims.Pending) && row.summaryClaimedAtMs.Some?
               && row.summaryClaimedAtMs.value <= staleBefore) {
          rows := rows[id := row.(summaryDelivery := Some(Claims.Pending), summaryClaimedAtMs := Some(now))];
          return Claim(true, Some(Claims.Pending));
        }
      }
      if id !in rows { return Refused(UnknownSession); }
      reply := Claim(false, rows[id].summaryDelivery);
    }

    method RecordSummaryDelivery(id: string, delivery: Claims.DeliveryStatus, now: int) returns (reply: Reply)
      modifies this
      ensures TableStep(State(), reply) == Sql(old(State()), Op.RecordSummary(id, delivery), now)
    {
      if id !in rows { return Refused(UnknownSession); }
      rows := rows[id := rows[id].(summaryDelivery := Some(delivery))];
      reply := Recorded;
    }

    method CountByStatus(firmId: string, status: SessionStatus, now: int) returns (reply: Reply)
      modifies this
      ensures TableStep(State(), reply) == Sql(old(State()), Op.CountByStatus(firmId, status), now)
    {
      MarkExpired(FirmRows(rows, firmId), now);
      reply := Count(|InStatus(rows, firmId, status)|);
    }

    method ListRecent(firmId: string, statuses: set<SessionStatus>, now: int) returns (reply: Reply)
      modifies this
      ensures TableStep(State(), reply) == Sql(old(State()), Op.ListByStatuses(firmId, statuses), now)
    {
      MarkExpired(FirmRows(rows, firmId), now);
      reply := Many(Listing(rows, firmId, statuses));
    }

    method Get(id: string, now: int) returns (reply: Reply)
      modifies this
      ensures TableStep(State(), reply) == Sql(old(State()), Op.Get(id), now)
    {
      if id !in rows { return Missing; }
      if rows[id].status.AwaitingTransfer? && rows[id].expiresAtMs <= now {
        MarkExpired({id}, now);
      } else {
        assert MarkSome(rows, {id}, now) == rows;
      }
      reply := One(rows[id]);
    }

    method PurgeRetired(firmId: string, cancelledExpiredBeforeMs: int, terminalBeforeMs: int, now: int)
      returns (reply: Reply)
      modifies this
      ensures TableStep(State(), reply)
                == Sql(old(State()), Op.Purge(firmId, cancelledExpiredBeforeMs, terminalBeforeMs), now)
    {
      var short := PurgedShort(rows, firmId, cancelledExpiredBeforeMs);
      rows := rows - short;
      var terminal := set id | id in rows && rows[id].firmId == firmId && Terminal(rows[id].status)
                               && rows[id].completedAtMs.Some? && rows[id].completedAtMs.value <= terminalBeforeMs;
      rows := rows - terminal;
      reply := Purged(|short|, |terminal|);
    }
  }
}
