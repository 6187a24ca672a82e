/**
 * Handoff sessions: the in-memory reference store as a specification, and the eager machine it must be
 * indistinguishable from.
 *
 * The store expires sessions lazily, only when an operation touches them. `Lazy` follows it operation
 * by operation; `Eager` first expires every overdue awaiting session and then acts without ever
 * looking for one. Both are total functions from a store, an operation and the clock's reading to a
 * store and a reply; errors are replies.
 */
module HandoffSessions {
  import opened Options
  import Claims = DeliveryClaims

  datatype SessionStatus =
    | AwaitingTransfer | Connected | Scheduling | Booked | Failed | Escalated | Expired | Cancelled

  predicate Terminal(s: SessionStatus) {
    s.Booked? || s.Failed? || s.Escalated?
  }

  /** A validated outcome: its status, and the text its other fields serialize to. */
  datatype RawOutcome = RawOutcome(status: SessionStatus, text: string)
  type Outcome = o: RawOutcome | Terminal(o.status) witness RawOutcome(Booked, "")

  datatype Session = Session(
    id: string, firmId: string, phone: Option<string>, tokenHash: string, consoleTokenHash: string,
    status: SessionStatus, outcome: Option<Outcome>,
    summaryDelivery: Option<Claims.DeliveryStatus>, summaryClaimedAtMs: Option<int>,
    redeemedAtMs: Option<int>, cancelledAtMs: Option<int>, completedAtMs: Option<int>,
    createdAtMs: int, expiresAtMs: int)

  datatype EventKind = ConversationConnected | ConversationCompleted(status: SessionStatus)
  datatype Event = Event(kind: EventKind, organizationKey: string, sessionId: string)

  datatype Store = Store(byId: map<string, Session>, byToken: map<string, string>, events: seq<Event>)

  const EMPTY := Store(map[], map[], [])

  /** Candidate criteria: each present one narrows the eligible set. */
  datatype Criteria = Criteria(sessionId: Option<string>, phone: Option<string>)

  datatype Op =
    | Create(session: Session, cap: Option<int>)
    | Redeem(tokenHash: string)
    | StatusByConsole(id: string, consoleTokenHash: string)
    | Cancel(id: string, consoleTokenHash: string)
    | ConnectEligible(firmId: string, criteria: Criteria)
    | CountEligible(firmId: string)
    | ApplyOutcome(id: string, outcome: Outcome)
    | ClaimSummary(id: string)
    | RecordSummary(id: string, delivery: Claims.DeliveryStatus)
    | CountByStatus(firmId: string, status: SessionStatus)
    | ListByStatuses(firmId: string, statuses: set<SessionStatus>)
    | Get(id: string)
    | Size
    | Purge(firmId: string, cancelledExpiredBeforeMs: int, terminalBeforeMs: int)

  datatype Error =
    | TooManyPreparedSessions | UnknownToken | TokenCancelled | TokenExpired | TokenAlreadyRedeemed
    | UnknownSession | Forbidden | SessionExpired | CannotCancel | NoPreparedSession | AmbiguousSession
    | OutcomeConflict | InvalidOutcomeState | DuplicateKey

  datatype Reply =
    | Refused(error: Error)
    | One(session: Session)
    | Many(sessions: set<Session>)
    | Count(n: nat)
    | Applied(session: Session, duplicate: bool)
    | Claim(claimed: bool, delivery: Option<Claims.DeliveryStatus>)
    | Recorded
    | Missing
    | Purged(shortLived: nat, terminal: nat)

  datatype Step = Step(store: Store, reply: Reply)

  // ── Shared pieces ──────────────────────────────────────────────────────────

  predicate Overdue(x: Session, now: int) {
    now >= x.expiresAtMs
  }

  function Mark(x: Session, now: int): Session {
    if x.status.AwaitingTransfer? && Overdue(x, now) then x.(status := Expired) else x
  }

  function MarkAll(byId: map<string, Session>, now: int): map<string, Session> {
    map id | id in byId :: Mark(byId[id], now)
  }

  /** The sweep reached these sessions only. */
  function MarkSome(byId: map<string, Session>, ids: set<string>, now: int): map<string, Session> {
    map id | id in byId :: if id in ids then Mark(byId[id], now) else byId[id]
  }

  function Swept(s: Store, now: int): Store {
    s.(byId := MarkAll(s.byId, now))
  }

  function Put(s: Store, id: string, x: Session): Store {
    s.(byId := s.byId[id := x])
  }

  function Publish(s: Store, kind: EventKind, x: Session): Store {
    s.(events := s.events + [Event(kind, x.firmId, x.id)])
  }

  function Eligible(byId: map<string, Session>, firmId: string): set<string> {
    set id | id in byId && byId[id].firmId == firmId && byId[id].status.AwaitingTransfer?
  }

  predicate Matches(x: Session, c: Criteria) {
    (c.sessionId.Some? ==> x.id == c.sessionId.value) && (c.phone.Some? ==> x.phone == c.phone)
  }

  function Candidates(byId: map<string, Session>, firmId: string, c: Criteria): set<string> {
    set id | id in Eligible(byId, firmId) && Matches(byId[id], c)
  }

  function InStatus(byId: map<string, Session>, firmId: string, status: SessionStatus): set<string> {
    set id | id in byId && byId[id].firmId == firmId && byId[id].status == status
  }

  function Listing(byId: map<string, Session>, firmId: string, statuses: set<SessionStatus>): set<Session> {
    set id | id in byId && byId[id].firmId == firmId && byId[id].status in statuses :: byId[id]
  }

  function Insert(s: Store, x: Session): Store {
    s.(byId := s.byId[x.id := x], byToken := s.byToken[x.tokenHash := x.id])
  }

  /** The one member of a singleton set. */
  function Only(ids: set<string>): (id: string)
    requires |ids| == 1
    ensures ids == {id}
  {
    OnlyIsUnique(ids);
    var id :| id in ids && forall other | other in ids :: other == id;
    id
  }

  lemma OnlyIsUnique(ids: set<string>)
    requires |ids| == 1
    ensures exists id :: ids == {id}
  {
    var id :| id in ids;
    assert |ids - {id}| == 0;
    assert ids == {id};
  }

  function ConnectedAt(x: Session, now: int): Session {
    x.(redeemedAtMs := Some(now), status := Connected)
  }

  function Claimed(x: Session, now: int): Session {
    x.(summaryDelivery := Some(Claims.Pending), summaryClaimedAtMs := Some(now))
  }

  /** A summary delivery may be claimed: never attempted, failed, or its claimant is presumed dead. */
  predicate SummaryClaimable(x: Session, now: int) {
    || x.summaryDelivery.None?
    || x.summaryDelivery.value.Failed?
    || (x.summaryDelivery.value.Pending? && x.summaryClaimedAtMs.Some?
        && now - x.summaryClaimedAtMs.value >= Claims.STALE_CLAIM_MS)
  }

  predicate ShortLived(x: Session, cut: int) {
    || (x.status.Cancelled? && (if x.cancelledAtMs.Some? then x.cancelledAtMs.value else x.expiresAtMs) <= cut)
    || ((x.status.Expired? || x.status.AwaitingTransfer?) && x.expiresAtMs <= cut)
  }

  predicate LongDone(x: Session, cut: int) {
    Terminal(x.status) && (if x.completedAtMs.Some? then x.completedAtMs.value else 0) <= cut
  }

  function PurgedShort(byId: map<string, Session>, firmId: string, cut: int): set<string> {
    set id | id in byId && byId[id].firmId == firmId && ShortLived(byId[id], cut)
  }

  function PurgedTerminal(byId: map<string, Session>, firmId: string, cut: int): set<string> {
    set id | id in byId && byId[id].firmId == firmId && LongDone(byId[id], cut)
  }

  function WithoutSessions(s: Store, ids: set<string>): Store
    requires ids <= s.byId.Keys
  {
    s.(byId := s.byId - ids, byToken := s.byToken - (set id | id in ids :: s.byId[id].tokenHash))
  }

  // ── The lazy store ─────────────────────────────────────────────────────────

  function LazyConsole(s: Store, id: string, hash: string): Option<Error> {
    if id !in s.byId then Some(UnknownSession)
    else if s.byId[id].consoleTokenHash != hash then Some(Forbidden)
    else None
  }

  function LazyRedeem(s: Store, tokenHash: string, now: int): Step {
    if tokenHash !in s.byToken || s.byToken[tokenHash] !in s.byId then Step(s, Refused(UnknownToken))
    else
      var id := s.byToken[tokenHash];
      if s.byId[id].status.Cancelled? then Step(s, Refused(TokenCancelled))
      else
        var x := Mark(s.byId[id], now);
        var s' := Put(s, id, x);
        if x.status.Expired? || Overdue(x, now) then Step(s', Refused(TokenExpired))
        else if x.redeemedAtMs.Some? || !x.status.AwaitingTransfer? then Step(s', Refused(TokenAlreadyRedeemed))
        else Step(Publish(Put(s', id, ConnectedAt(x, now)), ConversationConnected, x), One(ConnectedAt(x, now)))
  }

  function LazyCancel(s: Store, id: string, hash: string, now: int): Step {
    var denied := LazyConsole(s, id, hash);
    if denied.Some? then Step(s, Refused(denied.value))
    else
      var x := Mark(s.byId[id], now);
      var s' := Put(s, id, x);
      if x.status.Cancelled? then Step(s', if Overdue(x, now) then Refused(SessionExpired) else One(x))
      else if x.status.Connected? then Step(s', Refused(CannotCancel))
      else if x.status.Expired? then Step(s', Refused(SessionExpired))
      else
        var y := x.(status := Cancelled, cancelledAtMs := Some(now));
        Step(Put(s', id, y), One(y))
  }

  function LazyConnect(s: Store, firmId: string, c: Criteria, now: int): Step {
    var s' := Swept(s, now);
    var found := Candidates(s'.byId, firmId, c);
    if |found| == 0 then Step(s', Refused(NoPreparedSession))
    else if |found| > 1 then Step(s', Refused(AmbiguousSession))
    else
      var id := Only(found);
      var x := s'.byId[id];
      Step(Publish(Put(s', id, ConnectedAt(x, now)), ConversationConnected, x), One(ConnectedAt(x, now)))
  }

  function LazyOutcome(s: Store, id: string, outcome: Outcome, now: int): Step {
    if id !in s.byId then Step(s, Refused(UnknownSession))
    else
      var x := s.byId[id];
      if Terminal(x.status) then
        Step(s, if x.outcome == Some(outcome) then Applied(x, true) else Refused(OutcomeConflict))
      else if !x.status.Connected? && !x.status.Scheduling? then Step(s, Refused(InvalidOutcomeState))
      else
        var y := x.(status := outcome.status, outcome := Some(outcome), completedAtMs := Some(now));
        Step(Publish(Put(s, id, y), ConversationCompleted(outcome.status), x), Applied(y, false))
  }

  function LazyPurge(s: Store, firmId: string, shortCut: int, terminalCut: int): Step {
    var short := PurgedShort(s.byId, firmId, shortCut);
    var terminal := PurgedTerminal(s.byId, firmId, terminalCut);
    Step(WithoutSessions(s, short + terminal), Purged(|short|, |terminal|))
  }

  /** One operation of the in-memory store. */
  function Lazy(s: Store, op: Op, now: int): Step {
    match op
    case Create(x, cap) =>
      if cap.None? || !x.status.AwaitingTransfer? then Step(Insert(s, x), One(x))
      else
        var s' := Swept(s, now);
        if |Eligible(s'.byId, x.firmId)| >= cap.value then Step(s', Refused(TooManyPreparedSessions))
        else Step(Insert(s', x), One(x))
    case Redeem(tokenHash) => LazyRedeem(s, tokenHash, now)
    case StatusByConsole(id, hash) =>
      var denied := LazyConsole(s, id, hash);
      if denied.Some? then Step(s, Refused(denied.value))
      else Step(Put(s, id, Mark(s.byId[id], now)), One(Mark(s.byId[id], now)))
    case Cancel(id, hash) => LazyCancel(s, id, hash, now)
    case ConnectEligible(firmId, c) => LazyConnect(s, firmId, c, now)
    case CountEligible(firmId) =>
      var s' := Swept(s, now);
      Step(s', Count(|Eligible(s'.byId, firmId)|))
    case ApplyOutcome(id, outcome) => LazyOutcome(s, id, outcome, now)
    case ClaimSummary(id) =>
      if id !in s.byId then Step(s, Refused(UnknownSession))
      else if SummaryClaimable(s.byId[id], now)
      then Step(Put(s, id, Claimed(s.byId[id], now)), Claim(true, Some(Claims.Pending)))
      else Step(s, Claim(false, s.byId[id].summaryDelivery))
    case RecordSummary(id, delivery) =>
      if id !in s.byId then Step(s, Refused(UnknownSession))
      else Step(Put(s, id, s.byId[id].(summaryDelivery := Some(delivery))), Recorded)
    case CountByStatus(firmId, status) =>
      var s' := Swept(s, now);
      Step(s', Count(|InStatus(s'.byId, firmId, status)|))
    case ListByStatuses(firmId, statuses) =>
      var s' := Swept(s, now);
      Step(s', Many(Listing(s'.byId, firmId, statuses)))
    case Get(id) =>
      if id !in s.byId then Step(s, Missing)
      else Step(Put(s, id, Mark(s.byId[id], now)), One(Mark(s.byId[id], now)))
    case Size => Step(s, Count(|s.byId|))
    case Purge(firmId, shortCut, terminalCut) => LazyPurge(s, firmId, shortCut, terminalCut)
  }

  // ── The eager machine ──────────────────────────────────────────────────────

  /**
   * What each operation does to a store in which nothing awaiting is overdue; the clock is read only for the timestamps
   * it writes and for the two lifetime rules that outlast a session's own expiry.
   */
  function Act(s: Store, op: Op, now: int): Step {
    match op
    case Create(x, cap) =>
      if cap.Some? && x.status.AwaitingTransfer? && |Eligible(s.byId, x.firmId)| >= cap.value
      then Step(s, Refused(TooManyPreparedSessions))
      else Step(Insert(s, x), One(x))
    case Redeem(tokenHash) =>
      if tokenHash !in s.byToken || s.byToken[tokenHash] !in s.byId then Step(s, Refused(UnknownToken))
      else
        var x := s.byId[s.byToken[tokenHash]];
        (match x.status
         case Cancelled => Step(s, Refused(TokenCancelled))
         case Expired => Step(s, Refused(TokenExpired))
         case AwaitingTransfer =>
           if x.redeemedAtMs.Some? then Step(s, Refused(TokenAlreadyRedeemed))
           else Step(Publish(Put(s, s.byToken[tokenHash], ConnectedAt(x, now)), ConversationConnected, x),
                     One(ConnectedAt(x, now)))
         case _ => Step(s, Refused(if Overdue(x, now) then TokenExpired else TokenAlreadyRedeemed)))
    case StatusByConsole(id, hash) =>
      Step(s, if id !in s.byId then Refused(UnknownSession)
              else if s.byId[id].consoleTokenHash != hash then Refused(Forbidden)
              else One(s.byId[id]))
    case Cancel(id, hash) =>
      if id !in s.byId then Step(s, Refused(UnknownSession))
      else if s.byId[id].consoleTokenHash != hash then Step(s, Refused(Forbidden))
      else
        var x := s.byId[id];
        (match x.status
         case Cancelled => Step(s, if Overdue(x, now) then Refused(SessionExpired) else One(x))
         case Connected => Step(s, Refused(CannotCancel))
         case Expired => Step(s, Refused(SessionExpired))
         case _ =>
           var y := x.(status := Cancelled, cancelledAtMs := Some(now));
           Step(Put(s, id, y), One(y)))
    case ConnectEligible(firmId, c) =>
      var found := Candidates(s.byId, firmId, c);
      if |found| == 1 then
        var x := s.byId[Only(found)];
        Step(Publish(Put(s, Only(found), ConnectedAt(x, now)), ConversationConnected, x), One(ConnectedAt(x, now)))
      else Step(s, Refused(if |found| == 0 then NoPreparedSession else AmbiguousSession))
    case CountEligible(firmId) => Step(s, Count(|Eligible(s.byId, firmId)|))
    case ApplyOutcome(id, outcome) => LazyOutcome(s, id, outcome, now)
    case ClaimSummary(id) => Lazy(s, op, now)
    case RecordSummary(id, delivery) => Lazy(s, op, now)
    case CountByStatus(firmId, status) => Step(s, Count(|InStatus(s.byId, firmId, status)|))
    case ListByStatuses(firmId, statuses) => Step(s, Many(Listing(s.byId, firmId, statuses)))
    case Get(id) => Step(s, if id in s.byId then One(s.byId[id]) else Missing)
    case Size => Step(s, Count(|s.byId|))
    case Purge(firmId, shortCut, terminalCut) => LazyPurge(s, firmId, shortCut, terminalCut)
  }

  function Eager(s: Store, op: Op, now: int): Step {
    Act(Swept(s, now), op, now)
  }

  // ── Runs ───────────────────────────────────────────────────────────────────

  datatype Timed = Timed(op: Op, now: int)

  predicate Clocked(run: seq<Timed>, since: int) {
    && (forall i | 0 <= i < |run| :: since <= run[i].now)
    && (forall i, j | 0 <= i < j < |run| :: run[i].now <= run[j].now)
  }

  function LazyReplies(s: Store, run: seq<Timed>): seq<Reply>
    decreases |run|
  {
    if run == [] then []
    else
      var step := Lazy(s, run[0].op, run[0].now);
      [step.reply] + LazyReplies(step.store, run[1..])
  }

  function LazyRun(s: Store, run: seq<Timed>): Store
    decreases |run|
  {
    if run == [] then s else LazyRun(Lazy(s, run[0].op, run[0].now).store, run[1..])
  }

  function EagerReplies(s: Store, run: seq<Timed>): seq<Reply>
    decreases |run|
  {
    if run == [] then []
    else
      var step := Eager(s, run[0].op, run[0].now);
      [step.reply] + EagerReplies(step.store, run[1..])
  }

  function EagerRun(s: Store, run: seq<Timed>): Store
    decreases |run|
  {
    if run == [] then s else EagerRun(Eager(s, run[0].op, run[0].now).store, run[1..])
  }

  // ── Lazy expiry cannot be observed ─────────────────────────────────────────

  lemma SweepTwice(s: Store, t1: int, t2: int)
    requires t1 <= t2
    ensures Swept(Swept(s, t1), t2) == Swept(s, t2)
  {
    assert MarkAll(MarkAll(s.byId, t1), t2) == MarkAll(s.byId, t2);
  }

  lemma SweepPut(s: Store, id: string, x: Session, now: int)
    ensures Swept(Put(s, id, x), now) == Put(Swept(s, now), id, Mark(x, now))
  {
    assert MarkAll(s.byId[id := x], now) == MarkAll(s.byId, now)[id := Mark(x, now)];
  }

  lemma SweepKeys(s: Store, now: int)
    ensures Swept(s, now).byId.Keys == s.byId.Keys
    ensures forall id | id in s.byId :: Swept(s, now).byId[id] == Mark(s.byId[id], now)
  {
  }

  /** The lazy step and the eager action on the swept store give one reply and the same effective store. */
  ghost predicate Agree(lazy: Step, eager: Step, now: int) {
    lazy.reply == eager.reply && Swept(lazy.store, now) == Swept(eager.store, now)
  }

  lemma PutMarked(s: Store, id: string, now: int)
    requires id in s.byId
    ensures Put(Swept(s, now), id, Mark(s.byId[id], now)) == Swept(s, now)
  {
    SweepKeys(s, now);
    assert Swept(s, now).byId[id := Mark(s.byId[id], now)] == Swept(s, now).byId;
  }

  /** Writing one session before or after the sweep comes to the same. */
  lemma PutAgrees(s: Store, id: string, x: Session, now: int)
    ensures Swept(Put(s, id, x), now) == Swept(Put(Swept(s, now), id, x), now)
    ensures id in s.byId ==> Swept(Put(s, id, Mark(s.byId[id], now)), now) == Swept(s, now) == Swept(Swept(s, now), now)
    ensures id in s.byId ==> id in Swept(s, now).byId && Swept(s, now).byId[id] == Mark(s.byId[id], now)
  {
    SweepTwice(s, now, now);
    SweepPut(s, id, x, now);
    SweepPut(Swept(s, now), id, x, now);
    if id in s.byId {
      PutMarked(s, id, now);
      SweepPut(s, id, Mark(s.byId[id], now), now);
    }
  }

  /** Publishing commutes with everything that touches only sessions. */
  lemma PublishAgrees(s: Store, s': Store, kind: EventKind, x: Session, y: Session, now: int)
    requires Swept(s, now) == Swept(s', now) && x.id == y.id && x.firmId == y.firmId
    ensures Swept(Publish(s, kind, x), now) == Swept(Publish(s', kind, y), now)
  {
  }

  lemma RedeemAgrees(s: Store, tokenHash: string, now: int)
    ensures Agree(Lazy(s, Redeem(tokenHash), now), Eager(s, Redeem(tokenHash), now), now)
  {
    hide Swept, Put, Publish;
    SweptShape(s, now);
    SweepTwice(s, now, now);
    if tokenHash in s.byToken && s.byToken[tokenHash] in s.byId {
      var id := s.byToken[tokenHash];
      var x := Mark(s.byId[id], now);
      PutAgrees(s, id, x, now);
      PutTwice(s, id, x, ConnectedAt(x, now));
      PutAgrees(s, id, ConnectedAt(x, now), now);
      PublishAgrees(Put(s, id, ConnectedAt(x, now)), Put(Swept(s, now), id, ConnectedAt(x, now)), ConversationConnected,
                    x, x, now);
    }
  }

  lemma SweptShape(s: Store, now: int)
    ensures Swept(s, now).byToken == s.byToken && Swept(s, now).events == s.events
            && Swept(s, now).byId == MarkAll(s.byId, now)
    ensures Swept(s, now).byId.Keys == s.byId.Keys
  {
  }

  lemma PutTwice(s: Store, id: string, x: Session, y: Session)
    ensures Put(Put(s, id, x), id, y) == Put(s, id, y)
  {
  }

  lemma CancelAgrees(s: Store, id: string, hash: string, now: int)
    ensures Agree(Lazy(s, Cancel(id, hash), now), Eager(s, Cancel(id, hash), now), now)
  {
    hide Swept, Put, Publish;
    SweptShape(s, now);
    SweepTwice(s, now, now);
    if id in s.byId {
      var x := Mark(s.byId[id], now);
      PutAgrees(s, id, x, now);
      var y := x.(status := Cancelled, cancelledAtMs := Some(now));
      PutTwice(s, id, x, y);
      PutAgrees(s, id, y, now);
    }
  }

  lemma ReadsAgree(s: Store, op: Op, now: int)
    requires op.StatusByConsole? || op.Get? || op.Size? || op.CountEligible? || op.CountByStatus? || op.ListByStatuses?
    ensures Agree(Lazy(s, op, now), Eager(s, op, now), now)
  {
    hide Swept, Put;
    SweptShape(s, now);
    SweepTwice(s, now, now);
    if (op.StatusByConsole? || op.Get?) && op.id in s.byId {
      PutAgrees(s, op.id, Mark(s.byId[op.id], now), now);
    }
    if op.Size? { assert |s.byId| == |s.byId.Keys| == |Swept(s, now).byId.Keys| == |Swept(s, now).byId|; }
  }

  lemma WritesAgree(s: Store, op: Op, now: int)
    requires op.ApplyOutcome? || op.ClaimSummary? || op.RecordSummary?
    ensures Agree(Lazy(s, op, now), Eager(s, op, now), now)
  {
    hide Swept, Put, Publish;
    SweptShape(s, now);
    SweepTwice(s, now, now);
    var id := op.id;
    if id in s.byId {
      var x, m := s.byId[id], Mark(s.byId[id], now);
      PutAgrees(s, id, x, now);
      match op
      case ApplyOutcome(_, outcome) =>
        var y := x.(status := outcome.status, outcome := Some(outcome), completedAtMs := Some(now));
        PutAgrees(s, id, y, now);
        PublishAgrees(Put(s, id, y), Put(Swept(s, now), id, y), ConversationCompleted(outcome.status), x, m, now);
      case ClaimSummary(_) =>
        MarkedWrite(s, id, Claimed(x, now), Claimed(m, now), now);
      case RecordSummary(_, delivery) =>
        MarkedWrite(s, id, x.(summaryDelivery := Some(delivery)), m.(summaryDelivery := Some(delivery)), now);
    }
  }

  /** A write that leaves status and expiry alone may see the session before or after it expired. */
  lemma MarkedWrite(s: Store, id: string, x: Session, y: Session, now: int)
    requires Mark(x, now) == Mark(y, now)
    ensures Swept(Put(s, id, x), now) == Swept(Put(Swept(s, now), id, y), now)
  {
    SweepTwice(s, now, now);
    SweepPut(s, id, x, now);
    SweepPut(Swept(s, now), id, y, now);
  }

  lemma ConnectAgrees(s: Store, firmId: string, c: Criteria, now: int)
    ensures Agree(Lazy(s, ConnectEligible(firmId, c), now), Eager(s, ConnectEligible(firmId, c), now), now)
  {
    hide Swept, Put, Publish, Candidates, Only;
    SweepTwice(s, now, now);
  }

  lemma CreateAgrees(s: Store, x: Session, cap: Option<int>, now: int)
    ensures Agree(Lazy(s, Create(x, cap), now), Eager(s, Create(x, cap), now), now)
  {
    hide Swept, Insert;
    SweptShape(s, now);
    SweepTwice(s, now, now);
    InsertAgrees(s, x, now);
  }

  lemma InsertAgrees(s: Store, x: Session, now: int)
    ensures Swept(Insert(s, x), now) == Swept(Insert(Swept(s, now), x), now)
  {
    PutAgrees(s, x.id, x, now);
  }

  lemma PurgeAgrees(s: Store, firmId: string, shortCut: int, terminalCut: int, now: int)
    ensures Agree(Lazy(s, Purge(firmId, shortCut, terminalCut), now),
                  Eager(s, Purge(firmId, shortCut, terminalCut), now), now)
  {
    hide ShortLived, LongDone;
    SweptShape(s, now);
    forall id | id in s.byId
      ensures ShortLived(Mark(s.byId[id], now), shortCut) == ShortLived(s.byId[id], shortCut)
      ensures LongDone(Mark(s.byId[id], now), terminalCut) == LongDone(s.byId[id], terminalCut)
    {
      PurgeIgnoresExpiry(s.byId[id], now, shortCut, terminalCut);
    }
    var e := Swept(s, now);
    assert PurgedShort(e.byId, firmId, shortCut) == PurgedShort(s.byId, firmId, shortCut);
    assert PurgedTerminal(e.byId, firmId, terminalCut) == PurgedTerminal(s.byId, firmId, terminalCut);
    var gone := PurgedShort(s.byId, firmId, shortCut) + PurgedTerminal(s.byId, firmId, terminalCut);
    RemovalAgrees(s, gone, now);
  }

  lemma PurgeIgnoresExpiry(x: Session, now: int, shortCut: int, terminalCut: int)
    ensures ShortLived(Mark(x, now), shortCut) == ShortLived(x, shortCut)
    ensures LongDone(Mark(x, now), terminalCut) == LongDone(x, terminalCut)
  {
  }

  lemma RemovalAgrees(s: Store, gone: set<string>, now: int)
    requires gone <= s.byId.Keys
    ensures gone <= Swept(s, now).byId.Keys
    ensures Swept(WithoutSessions(s, gone), now) == Swept(WithoutSessions(Swept(s, now), gone), now)
  {
    SweptShape(s, now);
    var e := Swept(s, now);
    assert forall id | id in gone :: e.byId[id].tokenHash == s.byId[id].tokenHash;
    assert (set id | id in gone :: e.byId[id].tokenHash) == (set id | id in gone :: s.byId[id].tokenHash);
    assert MarkAll(s.byId - gone, now) == MarkAll(MarkAll(s.byId, now) - gone, now);
  }

  lemma EveryOperationAgrees(s: Store, op: Op, now: int)
    ensures Agree(Lazy(s, op, now), Eager(s, op, now), now)
  {
    hide Agree, Lazy, Eager, Act;
    match op
    case Create(x, cap) => CreateAgrees(s, x, cap, now);
    case Redeem(hash) => RedeemAgrees(s, hash, now);
    case Cancel(id, hash) => CancelAgrees(s, id, hash, now);
    case ConnectEligible(firmId, c) => ConnectAgrees(s, firmId, c, now);
    case ApplyOutcome(_, _) => WritesAgree(s, op, now);
    case ClaimSummary(_) => WritesAgree(s, op, now);
    case RecordSummary(_, _) => WritesAgree(s, op, now);
    case Purge(firmId, shortCut, terminalCut) => PurgeAgrees(s, firmId, shortCut, terminalCut, now);
    case _ => ReadsAgree(s, op, now);
  }

  /**
   * Lazy expiry is unobservable: from stores that agree once swept, any clocked run of the lazy store and of the eager
   * machine gives the same replies, and stores that still agree once swept.
   */
  lemma {:induction false} LazyExpiryIsUnobservable(lazy: Store, eager: Store, run: seq<Timed>, since: int)
    requires Clocked(run, since) && Swept(lazy, since) == Swept(eager, since)
    ensures LazyReplies(lazy, run) == EagerReplies(eager, run)
    ensures var end := if run == [] then since else run[|run| - 1].now;
            Swept(LazyRun(lazy, run), end) == Swept(EagerRun(eager, run), end)
    decreases |run|
  {
    hide Lazy, Act, Swept;
    if run != [] {
      var op, now := run[0].op, run[0].now;
      SweepTwice(lazy, since, now);
      SweepTwice(eager, since, now);
      EveryOperationAgrees(lazy, op, now);
      LazyExpiryIsUnobservable(Lazy(lazy, op, now).store, Eager(eager, op, now).store, run[1..], now);
    }
  }
}
