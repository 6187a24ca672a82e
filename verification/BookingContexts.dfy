/**
 * The booking-context store: one row per governed availability offer, a ten-status machine with lazy
 * expiry, a cross-row slot guard and an append-only audit trail.
 *
 * Every operation is atomic up to its first suspension point and changes at most one row, so an
 * operation is specified by a `Decision` (the change it makes, and its reply) and `Commit` carries the
 * change out: it stores the row and appends the one audit record. The class at the end updates its
 * maps in place and is proved equal to this specification.
 */
module BookingContexts {
  import opened Options
  import opened Sequences
  import ConfigValidation

  datatype Status =
    | Offered | InProgress | Booked | Rejected | Expired | VerificationRequired
    | CancellationPending | Cancelled | Rescheduling | Rescheduled

  /** A status that occupies a calendar instant; verification_required is not among them. */
  predicate Occupying(s: Status) {
    s.InProgress? || s.Booked? || s.CancellationPending? || s.Rescheduling?
  }

  /** The statuses no operation leaves. */
  predicate Absorbing(s: Status) {
    s.Rejected? || s.Expired? || s.Cancelled? || s.Rescheduled?
  }

  /**
   * A timestamp text: the instant it parses to (None: it does not parse) and which of the texts of that instant it is.
   * Spelling 0 is the canonical one that `toISOString` writes.
   */
  datatype Stamp = Stamp(ms: Option<int>, spelling: nat)

  function Canonical(ms: int): Stamp {
    Stamp(Some(ms), 0)
  }

  datatype Target = Target(start: Stamp, calendarRef: string)

  /** What a caller passes for an event type: an integer, or something else. */
  datatype EventTypeId = Id(id: int) | NoInteger

  /** The immutable part of a context, as its creator supplies it. */
  datatype Offer = Offer(
    id: string, tokenHash: string, organizationKey: string,
    routeKind: string, attorneyId: Option<string>, routingGroupKey: Option<string>, practiceAreaId: Option<string>,
    eventTypeId: Option<EventTypeId>, durationMinutes: int, offeredSlots: seq<Stamp>,
    providerKey: Option<string>, calendarRef: Option<string>, offeredTargets: Option<seq<Target>>,
    rescheduleOf: Option<string>, createdAtMs: Option<int>, expiresAtMs: int)

  datatype Row = Row(
    offer: Offer, status: Status, calendarRef: Option<string>, selectedStartsAt: Option<int>,
    providerEventId: Option<string>, rejectionReason: Option<string>, updatedAtMs: int)

  /** `Entered(s)` is the record named after the status itself. */
  datatype Action =
    | Created | Claimed | Entered(status: Status)
    | CancellationReverted | RescheduleReverted | VerificationResolved(status: Status)

  datatype Record = Record(
    bookingContextId: string, organizationKey: string, occurredAtMs: int,
    actor: string, action: Action, reason: Option<string>)

  /** `order` is the insertion order in which the row map is iterated. */
  datatype Store = Store(
    rows: map<string, Row>, byHash: map<string, string>, order: seq<string>, audit: seq<Record>)

  const EMPTY := Store(map[], map[], [], [])

  datatype Op =
    | Create(offer: Offer)
    | FindByTokenHash(tokenHash: string, organizationKey: string)
    | Get(id: string)
    | Claim(id: string, startsAtMs: int)
    | Complete(id: string, status: Status, providerEventId: Option<string>, reason: Option<string>, actor: string)
    | ResolveVerification(id: string, status: Status, providerEventId: Option<string>, reason: Option<string>,
                          actor: string)
    | BeginCancellation(id: string, actor: string)
    | CompleteCancellation(id: string, status: Status, reason: Option<string>, actor: string)
    | BeginReschedule(id: string, actor: string)
    | CompleteReschedule(id: string, status: Status, reason: Option<string>, actor: string)
    | FlipStale(id: string, sampledMs: int, staleMs: int)

  datatype Reply = Null | Context(row: Row) | TypeError

  datatype Change = Change(row: Row, action: Action, actor: string, reason: Option<string>)

  /** What an operation does: at most one row changes. */
  datatype Decision = Decision(change: Option<Change>, reply: Reply)

  // ── Route consistency ──────────────────────────────────────────────────────

  datatype RouteProblem =
    | UnknownRouteKind | BadAttorneyRoute | BadRoutingGroupRoute | BadDefaultRoute | BadOfferedSlots
    | BadEventType | NoTarget | NoOfferedTargets | MissingTarget | BadDuration

  predicate Blank(s: string) {
    forall c | c in s :: ConfigValidation.Space(c)
  }

  function ExactTarget(targets: seq<Target>, start: Stamp): Option<Target> {
    if targets == [] then None
    else if targets[0].start == start then Some(targets[0])
    else ExactTarget(targets[1..], start)
  }

  predicate IsNative(o: Offer) {
    o.providerKey.Some? && !Blank(o.providerKey.value)
  }

  predicate TargetsCover(o: Offer)
    requires o.offeredTargets.Some?
  {
    forall s | s in o.offeredSlots ::
      var t := ExactTarget(o.offeredTargets.value, s);
      t.Some? && !Blank(t.value.calendarRef)
  }

  function RouteProblemOf(o: Offer): Option<RouteProblem> {
    if o.routeKind !in {"attorney", "routing-group", "default"} then Some(UnknownRouteKind)
    else if o.routeKind == "attorney" && (!Truthy(o.attorneyId) || Truthy(o.routingGroupKey))
      then Some(BadAttorneyRoute)
    else if o.routeKind == "routing-group"
            && (!Truthy(o.routingGroupKey) || Truthy(o.attorneyId) || !Truthy(o.practiceAreaId))
              then Some(BadRoutingGroupRoute)
    else if o.routeKind == "default" && (Truthy(o.attorneyId) || Truthy(o.routingGroupKey)) then Some(BadDefaultRoute)
    else if o.offeredSlots == [] || (exists s | s in o.offeredSlots :: s.ms.None?) then Some(BadOfferedSlots)
    else if o.eventTypeId.Some? && (o.eventTypeId.value.NoInteger? || o.eventTypeId.value.id <= 0)
      then Some(BadEventType)
    else if o.eventTypeId.None? && !IsNative(o) then Some(NoTarget)
    else if o.eventTypeId.None? && o.offeredTargets.None? then Some(NoOfferedTargets)
    else if o.eventTypeId.None? && !TargetsCover(o) then Some(MissingTarget)
    else if o.durationMinutes <= 0 then Some(BadDuration)
    else None
  }

  // ── Operations ─────────────────────────────────────────────────────────────

  function InstantTarget(targets: seq<Target>, ms: int): Option<Target> {
    if targets == [] then None
    else if targets[0].start.ms == Some(ms) then Some(targets[0])
    else InstantTarget(targets[1..], ms)
  }

  /**
   * The calendar a claim of `ms` binds: the exact offered target, else any target of that instant, else the context's
   * own calendar.
   */
  function BoundCalendar(row: Row, ms: int): Option<string> {
    if row.offer.offeredTargets.None? then row.calendarRef
    else
      var exact := ExactTarget(row.offer.offeredTargets.value, Canonical(ms));
      var target := if exact.Some? then exact else InstantTarget(row.offer.offeredTargets.value, ms);
      if target.Some? then Some(target.value.calendarRef) else row.calendarRef
  }

  /** `other` holds `calendar` at `ms` in `organizationKey`. */
  predicate Holds(other: Row, organizationKey: string, calendar: Option<string>, ms: int) {
    && other.offer.organizationKey == organizationKey
    && other.calendarRef == calendar
    && other.selectedStartsAt == Some(ms)
    && Occupying(other.status)
  }

  predicate GuardRefuses(rows: map<string, Row>, id: string, organizationKey: string, calendar: Option<string>,
                         ms: int) {
    Truthy(calendar) && exists k | k in rows :: k != id && Holds(rows[k], organizationKey, calendar, ms)
  }

  predicate Due(row: Row, now: int) {
    row.status.Offered? && row.offer.expiresAtMs <= now
  }

  function Lapsed(row: Row, now: int): Change {
    Change(row.(status := Expired, updatedAtMs := now), Entered(Expired), "system", None)
  }

  /** A read of a present row: an overdue offer expires on observation. */
  function Observe(row: Row, now: int): Decision {
    if Due(row, now) then Decision(Some(Lapsed(row, now)), Context(Lapsed(row, now).row))
    else Decision(None, Context(row))
  }

  function Fresh(o: Offer, now: int): Row {
    Row(o, Offered, o.calendarRef, None, None, None, if o.createdAtMs.Some? then o.createdAtMs.value else now)
  }

  function Detail(reason: Option<string>): Option<string> {
    if Truthy(reason) then reason else None
  }

  const NOTHING := Decision(None, Null)

  function Moved(row: Row, action: Action, actor: string, reason: Option<string>): Decision {
    Decision(Some(Change(row, action, actor, reason)), Context(row))
  }

  function StaleReason(s: Status): Option<string> {
    match s
    case InProgress => Some("stale_booking_in_progress")
    case CancellationPending => Some("stale_cancellation_pending")
    case Rescheduling => Some("stale_rescheduling")
    case _ => None
  }

  function Decide(s: Store, op: Op, now: int): Decision {
    match op
    case Create(o) =>
      if RouteProblemOf(o).Some? || o.id in s.rows || o.tokenHash in s.byHash then Decision(None, TypeError)
      else Moved(Fresh(o, now), Created, "caller-flow", None)
    case FindByTokenHash(hash, organizationKey) =>
      if hash !in s.byHash || s.byHash[hash] !in s.rows then NOTHING
      else if s.rows[s.byHash[hash]].offer.organizationKey != organizationKey then NOTHING
      else Observe(s.rows[s.byHash[hash]], now)
    case Get(id) =>
      if id !in s.rows then NOTHING else Observe(s.rows[id], now)
    case Claim(id, ms) =>
      if id !in s.rows then NOTHING
      else if Due(s.rows[id], now) then Decision(Some(Lapsed(s.rows[id], now)), Null)
      else if !s.rows[id].status.Offered? then NOTHING
      else
        var calendar := BoundCalendar(s.rows[id], ms);
        if GuardRefuses(s.rows, id, s.rows[id].offer.organizationKey, calendar, ms) then NOTHING
        else Moved(s.rows[id].(status := InProgress, selectedStartsAt := Some(ms), calendarRef := calendar,
                               updatedAtMs := now),
                   Claimed, "caller-flow", None)
    case Complete(id, status, eventId, reason, actor) =>
      if !(status.Booked? || status.Rejected? || status.VerificationRequired?) then Decision(None, TypeError)
      else if id !in s.rows || !s.rows[id].status.InProgress? then NOTHING
      else Moved(s.rows[id].(status := status, providerEventId := eventId, rejectionReason := reason,
                             updatedAtMs := now),
                 Entered(status), actor, Detail(reason))
    case ResolveVerification(id, status, eventId, reason, actor) =>
      if !(status.Booked? || status.Rejected? || status.Cancelled? || status.Rescheduled?)
        then Decision(None, TypeError)
      else if id !in s.rows || !s.rows[id].status.VerificationRequired? then NOTHING
      else Moved(s.rows[id].(status := status, rejectionReason := reason, updatedAtMs := now,
                             providerEventId := if eventId.Some? then eventId else s.rows[id].providerEventId),
                 VerificationResolved(status), actor, Detail(reason))
    case BeginCancellation(id, actor) =>
      if id !in s.rows || !s.rows[id].status.Booked? then NOTHING
      else Moved(s.rows[id].(status := CancellationPending, updatedAtMs := now), Entered(CancellationPending), actor,
                 None)
    case CompleteCancellation(id, status, reason, actor) =>
      if !(status.Cancelled? || status.VerificationRequired? || status.Booked?) then Decision(None, TypeError)
      else if id !in s.rows || !s.rows[id].status.CancellationPending? then NOTHING
      else Moved(s.rows[id].(status := status, rejectionReason := reason, updatedAtMs := now),
                 if status.Booked? then CancellationReverted else Entered(status), actor, Detail(reason))
    case BeginReschedule(id, actor) =>
      if id !in s.rows || !s.rows[id].status.Booked? then NOTHING
      else Moved(s.rows[id].(status := Rescheduling, updatedAtMs := now), Entered(Rescheduling), actor, None)
    case CompleteReschedule(id, status, reason, actor) =>
      if !(status.Rescheduled? || status.VerificationRequired? || status.Booked?) then Decision(None, TypeError)
      else if id !in s.rows || !s.rows[id].status.Rescheduling? then NOTHING
      else Moved(s.rows[id].(status := status, rejectionReason := reason, updatedAtMs := now),
                 if status.Booked? then RescheduleReverted else Entered(status), actor, Detail(reason))
    case FlipStale(id, sampled, staleMs) =>
      if id !in s.rows then NOTHING
      else
        var reason := StaleReason(s.rows[id].status);
        if reason.Some? && s.rows[id].updatedAtMs <= sampled - staleMs
        then Moved(s.rows[id].(status := VerificationRequired, rejectionReason := reason, updatedAtMs := sampled),
                   Entered(VerificationRequired), "reconciler", reason)
        else NOTHING
  }

  function Commit(s: Store, change: Option<Change>, now: int): Store {
    match change
    case None => s
    case Some(c) =>
      var id := c.row.offer.id;
      Store(s.rows[id := c.row],
            if c.action.Created? then s.byHash[c.row.offer.tokenHash := id] else s.byHash,
            if c.action.Created? then s.order + [id] else s.order,
            s.audit + [Record(id, c.row.offer.organizationKey, now, c.actor, c.action, c.reason)])
  }

  function Apply(s: Store, op: Op, now: int): Store {
    Commit(s, Decide(s, op, now).change, now)
  }

  // ── Runs ───────────────────────────────────────────────────────────────────

  datatype Timed = Timed(op: Op, now: int)

  function Run(s: Store, run: seq<Timed>): Store
    decreases |run|
  {
    if run == [] then s else Run(Apply(s, run[0].op, run[0].now), run[1..])
  }

  /** Rows are stored under their own id, and the hash index names exactly the rows. */
  ghost predicate Indexed(rows: map<string, Row>, byHash: map<string, string>) {
    && (forall id | id in rows :: rows[id].offer.id == id
                                  && rows[id].offer.tokenHash in byHash && byHash[rows[id].offer.tokenHash] == id)
    && (forall h | h in byHash :: byHash[h] in rows && rows[byHash[h]].offer.tokenHash == h)
  }

  /** `order` lists each row once. */
  ghost predicate Listed(rows: map<string, Row>, order: seq<string>) {
    && (forall id :: id in rows <==> id in order)
    && (forall i, j | 0 <= i < j < |order| :: order[i] != order[j])
  }

  ghost predicate Wellformed(s: Store) {
    Indexed(s.rows, s.byHash) && Listed(s.rows, s.order)
  }

  /** The state the audit trail says a context is in. */
  datatype Traced = Absent | At(status: Status) | Broken

  /** The transition table: what one audit record does to the traced state. */
  function Next(from: Traced, action: Action): Traced {
    match action
    case Created => if from.Absent? then At(Offered) else Broken
    case Claimed => if from == At(Offered) then At(InProgress) else Broken
    case Entered(Expired) => if from == At(Offered) then At(Expired) else Broken
    case Entered(Booked) => if from == At(InProgress) then At(Booked) else Broken
    case Entered(Rejected) => if from == At(InProgress) then At(Rejected) else Broken
    case Entered(VerificationRequired) =>
      if from in {At(InProgress), At(CancellationPending), At(Rescheduling)} then At(VerificationRequired) else Broken
    case Entered(CancellationPending) => if from == At(Booked) then At(CancellationPending) else Broken
    case Entered(Cancelled) => if from == At(CancellationPending) then At(Cancelled) else Broken
    case Entered(Rescheduling) => if from == At(Booked) then At(Rescheduling) else Broken
    case Entered(Rescheduled) => if from == At(Rescheduling) then At(Rescheduled) else Broken
    case Entered(_) => Broken
    case CancellationReverted => if from == At(CancellationPending) then At(Booked) else Broken
    case RescheduleReverted => if from == At(Rescheduling) then At(Booked) else Broken
    case VerificationResolved(status) =>
      if from == At(VerificationRequired)
         && (status.Booked? || status.Rejected? || status.Cancelled? || status.Rescheduled?)
      then At(status) else Broken
  }

  /** The audit records of one context, oldest first. */
  function History(audit: seq<Record>, id: string): seq<Action> {
    if audit == [] then []
    else
      var last := audit[|audit| - 1];
      History(audit[..|audit| - 1], id) + (if last.bookingContextId == id then [last.action] else [])
  }

  function Replay(actions: seq<Action>): Traced {
    if actions == [] then Absent else Next(Replay(actions[..|actions| - 1]), actions[|actions| - 1])
  }

  function TracedStatus(s: Store, id: string): Traced {
    if id in s.rows then At(s.rows[id].status) else Absent
  }

  /** The selected start is null exactly while the context is offered or expired. */
  predicate SelectionShape(row: Row) {
    row.selectedStartsAt.None? <==> row.status.Offered? || row.status.Expired?
  }

  ghost predicate Faithful(s: Store) {
    && Wellformed(s)
    && (forall id :: Replay(History(s.audit, id)) == TracedStatus(s, id))
    && (forall id | id in s.rows :: SelectionShape(s.rows[id]))
  }

  /**
   * What any change an operation makes looks like: a fresh offer, or one table step of one present row that keeps the
   * offer, and writes the selection and calendar only when claiming.
   */
  ghost predicate LegalChange(s: Store, c: Change) {
    var id := c.row.offer.id;
    && Next(TracedStatus(s, id), c.action) == At(c.row.status)
    && SelectionShape(c.row)
    && (id in s.rows <==> !c.action.Created?)
    && (c.action.Created? ==> c.row.offer.tokenHash !in s.byHash)
    && (id in s.rows ==>
          && c.row.offer == s.rows[id].offer
          && (!c.action.Claimed? ==> c.row.selectedStartsAt == s.rows[id].selectedStartsAt
                                     && c.row.calendarRef == s.rows[id].calendarRef))
  }

  lemma DecisionsAreLegal(s: Store, op: Op, now: int)
    requires Wellformed(s)
    requires forall id | id in s.rows :: SelectionShape(s.rows[id])
    ensures Decide(s, op, now).change.Some? ==> LegalChange(s, Decide(s, op, now).change.value)
  {
    hide RouteProblemOf, BoundCalendar, GuardRefuses;
  }

  lemma HistoryAppend(audit: seq<Record>, r: Record, id: string)
    ensures History(audit + [r], id) == History(audit, id) + (if r.bookingContextId == id then [r.action] else [])
  {
    assert (audit + [r])[..|audit|] == audit;
  }

  lemma ReplayAppend(actions: seq<Action>, a: Action)
    ensures Replay(actions + [a]) == Next(Replay(actions), a)
  {
    assert (actions + [a])[..|actions|] == actions;
  }

  lemma CommitIsIndexed(rows: map<string, Row>, byHash: map<string, string>, row: Row)
    requires Indexed(rows, byHash)
    ensures row.offer.id in rows && row.offer == rows[row.offer.id].offer ==> Indexed(rows[row.offer.id := row], byHash)
    ensures row.offer.id !in rows && row.offer.tokenHash !in byHash ==>
              Indexed(rows[row.offer.id := row], byHash[row.offer.tokenHash := row.offer.id])
  {
  }

  lemma CommitIsListed(rows: map<string, Row>, order: seq<string>, row: Row)
    requires Listed(rows, order)
    ensures row.offer.id in rows ==> Listed(rows[row.offer.id := row], order)
    ensures row.offer.id !in rows ==> Listed(rows[row.offer.id := row], order + [row.offer.id])
  {
  }

  lemma CommitIsWellformed(s: Store, c: Change, now: int)
    requires Wellformed(s)
    requires c.row.offer.id in s.rows <==> !c.action.Created?
    requires c.action.Created? ==> c.row.offer.tokenHash !in s.byHash
    requires c.row.offer.id in s.rows ==> c.row.offer == s.rows[c.row.offer.id].offer
    ensures Wellformed(Commit(s, Some(c), now))
  {
    CommitIsIndexed(s.rows, s.byHash, c.row);
    CommitIsListed(s.rows, s.order, c.row);
  }

  lemma CommitIsFaithful(s: Store, c: Change, now: int, id: string)
    requires Faithful(s) && LegalChange(s, c)
    ensures var s' := Commit(s, Some(c), now);
            && Replay(History(s'.audit, id)) == TracedStatus(s', id)
            && |History(s'.audit, id)| - |History(s.audit, id)|
                 == if TracedStatus(s', id) != TracedStatus(s, id) then 1 else 0
  {
    var s' := Commit(s, Some(c), now);
    HistoryAppend(s.audit, s'.audit[|s.audit|], id);
    if id == c.row.offer.id {
      ReplayAppend(History(s.audit, id), c.action);
    } else {
      assert History(s.audit, id) + [] == History(s.audit, id);
    }
  }

  /** One step keeps replay and state in agreement, with one record exactly for the context that moved. */
  lemma StepIsFaithful(s: Store, op: Op, now: int)
    requires Faithful(s)
    ensures Faithful(Apply(s, op, now))
    ensures forall id :: |History(Apply(s, op, now).audit, id)| - |History(s.audit, id)|
                         == if TracedStatus(Apply(s, op, now), id) != TracedStatus(s, id) then 1 else 0
  {
    DecisionsAreLegal(s, op, now);
    var change := Decide(s, op, now).change;
    if change.Some? {
      LegalStepIsFaithful(s, change.value, now);
    }
  }

  /** The same, for callers that only carry the invariant along. */
  lemma StepKeepsFaithful(s: Store, op: Op, now: int)
    requires Faithful(s)
    ensures Faithful(Apply(s, op, now))
  {
    StepIsFaithful(s, op, now);
  }

  lemma LegalStepIsFaithful(s: Store, c: Change, now: int)
    requires Faithful(s) && LegalChange(s, c)
    ensures Faithful(Commit(s, Some(c), now))
    ensures forall id :: |History(Commit(s, Some(c), now).audit, id)| - |History(s.audit, id)|
                         == if TracedStatus(Commit(s, Some(c), now), id) != TracedStatus(s, id) then 1 else 0
  {
    CommitIsWellformed(s, c, now);
    forall id { CommitIsFaithful(s, c, now, id); }
  }

  /** In every run the audit trail replays to the current status of every context. */
  lemma {:induction false} AuditReplayEqualsState(s: Store, run: seq<Timed>)
    requires Faithful(s)
    ensures Faithful(Run(s, run))
    decreases |run|
  {
    if run != [] {
      StepIsFaithful(s, run[0].op, run[0].now);
      AuditReplayEqualsState(Apply(s, run[0].op, run[0].now), run[1..]);
    }
  }

  lemma EmptyIsFaithful()
    ensures Faithful(EMPTY)
  {
  }

  function Claims(actions: seq<Action>): nat {
    if actions == [] then 0 else Claims(actions[..|actions| - 1]) + if actions[|actions| - 1].Claimed? then 1 else 0
  }

  /** A trail that follows the table holds at most one claim, and none while offered or expired. */
  lemma {:induction false} TableClaimsOnce(actions: seq<Action>)
    requires !Replay(actions).Broken?
    ensures Claims(actions) == if Replay(actions) in {Absent, At(Offered), At(Expired)} then 0 else 1
  {
    if actions != [] {
      TableClaimsOnce(actions[..|actions| - 1]);
    }
  }

  /** From an empty store, every run claims each context at most once: once exactly when it has left the offer. */
  lemma ClaimedAtMostOnce(run: seq<Timed>, id: string)
    ensures var s := Run(EMPTY, run);
            Claims(History(s.audit, id))
            == if id in s.rows && !s.rows[id].status.Offered? && !s.rows[id].status.Expired? then 1 else 0
  {
    EmptyIsFaithful();
    AuditReplayEqualsState(EMPTY, run);
    TableClaimsOnce(History(Run(EMPTY, run).audit, id));
  }

  lemma StepKeepsWhatIsSettled(s: Store, op: Op, now: int, id: string)
    requires Faithful(s) && id in s.rows
    ensures id in Apply(s, op, now).rows && Apply(s, op, now).rows[id].offer == s.rows[id].offer
    ensures s.rows[id].selectedStartsAt.Some? ==>
              && Apply(s, op, now).rows[id].selectedStartsAt == s.rows[id].selectedStartsAt
              && Apply(s, op, now).rows[id].calendarRef == s.rows[id].calendarRef
    ensures Absorbing(s.rows[id].status) ==> Apply(s, op, now).rows[id] == s.rows[id]
  {
    DecisionsAreLegal(s, op, now);
    var change := Decide(s, op, now).change;
    if change.Some? && change.value.row.offer.id == id {
      LegalChangesMoveOn(s, change.value);
    }
  }

  lemma LegalChangesMoveOn(s: Store, c: Change)
    requires LegalChange(s, c) && c.row.offer.id in s.rows && SelectionShape(s.rows[c.row.offer.id])
    ensures !Absorbing(s.rows[c.row.offer.id].status)
    ensures c.action.Claimed? ==> s.rows[c.row.offer.id].selectedStartsAt.None?
  {
  }

  /**
   * Once present a context stays; its offer and a selected start never change; an absorbing row never changes again.
   */
  lemma {:induction false} RunsKeepWhatIsSettled(s: Store, run: seq<Timed>, id: string)
    requires Faithful(s) && id in s.rows
    ensures id in Run(s, run).rows && Run(s, run).rows[id].offer == s.rows[id].offer
    ensures s.rows[id].selectedStartsAt.Some? ==>
              && Run(s, run).rows[id].selectedStartsAt == s.rows[id].selectedStartsAt
              && Run(s, run).rows[id].calendarRef == s.rows[id].calendarRef
    ensures s.rows[id].status in {Rejected, Expired, Cancelled, Rescheduled} ==> Run(s, run).rows[id] == s.rows[id]
    decreases |run|
  {
    if run != [] {
      StepKeepsWhatIsSettled(s, run[0].op, run[0].now, id);
      StepIsFaithful(s, run[0].op, run[0].now);
      RunsKeepWhatIsSettled(Apply(s, run[0].op, run[0].now), run[1..], id);
    }
  }

  // ── Slot guard ─────────────────────────────────────────────────────────────

  /** Two rows occupy one calendar instant of one organization. */
  predicate Collide(a: Row, b: Row) {
    && Occupying(a.status) && Occupying(b.status)
    && a.offer.organizationKey == b.offer.organizationKey
    && Truthy(a.calendarRef) && a.calendarRef == b.calendarRef
    && a.selectedStartsAt.Some? && a.selectedStartsAt == b.selectedStartsAt
  }

  ghost predicate SlotGuard(s: Store) {
    forall i, j | i in s.rows && j in s.rows && i != j :: !Collide(s.rows[i], s.rows[j])
  }

  /** No other row occupies the instant this row had selected: what a caller could check before resolving. */
  predicate SlotFree(s: Store, id: string)
    requires id in s.rows
  {
    var r := s.rows[id];
    !(r.selectedStartsAt.Some?
      && GuardRefuses(s.rows, id, r.offer.organizationKey, r.calendarRef, r.selectedStartsAt.value))
  }

  /** The operation puts an unverified context back on the calendar. */
  predicate Reinstates(s: Store, op: Op) {
    op.ResolveVerification? && op.status.Booked? && op.id in s.rows && s.rows[op.id].status.VerificationRequired?
  }

  /** What every guarded change brings: the changed row occupies no instant another row holds. */
  ghost predicate LandsFree(s: Store, c: Change) {
    forall k | k in s.rows && k != c.row.offer.id :: !Collide(s.rows[k], c.row)
  }

  lemma GuardAfterChange(s: Store, c: Change, now: int)
    requires SlotGuard(s)
    ensures SlotGuard(Commit(s, Some(c), now)) <==> LandsFree(s, c)
  {
    var s' := Commit(s, Some(c), now);
    var id := c.row.offer.id;
    assert s'.rows[id] == c.row;
    assert forall k | k in s.rows && k != id :: s'.rows[k] == s.rows[k];
    if SlotGuard(s') {
      forall k | k in s.rows && k != id ensures !Collide(s.rows[k], c.row) {
        assert !Collide(s'.rows[k], s'.rows[id]);
      }
    }
  }

  lemma OrdinaryChangesLandFree(s: Store, op: Op, now: int)
    requires Faithful(s) && SlotGuard(s) && !Reinstates(s, op) && Decide(s, op, now).change.Some?
    ensures LandsFree(s, Decide(s, op, now).change.value)
  {
    DecisionsAreLegal(s, op, now);
    var c := Decide(s, op, now).change.value;
    var id := c.row.offer.id;
    forall k | k in s.rows && k != id ensures !Collide(s.rows[k], c.row) {
      if id in s.rows && Occupying(s.rows[id].status) {
        assert !Collide(s.rows[k], s.rows[id]);
      } else if op.Claim? {
        assert c.row.selectedStartsAt.Some? ==>
                 !GuardRefuses(s.rows, id, c.row.offer.organizationKey, c.row.calendarRef, op.startsAtMs);
      }
    }
  }

  /** The guard survives a step exactly when the step is not a reinstatement into an occupied slot. */
  lemma SlotGuardStep(s: Store, op: Op, now: int)
    requires Faithful(s) && SlotGuard(s)
    ensures SlotGuard(Apply(s, op, now)) <==> (Reinstates(s, op) ==> SlotFree(s, op.id))
  {
    var change := Decide(s, op, now).change;
    if change.Some? {
      GuardAfterChange(s, change.value, now);
      if Reinstates(s, op) {
        ReinstatementLandsFree(s, op, now);
      } else {
        OrdinaryChangesLandFree(s, op, now);
      }
    }
  }

  lemma ReinstatementLandsFree(s: Store, op: Op, now: int)
    requires Faithful(s) && SlotGuard(s) && Reinstates(s, op)
    ensures LandsFree(s, Decide(s, op, now).change.value) <==> SlotFree(s, op.id)
  {
    var r := s.rows[op.id];
    var c := Decide(s, op, now).change.value;
    forall k | k in s.rows
      ensures Collide(s.rows[k], c.row)
              <==> (Truthy(r.calendarRef)
                    && Holds(s.rows[k], r.offer.organizationKey, r.calendarRef, r.selectedStartsAt.value))
    {
    }
  }

  /** Every reinstatement in the run finds its slot free. */
  ghost predicate Reverified(s: Store, run: seq<Timed>)
    decreases |run|
  {
    run == []
    || ((Reinstates(s, run[0].op) ==> SlotFree(s, run[0].op.id))
        && Reverified(Apply(s, run[0].op, run[0].now), run[1..]))
  }

  /** Over a whole run the guard holds after every step exactly when every reinstatement found its slot free. */
  lemma {:induction false} SlotGuardOverRuns(s: Store, run: seq<Timed>)
    requires Faithful(s) && SlotGuard(s)
    ensures Reverified(s, run) <==> forall n | 0 <= n <= |run| :: SlotGuard(Run(s, run[..n]))
    decreases |run|
  {
    if run == [] {
      assert run[..0] == [];
    } else {
      var s' := Apply(s, run[0].op, run[0].now);
      StepIsFaithful(s, run[0].op, run[0].now);
      SlotGuardStep(s, run[0].op, run[0].now);
      forall n | 0 < n <= |run| ensures Run(s, run[..n]) == Run(s', run[1..][..n - 1]) {
        assert run[..n][0] == run[0] && run[..n][1..] == run[1..][..n - 1];
      }
      assert Run(s, run[..1]) == s' by { assert run[1..][..0] == []; }
      if SlotGuard(s') {
        SlotGuardOverRuns(s', run[1..]);
        if Reverified(s, run) {
          forall n | 0 <= n <= |run| ensures SlotGuard(Run(s, run[..n])) {
            if n == 0 { assert run[..0] == []; }
          }
        } else {
          var m :| 0 <= m <= |run[1..]| && !SlotGuard(Run(s', run[1..][..m]));
          assert !SlotGuard(Run(s, run[..m + 1]));
        }
      }
    }
  }

  // ── Which calendar a claim binds ───────────────────────────────────────────

  /** The first target offered under exactly this text of the start. */
  ghost predicate FirstExact(targets: seq<Target>, start: Stamp, i: int) {
    0 <= i < |targets| && targets[i].start == start && forall j | 0 <= j < i :: targets[j].start != start
  }

  /** The first target offered under any text of that instant. */
  ghost predicate FirstInstant(targets: seq<Target>, ms: int, i: int) {
    0 <= i < |targets| && targets[i].start.ms == Some(ms) && forall j | 0 <= j < i :: targets[j].start.ms != Some(ms)
  }

  /** An offer's target for a start: the exact one, or else the first of that instant. */
  ghost predicate Names(o: Offer, ms: int, calendar: string) {
    && o.offeredTargets.Some?
    && var targets := o.offeredTargets.value;
       || (exists i :: FirstExact(targets, Stamp(Some(ms), 0), i) && targets[i].calendarRef == calendar)
       || ((forall i :: !FirstExact(targets, Stamp(Some(ms), 0), i))
           && exists i :: FirstInstant(targets, ms, i) && targets[i].calendarRef == calendar)
  }

  /** The calendar of the named target; the context's own only if no target has that instant. */
  ghost predicate Binds(o: Offer, own: Option<string>, ms: int, calendar: Option<string>) {
    if exists named :: Names(o, ms, named) then calendar.Some? && Names(o, ms, calendar.value) else calendar == own
  }

  lemma {:induction false} ExactIsFirst(targets: seq<Target>, start: Stamp)
    ensures ExactTarget(targets, start).None? ==> forall i :: !FirstExact(targets, start, i)
    ensures ExactTarget(targets, start).Some? ==>
              exists i :: FirstExact(targets, start, i) && targets[i] == ExactTarget(targets, start).value
  {
    if targets != [] {
      var rest := targets[1..];
      ExactIsFirst(rest, start);
      if targets[0].start == start {
        assert FirstExact(targets, start, 0);
      } else {
        forall i ensures FirstExact(targets, start, i) ==> i > 0 && FirstExact(rest, start, i - 1) {
          if FirstExact(targets, start, i) {
            forall j | 0 <= j < i - 1 ensures rest[j].start != start { assert rest[j] == targets[j + 1]; }
          }
        }
        if i :| FirstExact(rest, start, i) && ExactTarget(rest, start) == Some(rest[i]) {
          assert FirstExact(targets, start, i + 1) && targets[i + 1] == rest[i];
        }
      }
    }
  }

  lemma {:induction false} InstantIsFirst(targets: seq<Target>, ms: int)
    ensures InstantTarget(targets, ms).None? ==> forall i :: !FirstInstant(targets, ms, i)
    ensures InstantTarget(targets, ms).Some? ==>
              exists i :: FirstInstant(targets, ms, i) && targets[i] == InstantTarget(targets, ms).value
  {
    if targets != [] {
      var rest := targets[1..];
      InstantIsFirst(rest, ms);
      if targets[0].start.ms == Some(ms) {
        assert FirstInstant(targets, ms, 0);
      } else {
        forall i ensures FirstInstant(targets, ms, i) ==> i > 0 && FirstInstant(rest, ms, i - 1) {
          if FirstInstant(targets, ms, i) {
            forall j | 0 <= j < i - 1 ensures rest[j].start.ms != Some(ms) { assert rest[j] == targets[j + 1]; }
          }
        }
        if i :| FirstInstant(rest, ms, i) && InstantTarget(rest, ms) == Some(rest[i]) {
          assert FirstInstant(targets, ms, i + 1) && targets[i + 1] == rest[i];
        }
      }
    }
  }

  lemma BoundAsNamed(row: Row, ms: int)
    ensures Binds(row.offer, row.calendarRef, ms, BoundCalendar(row, ms))
  {
    hide ExactTarget, InstantTarget, FirstExact, FirstInstant;
    if row.offer.offeredTargets.Some? {
      ExactIsFirst(row.offer.offeredTargets.value, Canonical(ms));
      InstantIsFirst(row.offer.offeredTargets.value, ms);
    }
  }

  lemma NamedOnce(o: Offer, ms: int, a: string, b: string)
    requires Names(o, ms, a) && Names(o, ms, b)
    ensures a == b
  {
    hide FirstExact, FirstInstant;
    FirstIsOne(o.offeredTargets.value, ms);
  }

  lemma FirstIsOne(targets: seq<Target>, ms: int)
    ensures forall start, i, j | FirstExact(targets, start, i) && FirstExact(targets, start, j) :: i == j
    ensures forall i, j | FirstInstant(targets, ms, i) && FirstInstant(targets, ms, j) :: i == j
  {
  }

  /** Another context of the organization that is using this calendar at this start. */
  ghost predicate Busy(s: Store, id: string, calendar: string, ms: int)
    requires id in s.rows
  {
    exists k :: k in s.rows && k != id && s.rows[k].offer.organizationKey == s.rows[id].offer.organizationKey
                && s.rows[k].calendarRef == Some(calendar) && s.rows[k].selectedStartsAt == Some(ms)
                && (s.rows[k].status.InProgress? || s.rows[k].status.Booked? || s.rows[k].status.CancellationPending?
                    || s.rows[k].status.Rescheduling?)
  }

  /**
   * A claim is granted exactly to an offered context that has not expired and whose target's calendar nobody else of
   * the organization is using at that start; it then holds that start and that calendar.
   */
  lemma ClaimIsGrantedExactlyWhen(s: Store, id: string, ms: int, now: int, calendar: Option<string>)
    requires Wellformed(s) && id in s.rows && Binds(s.rows[id].offer, s.rows[id].calendarRef, ms, calendar)
    ensures Decide(s, Claim(id, ms), now).reply.Context?
            <==> s.rows[id].status.Offered? && now < s.rows[id].offer.expiresAtMs
                 && (calendar.None? || calendar.value == "" || !Busy(s, id, calendar.value, ms))
    ensures Decide(s, Claim(id, ms), now).reply.Context? ==>
              Apply(s, Claim(id, ms), now).rows[id]
              == s.rows[id].(status := InProgress, selectedStartsAt := Some(ms), calendarRef := calendar,
                             updatedAtMs := now)
  {
    hide BoundCalendar, Names;
    BoundAsNamed(s.rows[id], ms);
    if exists named :: Names(s.rows[id].offer, ms, named) {
      NamedOnce(s.rows[id].offer, ms, calendar.value, BoundCalendar(s.rows[id], ms).value);
    }
    assert BoundCalendar(s.rows[id], ms) == calendar;
  }

  /** A context's calendar is the one its offer names for the start it selected, or its offer's own. */
  ghost predicate AsOffered(row: Row) {
    if row.selectedStartsAt.None? then row.calendarRef == row.offer.calendarRef
    else Binds(row.offer, row.offer.calendarRef, row.selectedStartsAt.value, row.calendarRef)
  }

  ghost predicate AllAsOffered(s: Store) {
    forall id | id in s.rows :: AsOffered(s.rows[id])
  }

  lemma StepBindsAsOffered(s: Store, op: Op, now: int)
    requires Faithful(s) && AllAsOffered(s)
    ensures AllAsOffered(Apply(s, op, now))
  {
    hide RouteProblemOf, BoundCalendar, GuardRefuses, Binds, Replay, History, TracedStatus;
    KeyedRows(s);
    if op.Claim? && op.id in s.rows && s.rows[op.id].status.Offered? {
      BoundAsNamed(s.rows[op.id], op.startsAtMs);
    }
  }

  lemma {:induction false} RunBindsAsOffered(s: Store, run: seq<Timed>)
    requires Faithful(s) && AllAsOffered(s)
    ensures Faithful(Run(s, run)) && AllAsOffered(Run(s, run))
    decreases |run|
  {
    hide Apply, Faithful, AllAsOffered;
    if run != [] {
      StepIsFaithful(s, run[0].op, run[0].now);
      StepBindsAsOffered(s, run[0].op, run[0].now);
      RunBindsAsOffered(Apply(s, run[0].op, run[0].now), run[1..]);
    }
  }

  /** A target is offered under the very text of the slot, and its calendar is not blank. */
  ghost predicate Covered(targets: seq<Target>, slot: Stamp) {
    exists i :: FirstExact(targets, slot, i) && exists c :: c in targets[i].calendarRef && !ConfigValidation.Space(c)
  }

  /**
   * A consistent context: its kind's own keys and no other's, at least one readable slot, and either a positive event
   * type, or a provider and a calendar for every slot.
   */
  ghost predicate WellRouted(o: Offer) {
    var attorney := o.attorneyId.Some? && o.attorneyId.value != "";
    var grouped := o.routingGroupKey.Some? && o.routingGroupKey.value != "";
    && (|| (o.routeKind == "attorney" && attorney && !grouped)
        || (o.routeKind == "routing-group" && grouped && !attorney
            && o.practiceAreaId.Some? && o.practiceAreaId.value != "")
        || (o.routeKind == "default" && !attorney && !grouped))
    && |o.offeredSlots| >= 1 && (forall i | 0 <= i < |o.offeredSlots| :: o.offeredSlots[i].ms.Some?)
    && (if o.eventTypeId.Some? then o.eventTypeId.value.Id? && o.eventTypeId.value.id >= 1
        else
          && o.providerKey.Some? && (exists c :: c in o.providerKey.value && !ConfigValidation.Space(c))
          && o.offeredTargets.Some?
          && forall i | 0 <= i < |o.offeredSlots| :: Covered(o.offeredTargets.value, o.offeredSlots[i]))
    && o.durationMinutes >= 1
  }

  lemma CoveredExactly(o: Offer)
    requires o.offeredTargets.Some?
    ensures TargetsCover(o) <==> forall i | 0 <= i < |o.offeredSlots| ::
              Covered(o.offeredTargets.value, o.offeredSlots[i])
  {
    hide ExactTarget, FirstExact;
    var targets := o.offeredTargets.value;
    forall i | 0 <= i < |o.offeredSlots|
      ensures Covered(targets, o.offeredSlots[i])
              <==> var t := ExactTarget(targets, o.offeredSlots[i]); t.Some? && !Blank(t.value.calendarRef)
    {
      ExactIsFirst(targets, o.offeredSlots[i]);
      FirstIsOne(targets, 0);
    }
  }

  lemma WellRoutedExactly(o: Offer)
    ensures RouteProblemOf(o).None? <==> WellRouted(o)
  {
    hide TargetsCover, Covered;
    if o.offeredTargets.Some? { CoveredExactly(o); }
    if exists s | s in o.offeredSlots :: s.ms.None? {
      var s :| s in o.offeredSlots && s.ms.None?;
      var i :| 0 <= i < |o.offeredSlots| && o.offeredSlots[i] == s;
    }
  }

  /** The problem a refusal names is one the offer has. */
  lemma NamedProblemIsThere(o: Offer)
    requires RouteProblemOf(o).Some?
    ensures match RouteProblemOf(o).value
            case UnknownRouteKind =>
              o.routeKind != "attorney" && o.routeKind != "routing-group" && o.routeKind != "default"
            case BadAttorneyRoute => o.routeKind == "attorney" && (!Truthy(o.attorneyId) || Truthy(o.routingGroupKey))
            case BadRoutingGroupRoute =>
              o.routeKind == "routing-group"
              && (!Truthy(o.routingGroupKey) || Truthy(o.attorneyId) || !Truthy(o.practiceAreaId))
            case BadDefaultRoute => o.routeKind == "default" && (Truthy(o.attorneyId) || Truthy(o.routingGroupKey))
            case BadOfferedSlots => o.offeredSlots == [] || exists s | s in o.offeredSlots :: s.ms.None?
            case BadEventType => o.eventTypeId.Some? && !(o.eventTypeId.value.Id? && o.eventTypeId.value.id >= 1)
            case NoTarget =>
              o.eventTypeId.None?
              && (o.providerKey.None? || forall c | c in o.providerKey.value :: ConfigValidation.Space(c))
            case NoOfferedTargets => o.eventTypeId.None? && o.offeredTargets.None?
            case MissingTarget =>
              o.eventTypeId.None? && o.offeredTargets.Some?
              && exists i :: 0 <= i < |o.offeredSlots| && !Covered(o.offeredTargets.value, o.offeredSlots[i])
            case BadDuration => o.durationMinutes < 1
  {
    hide TargetsCover, Covered;
    if o.offeredTargets.Some? { CoveredExactly(o); }
  }

  /** An offer is stored exactly if it is consistent and neither its id nor its token is taken, and as it was made. */
  lemma OfferIsStoredExactlyWhen(s: Store, o: Offer, now: int)
    requires Faithful(s)
    ensures var s' := Apply(s, Create(o), now);
            if WellRouted(o) && o.id !in s.rows && o.tokenHash !in s.byHash then
              && Decide(s, Create(o), now).reply.Context?
              && s'.rows == s.rows[o.id := Row(o, Offered, o.calendarRef, None, None, None,
                                               if o.createdAtMs.Some? then o.createdAtMs.value else now)]
              && s'.byHash == s.byHash[o.tokenHash := o.id] && s'.order == s.order + [o.id]
            else s' == s && Decide(s, Create(o), now).reply == TypeError
  {
    hide RouteProblemOf, WellRouted;
    WellRoutedExactly(o);
  }

  lemma {:induction false} StoredOffersAreWellRouted(s: Store, run: seq<Timed>)
    requires Faithful(s) && forall id | id in s.rows :: WellRouted(s.rows[id].offer)
    ensures forall id | id in Run(s, run).rows :: WellRouted(Run(s, run).rows[id].offer)
    decreases |run|
  {
    hide Apply, Faithful, WellRouted;
    if run != [] {
      StepIsFaithful(s, run[0].op, run[0].now);
      StepStaysWellRouted(s, run[0].op, run[0].now);
      StoredOffersAreWellRouted(Apply(s, run[0].op, run[0].now), run[1..]);
    }
  }

  lemma StepStaysWellRouted(s: Store, op: Op, now: int)
    requires Faithful(s) && forall id | id in s.rows :: WellRouted(s.rows[id].offer)
    ensures forall id | id in Apply(s, op, now).rows :: WellRouted(Apply(s, op, now).rows[id].offer)
  {
    hide RouteProblemOf, WellRouted, BoundCalendar, GuardRefuses, Replay, History, TracedStatus;
    KeyedRows(s);
    if op.Create? { WellRoutedExactly(op.offer); }
  }

  /** An operation that ends a pending state records who ended it, when, and the reason given, unless it is empty. */
  lemma EndingsAreRecorded(s: Store, op: Op, now: int)
    requires Faithful(s)
    requires op.Complete? || op.ResolveVerification? || op.CompleteCancellation? || op.CompleteReschedule?
    requires Decide(s, op, now).reply.Context?
    ensures var s' := Apply(s, op, now);
            && op.id in s'.rows && s'.rows[op.id].status == op.status && s'.rows[op.id].rejectionReason == op.reason
            && |s'.audit| == |s.audit| + 1
            && var entry := s'.audit[|s.audit|];
               && entry.bookingContextId == op.id && entry.organizationKey == s.rows[op.id].offer.organizationKey
               && entry.actor == op.actor && entry.occurredAtMs == now
               && entry.reason == if op.reason == Some("") then None else op.reason
  {
    hide Faithful, Decide;
    KeyedRows(s);
    EndingChange(s, op, now);
  }

  lemma EndingChange(s: Store, op: Op, now: int)
    requires op.Complete? || op.ResolveVerification? || op.CompleteCancellation? || op.CompleteReschedule?
    requires Decide(s, op, now).reply.Context?
    ensures var change := Decide(s, op, now).change;
            && op.id in s.rows && change.Some? && change.value.row.offer == s.rows[op.id].offer
            && change.value.row.status == op.status && change.value.row.rejectionReason == op.reason
            && change.value.actor == op.actor
            && change.value.reason == if op.reason == Some("") then None else op.reason
  {
  }

  /**
   * Over every run whose resolutions to booked found their slots free, two contexts of one organization whose offers
   * name the same calendar for the start both selected are never both in progress, booked or being moved.
   */
  lemma OneTargetOneContext(run: seq<Timed>, a: string, b: string, ms: int, calendar: string)
    requires Reverified(EMPTY, run) && a != b && calendar != ""
    requires var rows := Run(EMPTY, run).rows;
             && a in rows && b in rows && rows[a].offer.organizationKey == rows[b].offer.organizationKey
             && rows[a].selectedStartsAt == Some(ms) && rows[b].selectedStartsAt == Some(ms)
             && Names(rows[a].offer, ms, calendar) && Names(rows[b].offer, ms, calendar)
    ensures var rows := Run(EMPTY, run).rows;
            && rows[a].calendarRef == Some(calendar) && rows[b].calendarRef == Some(calendar)
            && !((rows[a].status.InProgress? || rows[a].status.Booked? || rows[a].status.CancellationPending?
                  || rows[a].status.Rescheduling?)
                 && (rows[b].status.InProgress? || rows[b].status.Booked? || rows[b].status.CancellationPending?
                     || rows[b].status.Rescheduling?))
  {
    hide Run, Faithful, Names, Reverified;
    EmptyIsFaithful();
    RunBindsAsOffered(EMPTY, run);
    SlotGuardOverRuns(EMPTY, run);
    assert run[..|run|] == run;
    var s := Run(EMPTY, run);
    assert SlotGuard(s);
    assert AsOffered(s.rows[a]) && AsOffered(s.rows[b]);
    NamedOnce(s.rows[a].offer, ms, calendar, s.rows[a].calendarRef.value);
    NamedOnce(s.rows[b].offer, ms, calendar, s.rows[b].calendarRef.value);
    assert !Collide(s.rows[a], s.rows[b]);
  }

  /** Two contexts of one organization whose offers bind the same calendar at `ms`. */
  predicate Rivals(a: Offer, b: Offer, ms: int, now: int) {
    && RouteProblemOf(a).None? && RouteProblemOf(b).None?
    && a.id != b.id && a.tokenHash != b.tokenHash && a.organizationKey == b.organizationKey
    && now < a.expiresAtMs && now < b.expiresAtMs
    && Truthy(BoundCalendar(Fresh(a, now), ms)) && BoundCalendar(Fresh(a, now), ms) == BoundCalendar(Fresh(b, now), ms)
  }

  /**
   * The run that double-books: the first context becomes ambiguous, a second books its slot, and the first is then
   * resolved to booked, which no guard checks.
   */
  function DoubleBooking(a: Offer, b: Offer, ms: int): seq<Op> {
    [Create(a), Claim(a.id, ms), Complete(a.id, VerificationRequired, None, None, "caller-flow"),
     Create(b), Claim(b.id, ms), Complete(b.id, Booked, None, None, "caller-flow"),
     ResolveVerification(a.id, Booked, None, None, "reconciler")]
  }

  function AllAt(ops: seq<Op>, now: int): seq<Timed> {
    seq(|ops|, i requires 0 <= i < |ops| => Timed(ops[i], now))
  }

  lemma OfferedFresh(s: Store, o: Offer, now: int)
    requires RouteProblemOf(o).None? && o.id !in s.rows && o.tokenHash !in s.byHash
    ensures var t := Apply(s, Create(o), now);
            && t.rows == s.rows[o.id := Fresh(o, now)] && t.byHash == s.byHash[o.tokenHash := o.id]
            && t.order == s.order + [o.id]
  {
    hide RouteProblemOf;
  }

  lemma FreshFacts(o: Offer, now: int)
    ensures Fresh(o, now).offer == o
  {
  }

  lemma GuardIgnoresOwnRow(rows: map<string, Row>, o: Offer, calendar: Option<string>, ms: int, x: Row)
    ensures GuardRefuses(rows[o.id := x], o.id, o.organizationKey, calendar, ms)
              == GuardRefuses(rows, o.id, o.organizationKey, calendar, ms)
  {
    hide Holds;
    if GuardRefuses(rows, o.id, o.organizationKey, calendar, ms) {
      var k :| k in rows && k != o.id && Holds(rows[k], o.organizationKey, calendar, ms);
      assert rows[o.id := x][k] == rows[k];
    }
  }

  lemma ClaimedFree(s: Store, o: Offer, ms: int, now: int)
    requires o.id in s.rows && s.rows[o.id] == Fresh(o, now) && now < o.expiresAtMs
    requires !GuardRefuses(s.rows, o.id, o.organizationKey, BoundCalendar(Fresh(o, now), ms), ms)
    ensures var t := Apply(s, Claim(o.id, ms), now);
            && t.rows == s.rows[o.id := Row(o, InProgress, BoundCalendar(Fresh(o, now), ms), Some(ms), None, None, now)]
            && t.byHash == s.byHash && t.order == s.order
  {
    hide GuardRefuses, BoundCalendar;
  }

  lemma CompletedTo(s: Store, x: Row, status: Status, reason: Option<string>, now: int)
    requires x.offer.id in s.rows && s.rows[x.offer.id] == x && x.status.InProgress?
             && (status.Booked? || status.VerificationRequired?)
    ensures var t := Apply(s, Complete(x.offer.id, status, None, reason, "caller-flow"), now);
            && t.rows == s.rows[x.offer.id := x.(status := status, providerEventId := None, rejectionReason := reason,
                                                 updatedAtMs := now)]
            && t.byHash == s.byHash && t.order == s.order
  {
  }

  /** Creating, claiming and completing one context, when nothing stands in its way. */
  lemma BookedOnce(s: Store, o: Offer, ms: int, status: Status, reason: Option<string>, now: int)
    requires RouteProblemOf(o).None? && o.id !in s.rows && o.tokenHash !in s.byHash && now < o.expiresAtMs
    requires !GuardRefuses(s.rows, o.id, o.organizationKey, BoundCalendar(Fresh(o, now), ms), ms)
    requires status.Booked? || status.VerificationRequired?
    ensures var s' :=
              Apply(Apply(Apply(s, Create(o), now), Claim(o.id, ms), now),
                    Complete(o.id, status, None, reason, "caller-flow"), now);
            && s'.rows == s.rows[o.id := Row(o, status, BoundCalendar(Fresh(o, now), ms), Some(ms), None, reason, now)]
            && s'.byHash == s.byHash[o.tokenHash := o.id] && s'.order == s.order + [o.id]
  {
    hide RouteProblemOf, Fresh, BoundCalendar, Decide, Commit, Apply, GuardRefuses;
    FreshFacts(o, now);
    var created := Apply(s, Create(o), now);
    OfferedFresh(s, o, now);
    GuardIgnoresOwnRow(s.rows, o, BoundCalendar(Fresh(o, now), ms), ms, Fresh(o, now));
    ClaimedFree(created, o, ms, now);
    var claimed := Apply(created, Claim(o.id, ms), now);
    CompletedTo(claimed, claimed.rows[o.id], status, reason, now);
  }

  lemma ResolvedToBooked(s: Store, id: string, now: int)
    requires id in s.rows && s.rows[id].status.VerificationRequired? && s.rows[id].offer.id == id
    ensures Apply(s, ResolveVerification(id, Booked, None, None, "reconciler"), now).rows
            == s.rows[id := s.rows[id].(status := Booked, rejectionReason := None, updatedAtMs := now)]
  {
  }

  /** The slot guard is not an invariant of all runs: every pair of rivals can be double-booked. */
  lemma ResolutionCanDoubleBook(a: Offer, b: Offer, ms: int, now: int)
    requires Rivals(a, b, ms, now)
    ensures !SlotGuard(Run(EMPTY, AllAt(DoubleBooking(a, b, ms), now)))
  {
    hide Decide, Commit, Apply, RouteProblemOf, Fresh, BoundCalendar, Run, AllAt;
    var ops := DoubleBooking(a, b, ms);
    BookedOnce(EMPTY, a, ms, VerificationRequired, None, now);
    var s1 := Apply(EMPTY, ops[0], now);
    var s2 := Apply(s1, ops[1], now);
    var s3 := Apply(s2, ops[2], now);
    BookedOnce(s3, b, ms, Booked, None, now);
    var s4 := Apply(s3, ops[3], now);
    var s5 := Apply(s4, ops[4], now);
    var s6 := Apply(s5, ops[5], now);
    var s7 := Apply(s6, ops[6], now);
    ResolvedToBooked(s6, a.id, now);
    assert Collide(s7.rows[a.id], s7.rows[b.id]);
    RunUnfolds(ops, now, [EMPTY, s1, s2, s3, s4, s5, s6, s7]);
  }

  /** A run at one instant, unfolded along the states it visits. */
  lemma {:induction false} RunUnfolds(ops: seq<Op>, now: int, states: seq<Store>)
    requires |states| == |ops| + 1 && forall i | 0 <= i < |ops| :: states[i + 1] == Apply(states[i], ops[i], now)
    ensures Run(states[0], AllAt(ops, now)) == states[|ops|]
  {
    if ops != [] {
      assert AllAt(ops, now)[1..] == AllAt(ops[1..], now);
      RunUnfolds(ops[1..], now, states[1..]);
    }
  }

  // ── Stale recovery and listing ─────────────────────────────────────────────

  predicate Stale(row: Row, now: int, staleMs: int) {
    StaleReason(row.status).Some? && row.updatedAtMs <= now - staleMs
  }

  /** The recovery pass over a list of contexts, uninterrupted. */
  function StalePass(s: Store, ids: seq<string>, now: int, staleMs: int): Store {
    if ids == [] then s
    else Apply(StalePass(s, ids[..|ids| - 1], now, staleMs), FlipStale(ids[|ids| - 1], now, staleMs), now)
  }

  lemma StaleStart(s: Store, now: int, staleMs: int)
    ensures StalePass(s, s.order[..0], now, staleMs) == s && FlippedRows(s.rows, s.order[..0], now, staleMs) == []
  {
  }

  lemma StaleNext(s: Store, i: nat, now: int, staleMs: int)
    requires i < |s.order|
    ensures StalePass(s, s.order[..i + 1], now, staleMs)
            == Apply(StalePass(s, s.order[..i], now, staleMs), FlipStale(s.order[i], now, staleMs), now)
    ensures FlippedRows(s.rows, s.order[..i + 1], now, staleMs)
            == FlippedRows(s.rows, s.order[..i], now, staleMs)
               + if s.order[i] in s.rows && Stale(s.rows[s.order[i]], now, staleMs)
                 then [Flipped(s.rows[s.order[i]], now)] else []
  {
    hide Apply;
    assert s.order[..i + 1][..i] == s.order[..i];
  }

  lemma FlipEffect(s: Store, id: string, staleMs: int, now: int)
    requires id in s.rows && s.rows[id].offer.id == id
    ensures var s' := Apply(s, FlipStale(id, now, staleMs), now);
            && s'.rows == s.rows[id := if Stale(s.rows[id], now, staleMs) then Flipped(s.rows[id], now) else s.rows[id]]
            && s'.order == s.order && s'.byHash == s.byHash
  {
    assert s.rows[id := s.rows[id]] == s.rows;
  }

  function Flipped(row: Row, now: int): Row {
    row.(status := VerificationRequired, rejectionReason := StaleReason(row.status), updatedAtMs := now)
  }

  /** What the pass reports: the stale contexts of the list, as it leaves them. */
  function FlippedRows(rows: map<string, Row>, ids: seq<string>, now: int, staleMs: int): seq<Row> {
    if ids == [] then []
    else
      var id := ids[|ids| - 1];
      FlippedRows(rows, ids[..|ids| - 1], now, staleMs)
      + if id in rows && Stale(rows[id], now, staleMs) then [Flipped(rows[id], now)] else []
  }

  /**
   * The pass turns exactly the stale listed contexts over to verification, naming what each was doing, and touches
   * nothing else.
   */
  lemma {:induction false} StalePassFlipsExactlyTheStale(s: Store, ids: seq<string>, now: int, staleMs: int)
    requires Distinct(ids) && forall id | id in s.rows :: s.rows[id].offer.id == id
    ensures var s' := StalePass(s, ids, now, staleMs);
            && s'.rows.Keys == s.rows.Keys && s'.order == s.order && s'.byHash == s.byHash
            && forall id | id in s.rows ::
                 s'.rows[id] == if id in ids && Stale(s.rows[id], now, staleMs) then Flipped(s.rows[id], now)
                   else s.rows[id]
  {
    if ids != [] {
      var n := |ids| - 1;
      StalePassFlipsExactlyTheStale(s, ids[..n], now, staleMs);
      var id := ids[n];
      var before := StalePass(s, ids[..n], now, staleMs);
      if id in s.rows { FlipEffect(before, id, staleMs, now); }
      assert id !in ids[..n];
      assert ids == ids[..n] + [id];
    }
  }

  /** Insertion into a list ordered by update time; an equal element stays behind the newcomer. */
  function Insert(rows: map<string, Row>, id: string, sorted: seq<string>): seq<string>
    requires id in rows && forall k | k in sorted :: k in rows
  {
    if sorted == [] || rows[id].updatedAtMs <= rows[sorted[0]].updatedAtMs then [id] + sorted
    else [sorted[0]] + Insert(rows, id, sorted[1..])
  }

  predicate Listable(row: Row, status: Status, organizationKey: Option<string>) {
    row.status == status && (organizationKey.None? || row.offer.organizationKey == organizationKey.value)
  }

  /** The listed contexts of `ids` in one status, oldest update first. */
  function OldestFirst(rows: map<string, Row>, ids: seq<string>, status: Status,
                       organizationKey: Option<string>): (sorted: seq<string>)
    requires forall k | k in ids :: k in rows
    ensures forall k :: k in sorted <==> k in ids && Listable(rows[k], status, organizationKey)
  {
    if ids == [] then []
    else
      var rest := OldestFirst(rows, ids[1..], status, organizationKey);
      assert forall k | k in ids[1..] :: k in ids;
      if Listable(rows[ids[0]], status, organizationKey) then
        InsertMembers(rows, ids[0], rest);
        Insert(rows, ids[0], rest)
      else rest
  }

  lemma InsertMembers(rows: map<string, Row>, id: string, sorted: seq<string>)
    requires id in rows && forall k | k in sorted :: k in rows
    ensures forall k :: k in Insert(rows, id, sorted) <==> k == id || k in sorted
  {
    if sorted != [] {
      assert forall k :: k in sorted <==> k == sorted[0] || k in sorted[1..];
      if !(rows[id].updatedAtMs <= rows[sorted[0]].updatedAtMs) { InsertMembers(rows, id, sorted[1..]); }
    }
  }

  predicate Sorted(rows: map<string, Row>, ids: seq<string>)
    requires forall k | k in ids :: k in rows
  {
    forall i, j | 0 <= i < j < |ids| :: rows[ids[i]].updatedAtMs <= rows[ids[j]].updatedAtMs
  }

  lemma {:induction false} InsertKeepsOrder(rows: map<string, Row>, id: string, sorted: seq<string>)
    requires id in rows && (forall k | k in sorted :: k in rows) && Sorted(rows, sorted) && Distinct(sorted)
             && id !in sorted
    ensures forall k :: k in Insert(rows, id, sorted) <==> k == id || k in sorted
    ensures Sorted(rows, Insert(rows, id, sorted)) && Distinct(Insert(rows, id, sorted))
  {
    InsertMembers(rows, id, sorted);
    if sorted != [] && !(rows[id].updatedAtMs <= rows[sorted[0]].updatedAtMs) {
      var rest := sorted[1..];
      assert sorted[0] !in rest;
      InsertKeepsOrder(rows, id, rest);
      InsertMembers(rows, id, rest);
      var inserted := Insert(rows, id, rest);
      assert forall k | k in rest :: rows[sorted[0]].updatedAtMs <= rows[k].updatedAtMs;
      assert forall j | 0 <= j < |inserted| :: inserted[j] == id || inserted[j] in rest;
    } else if sorted != [] {
      assert forall k | k in sorted :: rows[sorted[0]].updatedAtMs <= rows[k].updatedAtMs;
    }
  }

  /** The listing holds each context in the status once, ordered by how long ago it was updated. */
  lemma {:induction false} OldestFirstIsAnOrderedListing(rows: map<string, Row>, ids: seq<string>, status: Status,
                                                         org: Option<string>)
    requires (forall k | k in ids :: k in rows) && Distinct(ids)
    ensures var listed := OldestFirst(rows, ids, status, org);
            && (forall i, j | 0 <= i < j < |listed| :: rows[listed[i]].updatedAtMs <= rows[listed[j]].updatedAtMs)
            && (forall i, j | 0 <= i < j < |listed| :: listed[i] != listed[j])
            && (forall k :: k in listed <==>
                  k in ids && rows[k].status == status
                  && (org.None? || rows[k].offer.organizationKey == org.value))
  {
    if ids != [] {
      assert ids[0] !in ids[1..];
      OldestFirstIsAnOrderedListing(rows, ids[1..], status, org);
      if Listable(rows[ids[0]], status, org) {
        InsertKeepsOrder(rows, ids[0], OldestFirst(rows, ids[1..], status, org));
      }
    }
  }

  lemma {:induction false} ListingIsNoLonger(rows: map<string, Row>, ids: seq<string>, status: Status,
                                             org: Option<string>)
    requires forall k | k in ids :: k in rows
    ensures |OldestFirst(rows, ids, status, org)| <= |ids|
  {
    if ids != [] {
      ListingIsNoLonger(rows, ids[1..], status, org);
      InsertLength(rows, ids[0], OldestFirst(rows, ids[1..], status, org));
    }
  }

  lemma InsertLength(rows: map<string, Row>, id: string, sorted: seq<string>)
    requires id in rows && forall k | k in sorted :: k in rows
    ensures |Insert(rows, id, sorted)| == |sorted| + 1
  {
  }

  /** Contexts last updated in the order they were offered are listed in that order, ties included. */
  lemma {:induction false} ListedAsOffered(rows: map<string, Row>, ids: seq<string>, status: Status,
                                           org: Option<string>)
    requires forall k | k in ids :: k in rows && Listable(rows[k], status, org)
    requires Sorted(rows, ids)
    ensures OldestFirst(rows, ids, status, org) == ids
  {
    if ids != [] {
      assert forall i | 0 <= i < |ids[1..]| :: ids[1..][i] == ids[i + 1];
      ListedAsOffered(rows, ids[1..], status, org);
      assert ids == [ids[0]] + ids[1..];
    }
  }

  lemma KeyedRows(s: Store)
    requires Faithful(s)
    ensures forall id | id in s.rows :: s.rows[id].offer.id == id
    ensures forall h | h in s.byHash :: s.byHash[h] in s.rows
  {
  }

  lemma KeysInOrder(s: Store)
    requires Faithful(s)
    ensures forall i | 0 <= i < |s.order| :: s.order[i] in s.rows && s.rows[s.order[i]].offer.id == s.order[i]
    ensures Distinct(s.order) && forall id :: id in s.rows <==> id in s.order
  {
    forall i | 0 <= i < |s.order| ensures s.order[i] in s.rows { assert s.order[i] in s.order; }
  }

  // ── The store ──────────────────────────────────────────────────────────────

  class BookingContextStore {
    var byId: map<string, Row>
    var byHash: map<string, string>
    var order: seq<string>
    var audit: seq<Record>

    ghost function State(): Store
      reads this
    {
      Store(byId, byHash, order, audit)
    }

    ghost predicate Valid()
      reads this
    {
      Faithful(State())
    }

    constructor ()
      ensures Valid() && State() == EMPTY
    {
      byId, byHash, order, audit := map[], map[], [], [];
    }

    method EmitAudit(action: Action, row: Row, actor: string, reason: Option<string>, now: int)
      modifies this`audit
      ensures audit == old(audit) + [Record(row.offer.id, row.offer.organizationKey, now, actor, action, reason)]
    {
      audit := audit + [Record(row.offer.id, row.offer.organizationKey, now, actor, action, reason)];
    }

    method ExpireIfDue(id: string, now: int)
      requires Valid() && id in byId
      modifies this
      ensures Valid() && State() == Commit(old(State()), Observe(old(byId[id]), now).change, now)
    {
      hide Faithful;
      KeyedRows(State());
      ghost var before := State();
      var row := byId[id];
      if row.status.Offered? && row.offer.expiresAtMs <= now {
        row := row.(status := Expired, updatedAtMs := now);
        byId := byId[id := row];
        EmitAudit(Entered(Expired), row, "system", None, now);
      }
      StepKeepsFaithful(before, Op.Get(id), now);
    }

    method Create(offer: Offer, now: int) returns (reply: Reply)
      requires Valid()
      modifies this
      ensures Valid() && State() == Apply(old(State()), Op.Create(offer), now)
      ensures reply == Decide(old(State()), Op.Create(offer), now).reply
    {
      hide Faithful;
      KeyedRows(State());
      ghost var before := State();
      StepKeepsFaithful(before, Op.Create(offer), now);
      if RouteProblemOf(offer).Some? { return TypeError; }
      if offer.id in byId || offer.tokenHash in byHash { return TypeError; }
      var row := Row(offer, Offered, offer.calendarRef, None, None, None,
                     if offer.createdAtMs.Some? then offer.createdAtMs.value else now);
      byId := byId[offer.id := row];
      order := order + [offer.id];
      byHash := byHash[offer.tokenHash := offer.id];
      EmitAudit(Created, row, "caller-flow", None, now);
      reply := Context(row);
    }

    method FindByTokenHash(tokenHash: string, organizationKey: string, now: int) returns (reply: Reply)
      requires Valid()
      modifies this
      ensures Valid() && State() == Apply(old(State()), Op.FindByTokenHash(tokenHash, organizationKey), now)
      ensures reply == Decide(old(State()), Op.FindByTokenHash(tokenHash, organizationKey), now).reply
    {
      hide Faithful;
      KeyedRows(State());
      if tokenHash !in byHash { return Null; }
      var id := byHash[tokenHash];
      if byId[id].offer.organizationKey != organizationKey { return Null; }
      ExpireIfDue(id, now);
      reply := Context(byId[id]);
    }

    method Get(id: string, now: int) returns (reply: Reply)
      requires Valid()
      modifies this
      ensures Valid() && State() == Apply(old(State()), Op.Get(id), now)
      ensures reply == Decide(old(State()), Op.Get(id), now).reply
    {
      hide Faithful;
      KeyedRows(State());
      if id !in byId { return Null; }
      ExpireIfDue(id, now);
      reply := Context(byId[id]);
    }

    /** The guard scan of a claim: whether another row holds the calendar at that instant. */
    method SlotTaken(id: string, organizationKey: string, calendar: Option<string>, ms: int) returns (taken: bool)
      requires Valid() && Truthy(calendar)
      ensures taken == GuardRefuses(byId, id, organizationKey, calendar, ms)
    {
      hide Faithful;
      KeyedRows(State());
      KeysInOrder(State());
      taken := false;
      var i := 0;
      while i < |order|
        invariant 0 <= i <= |order|
        invariant forall j | 0 <= j < i :: order[j] == id || !Holds(byId[order[j]], organizationKey, calendar, ms)
      {
        assert order[i] in order;
        if order[i] != id && Holds(byId[order[i]], organizationKey, calendar, ms) {
          return true;
        }
        i := i + 1;
      }
    }

    method Claim(id: string, startsAtMs: int, now: int) returns (reply: Reply)
      requires Valid()
      modifies this
      ensures Valid() && State() == Apply(old(State()), Op.Claim(id, startsAtMs), now)
      ensures reply == Decide(old(State()), Op.Claim(id, startsAtMs), now).reply
    {
      hide Faithful;
      KeyedRows(State());
      ghost var before := State();
      StepKeepsFaithful(before, Op.Claim(id, startsAtMs), now);
      if id !in byId { return Null; }
      ExpireIfDue(id, now);
      var row := byId[id];
      if !row.status.Offered? { return Null; }
      assert !Due(row, now) && State() == before;
      var calendar := BoundCalendar(row, startsAtMs);
      if Truthy(calendar) {
        var taken := SlotTaken(id, row.offer.organizationKey, calendar, startsAtMs);
        if taken { return Null; }
      }
      row := row.(status := InProgress, selectedStartsAt := Some(startsAtMs), calendarRef := calendar,
                  updatedAtMs := now);
      byId := byId[id := row];
      EmitAudit(Claimed, row, "caller-flow", None, now);
      reply := Context(row);
    }

    method Complete(id: string, status: Status, providerEventId: Option<string>, reason: Option<string>, actor: string,
                    now: int)
      returns (reply: Reply)
      requires Valid()
      modifies this
      ensures Valid() && State() == Apply(old(State()), Op.Complete(id, status, providerEventId, reason, actor), now)
      ensures reply == Decide(old(State()), Op.Complete(id, status, providerEventId, reason, actor), now).reply
    {
      hide Faithful;
      KeyedRows(State());
      StepKeepsFaithful(State(), Op.Complete(id, status, providerEventId, reason, actor), now);
      if status !in {Booked, Rejected, VerificationRequired} { return TypeError; }
      if id !in byId || !byId[id].status.InProgress? { return Null; }
      var row := byId[id].(status := status, providerEventId := providerEventId, rejectionReason := reason,
                           updatedAtMs := now);
      byId := byId[id := row];
      EmitAudit(Entered(status), row, actor, Detail(reason), now);
      reply := Context(row);
    }

    method ResolveVerification(id: string, status: Status, providerEventId: Option<string>, reason: Option<string>,
                               actor: string, now: int)
      returns (reply: Reply)
      requires Valid()
      modifies this
      ensures Valid()
              && State() == Apply(old(State()), Op.ResolveVerification(id, status, providerEventId, reason, actor), now)
      ensures reply
                == Decide(old(State()), Op.ResolveVerification(id, status, providerEventId, reason, actor), now).reply
    {
      hide Faithful;
      KeyedRows(State());
      StepKeepsFaithful(State(), Op.ResolveVerification(id, status, providerEventId, reason, actor), now);
      if status !in {Booked, Rejected, Cancelled, Rescheduled} { return TypeError; }
      if id !in byId || !byId[id].status.VerificationRequired? { return Null; }
      var row := byId[id].(status := status);
      if providerEventId.Some? { row := row.(providerEventId := providerEventId); }
      row := row.(rejectionReason := reason, updatedAtMs := now);
      byId := byId[id := row];
      EmitAudit(VerificationResolved(status), row, actor, Detail(reason), now);
      reply := Context(row);
    }

    method BeginCancellation(id: string, actor: string, now: int) returns (reply: Reply)
      requires Valid()
      modifies this
      ensures Valid() && State() == Apply(old(State()), Op.BeginCancellation(id, actor), now)
      ensures reply == Decide(old(State()), Op.BeginCancellation(id, actor), now).reply
    {
      hide Faithful;
      KeyedRows(State());
      StepKeepsFaithful(State(), Op.BeginCancellation(id, actor), now);
      if id !in byId || !byId[id].status.Booked? { return Null; }
      var row := byId[id].(status := CancellationPending, updatedAtMs := now);
      byId := byId[id := row];
      EmitAudit(Entered(CancellationPending), row, actor, None, now);
      reply := Context(row);
    }

    method CompleteCancellation(id: string, status: Status, reason: Option<string>, actor: string, now: int)
      returns (reply: Reply)
      requires Valid()
      modifies this
      ensures Valid() && State() == Apply(old(State()), Op.CompleteCancellation(id, status, reason, actor), now)
      ensures reply == Decide(old(State()), Op.CompleteCancellation(id, status, reason, actor), now).reply
    {
      hide Faithful;
      KeyedRows(State());
      StepKeepsFaithful(State(), Op.CompleteCancellation(id, status, reason, actor), now);
      if status !in {Cancelled, VerificationRequired, Booked} { return TypeError; }
      if id !in byId || !byId[id].status.CancellationPending? { return Null; }
      var row := byId[id].(status := status, rejectionReason := reason, updatedAtMs := now);
      byId := byId[id := row];
      EmitAudit(if status.Booked? then CancellationReverted else Entered(status), row, actor, Detail(reason), now);
      reply := Context(row);
    }

    method BeginReschedule(id: string, actor: string, now: int) returns (reply: Reply)
      requires Valid()
      modifies this
      ensures Valid() && State() == Apply(old(State()), Op.BeginReschedule(id, actor), now)
      ensures reply == Decide(old(State()), Op.BeginReschedule(id, actor), now).reply
    {
      hide Faithful;
      KeyedRows(State());
      StepKeepsFaithful(State(), Op.BeginReschedule(id, actor), now);
      if id !in byId || !byId[id].status.Booked? { return Null; }
      var row := byId[id].(status := Rescheduling, updatedAtMs := now);
      byId := byId[id := row];
      EmitAudit(Entered(Rescheduling), row, actor, None, now);
      reply := Context(row);
    }

    method CompleteReschedule(id: string, status: Status, reason: Option<string>, actor: string, now: int)
      returns (reply: Reply)
      requires Valid()
      modifies this
      ensures Valid() && State() == Apply(old(State()), Op.CompleteReschedule(id, status, reason, actor), now)
      ensures reply == Decide(old(State()), Op.CompleteReschedule(id, status, reason, actor), now).reply
    {
      hide Faithful;
      KeyedRows(State());
      StepKeepsFaithful(State(), Op.CompleteReschedule(id, status, reason, actor), now);
      if status !in {Rescheduled, VerificationRequired, Booked} { return TypeError; }
      if id !in byId || !byId[id].status.Rescheduling? { return Null; }
      var row := byId[id].(status := status, rejectionReason := reason, updatedAtMs := now);
      byId := byId[id := row];
      EmitAudit(if status.Booked? then RescheduleReverted else Entered(status), row, actor, Detail(reason), now);
      reply := Context(row);
    }

    /** One uninterrupted stale pass; `flipped` lists what it turned over, in iteration order. */
    method ReconcileStale(staleMs: int, now: int) returns (flipped: seq<Row>)
      requires Valid()
      modifies this
      ensures Valid() && State() == StalePass(old(State()), old(order), now, staleMs)
      ensures flipped == FlippedRows(old(byId), old(order), now, staleMs)
    {
      hide Decide, Commit, Apply, Faithful, Flipped, Stale, StalePass, FlippedRows;
      flipped := [];
      ghost var before := State();
      KeysInOrder(before);
      StaleStart(before, now, staleMs);
      var i := 0;
      while i < |order|
        invariant Valid() && 0 <= i <= |order| && order == before.order
        invariant forall j | 0 <= j < |order| :: order[j] in byId
        invariant State() == StalePass(before, before.order[..i], now, staleMs)
        invariant forall j | i <= j < |order| :: byId[order[j]] == before.rows[order[j]]
        invariant flipped == FlippedRows(before.rows, before.order[..i], now, staleMs)
      {
        KeyedRows(State());
        StaleNext(before, i, now, staleMs);
        var row := byId[order[i]];
        FlipEffect(State(), order[i], staleMs, now);
        Flip(order[i], staleMs, now);
        if Stale(row, now, staleMs) {
          flipped := flipped + [byId[order[i]]];
        }
        i := i + 1;
      }
      assert before.order[..|order|] == before.order;
      assert State() == StalePass(old(State()), old(order), now, staleMs);
    }

    /** One round of the stale pass. */
    method Flip(id: string, staleMs: int, now: int)
      requires Valid() && id in byId
      modifies this
      ensures Valid() && State() == Apply(old(State()), FlipStale(id, now, staleMs), now)
    {
      hide Faithful;
      KeyedRows(State());
      StepKeepsFaithful(State(), FlipStale(id, now, staleMs), now);
      var reason := StaleReason(byId[id].status);
      if reason.Some? && byId[id].updatedAtMs <= now - staleMs {
        var row := byId[id].(status := VerificationRequired, rejectionReason := reason, updatedAtMs := now);
        byId := byId[id := row];
        EmitAudit(Entered(VerificationRequired), row, "reconciler", reason, now);
      }
    }

    method ListByStatus(status: Status, organizationKey: Option<string>, limit: nat) returns (ids: seq<string>)
      requires Valid()
      ensures var all := OldestFirst(byId, order, status, organizationKey);
              ids == if |all| <= limit then all else all[..limit]
    {
      hide Faithful;
      KeyedRows(State());
      KeysInOrder(State());
      var sorted := [];
      var i := |order|;
      while i > 0
        invariant 0 <= i <= |order|
        invariant sorted == OldestFirst(byId, order[i..], status, organizationKey)
      {
        i := i - 1;
        assert order[i..][1..] == order[i + 1..];
        if Listable(byId[order[i]], status, organizationKey) {
          sorted := Insert(byId, order[i], sorted);
        }
      }
      assert order[0..] == order;
      ids := if |sorted| <= limit then sorted else sorted[..limit];
    }
  }
}
