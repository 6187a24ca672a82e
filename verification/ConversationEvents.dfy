/**
 * The durable event log of the handoff store: what a run publishes about a session, against what the
 * run's replies say happened to it.
 */
module ConversationEvents {
  import opened Options
  import opened HandoffSessions

  /**
   * What a caller who saw every reply knows: the sessions and tokens ever created, who was ever redeemed, and who ever
   * completed, with the reported status.
   */
  datatype Ledger = Ledger(ids: set<string>, tokens: set<string>, redeemed: set<string>,
                           completed: map<string, SessionStatus>)

  const NOTHING := Ledger({}, {}, {}, map[])

  function Note(l: Ledger, op: Op, reply: Reply): Ledger {
    match (op, reply)
    case (Create(x, _), One(_)) => l.(ids := l.ids + {x.id}, tokens := l.tokens + {x.tokenHash})
    case (Redeem(_), One(x)) => l.(redeemed := l.redeemed + {x.id})
    case (ConnectEligible(_, _), One(x)) => l.(redeemed := l.redeemed + {x.id})
    case (ApplyOutcome(_, outcome), Applied(x, false)) => l.(completed := l.completed[x.id := outcome.status])
    case _ => l
  }

  /** A session as the service creates it, under an id and a token hash never used before. */
  predicate FreshFor(l: Ledger, x: Session) {
    && x.id !in l.ids && x.tokenHash !in l.tokens
    && x.status.AwaitingTransfer? && x.outcome.None? && x.redeemedAtMs.None?
    && x.cancelledAtMs.None? && x.completedAtMs.None? && x.summaryDelivery.None? && x.summaryClaimedAtMs.None?
  }

  predicate CreatesFresh(l: Ledger, op: Op) {
    op.Create? ==> FreshFor(l, op.session)
  }

  /** Every creation of the run is fresh. */
  ghost predicate FreshRun(s: Store, l: Ledger, run: seq<Timed>)
    decreases |run|
  {
    run == []
    || (var step := Lazy(s, run[0].op, run[0].now);
        CreatesFresh(l, run[0].op) && FreshRun(step.store, Note(l, run[0].op, step.reply), run[1..]))
  }

  function LedgerAfter(s: Store, l: Ledger, run: seq<Timed>): Ledger
    decreases |run|
  {
    if run == [] then l
    else
      var step := Lazy(s, run[0].op, run[0].now);
      LedgerAfter(step.store, Note(l, run[0].op, step.reply), run[1..])
  }

  /** The published events of one session, oldest first. */
  function EventsOf(events: seq<Event>, id: string): seq<EventKind> {
    if events == [] then []
    else
      var last := events[|events| - 1];
      EventsOf(events[..|events| - 1], id) + if last.sessionId == id then [last.kind] else []
  }

  /** What the log must hold about a session. */
  function Expected(l: Ledger, id: string): seq<EventKind> {
    (if id in l.redeemed then [ConversationConnected] else [])
    + (if id in l.completed then [ConversationCompleted(l.completed[id])] else [])
  }

  /** What a stored session may look like, given the ledger. */
  predicate SessionFits(l: Ledger, id: string, x: Session) {
    && x.id == id && id in l.ids && x.tokenHash in l.tokens
    && (x.redeemedAtMs.Some? <==> id in l.redeemed)
    && (x.outcome.Some? <==> id in l.completed)
    && (x.outcome.Some? ==> x.outcome.value.status == l.completed[id] && x.completedAtMs.Some?)
    && (x.status.AwaitingTransfer? || x.status.Expired? ==> x.redeemedAtMs.None?)
    && (x.status.Connected? ==> x.redeemedAtMs.Some? && x.outcome.None?)
    && (Terminal(x.status) ==> x.outcome.Some?)
    && !x.status.Scheduling?
  }

  ghost predicate TokensIndexed(s: Store) {
    && (forall h | h in s.byToken :: s.byToken[h] in s.byId && s.byId[s.byToken[h]].tokenHash == h)
    && (forall id | id in s.byId :: s.byId[id].tokenHash in s.byToken && s.byToken[s.byId[id].tokenHash] == id)
  }

  ghost predicate SessionsFit(s: Store, l: Ledger) {
    forall id | id in s.byId :: SessionFits(l, id, s.byId[id])
  }

  ghost predicate LogIsExact(s: Store, l: Ledger) {
    forall id :: EventsOf(s.events, id) == Expected(l, id)
  }

  predicate LedgerNested(l: Ledger) {
    l.completed.Keys <= l.redeemed <= l.ids
  }

  ghost predicate Consistent(s: Store, l: Ledger) {
    TokensIndexed(s) && SessionsFit(s, l) && LogIsExact(s, l) && LedgerNested(l)
  }

  lemma EmptyIsConsistent()
    ensures Consistent(EMPTY, NOTHING)
  {
  }

  lemma EventsAppend(events: seq<Event>, e: Event, id: string)
    ensures EventsOf(events + [e], id) == EventsOf(events, id) + if e.sessionId == id then [e.kind] else []
  {
    assert (events + [e])[..|events|] == events;
  }

  /** Rewriting one present session without publishing. */
  lemma RewriteKeeps(s: Store, l: Ledger, id: string, x: Session)
    requires Consistent(s, l) && id in s.byId && SessionFits(l, id, x) && x.tokenHash == s.byId[id].tokenHash
    ensures Consistent(Put(s, id, x), l)
  {
  }

  lemma MarkFits(l: Ledger, id: string, x: Session, now: int)
    requires SessionFits(l, id, x)
    ensures SessionFits(l, id, Mark(x, now)) && Mark(x, now).tokenHash == x.tokenHash
  {
  }

  lemma SweepKeeps(s: Store, l: Ledger, now: int)
    requires Consistent(s, l)
    ensures Consistent(Swept(s, now), l)
  {
    var s' := Swept(s, now);
    assert s'.byId.Keys == s.byId.Keys;
    assert forall id | id in s.byId :: s'.byId[id] == Mark(s.byId[id], now);
  }

  lemma RedeemKeeps(s: Store, l: Ledger, id: string, now: int)
    requires Consistent(s, l) && id in s.byId && s.byId[id].status.AwaitingTransfer?
    ensures var x := s.byId[id];
            Consistent(Publish(Put(s, id, ConnectedAt(x, now)), ConversationConnected, x),
                       l.(redeemed := l.redeemed + {id}))
  {
    var x := s.byId[id];
    var s' := Publish(Put(s, id, ConnectedAt(x, now)), ConversationConnected, x);
    var l' := l.(redeemed := l.redeemed + {id});
    assert SessionFits(l, id, x);
    forall k ensures EventsOf(s'.events, k) == Expected(l', k) {
      EventsAppend(s.events, Event(ConversationConnected, x.firmId, x.id), k);
      assert EventsOf(s.events, k) == Expected(l, k);
    }
    forall k | k in s'.byId ensures SessionFits(l', k, s'.byId[k]) {
      if k != id { assert SessionFits(l, k, s.byId[k]); }
    }
  }

  lemma OutcomeKeeps(s: Store, l: Ledger, id: string, outcome: Outcome, now: int)
    requires Consistent(s, l) && id in s.byId && s.byId[id].status.Connected?
    ensures Consistent(LazyOutcome(s, id, outcome, now).store, l.(completed := l.completed[id := outcome.status]))
  {
    var x := s.byId[id];
    var s' := LazyOutcome(s, id, outcome, now).store;
    var l' := l.(completed := l.completed[id := outcome.status]);
    assert SessionFits(l, id, x);
    forall k ensures EventsOf(s'.events, k) == Expected(l', k) {
      EventsAppend(s.events, Event(ConversationCompleted(outcome.status), x.firmId, x.id), k);
      assert EventsOf(s.events, k) == Expected(l, k);
    }
    forall k | k in s'.byId ensures SessionFits(l', k, s'.byId[k]) {
      if k != id { assert SessionFits(l, k, s.byId[k]); }
    }
  }

  lemma InsertKeeps(s: Store, l: Ledger, x: Session)
    requires Consistent(s, l) && FreshFor(l, x)
    ensures Consistent(Insert(s, x), l.(ids := l.ids + {x.id}, tokens := l.tokens + {x.tokenHash}))
  {
    var s' := Insert(s, x);
    var l' := l.(ids := l.ids + {x.id}, tokens := l.tokens + {x.tokenHash});
    forall id | id in s'.byId ensures SessionFits(l', id, s'.byId[id]) {
      if id != x.id { assert SessionFits(l, id, s.byId[id]); }
    }
    assert forall h | h in s.byToken :: s.byToken[h] in s.byId && SessionFits(l, s.byToken[h], s.byId[s.byToken[h]]);
    forall id ensures EventsOf(s'.events, id) == Expected(l', id) {
      assert EventsOf(s.events, id) == Expected(l, id);
    }
  }

  lemma RemovalKeeps(s: Store, l: Ledger, gone: set<string>)
    requires Consistent(s, l) && gone <= s.byId.Keys
    ensures Consistent(WithoutSessions(s, gone), l)
  {
    var s' := WithoutSessions(s, gone);
    var tokens := set id | id in gone :: s.byId[id].tokenHash;
    assert forall k | k in gone :: s.byId[k].tokenHash in tokens;
    forall h | h in tokens ensures h in s.byToken && s.byToken[h] in gone {
      var k :| k in gone && s.byId[k].tokenHash == h;
    }
    assert forall id | id in s'.byId :: s'.byId[id] == s.byId[id];
  }

  lemma RedeemStep(s: Store, l: Ledger, tokenHash: string, now: int)
    requires Consistent(s, l)
    ensures var step := LazyRedeem(s, tokenHash, now); Consistent(step.store, Note(l, Redeem(tokenHash), step.reply))
  {
    if tokenHash in s.byToken && s.byToken[tokenHash] in s.byId {
      var id := s.byToken[tokenHash];
      var x := Mark(s.byId[id], now);
      FitsAt(s, l, id);
      MarkFits(l, id, s.byId[id], now);
      RewriteKeeps(s, l, id, x);
      hide Consistent;
      if x.status.AwaitingTransfer? && !Overdue(x, now) {
        RedeemKeeps(Put(s, id, x), l, id, now);
      }
    }
  }

  lemma FitsAt(s: Store, l: Ledger, id: string)
    requires Consistent(s, l) && id in s.byId
    ensures SessionFits(l, id, s.byId[id])
  {
  }

  lemma CancelStep(s: Store, l: Ledger, id: string, hash: string, now: int)
    requires Consistent(s, l)
    ensures Consistent(LazyCancel(s, id, hash, now).store, l)
  {
    hide Consistent;
    if id in s.byId {
      var x := Mark(s.byId[id], now);
      FitsAt(s, l, id);
      MarkFits(l, id, s.byId[id], now);
      RewriteKeeps(s, l, id, x);
      RewriteKeeps(Put(s, id, x), l, id, x.(status := Cancelled, cancelledAtMs := Some(now)));
    }
  }

  lemma CandidateWaits(byId: map<string, Session>, firmId: string, c: Criteria, id: string)
    requires id in Candidates(byId, firmId, c)
    ensures id in byId && byId[id].status.AwaitingTransfer?
  {
  }

  lemma ConnectStep(s: Store, l: Ledger, firmId: string, c: Criteria, now: int)
    requires Consistent(s, l)
    ensures var step := LazyConnect(s, firmId, c, now);
            Consistent(step.store, Note(l, ConnectEligible(firmId, c), step.reply))
  {
    hide Consistent, Swept, Candidates;
    SweepKeeps(s, l, now);
    var s' := Swept(s, now);
    var found := Candidates(s'.byId, firmId, c);
    if |found| == 1 {
      var id := Only(found);
      CandidateWaits(s'.byId, firmId, c, id);
      FitsAt(s', l, id);
      RedeemKeeps(s', l, id, now);
    }
  }

  lemma OutcomeStep(s: Store, l: Ledger, id: string, outcome: Outcome, now: int)
    requires Consistent(s, l)
    ensures var step := LazyOutcome(s, id, outcome, now);
            Consistent(step.store, Note(l, ApplyOutcome(id, outcome), step.reply))
  {
    hide Consistent;
    if id in s.byId {
      FitsAt(s, l, id);
      if s.byId[id].status.Connected? {
        OutcomeKeeps(s, l, id, outcome, now);
      }
    }
  }

  lemma TouchStep(s: Store, l: Ledger, op: Op, now: int)
    requires Consistent(s, l)
    requires op.StatusByConsole? || op.Get? || op.ClaimSummary? || op.RecordSummary?
    ensures Consistent(Lazy(s, op, now).store, l)
  {
    hide Consistent;
    var id := op.id;
    if id in s.byId {
      FitsAt(s, l, id);
      MarkFits(l, id, s.byId[id], now);
      RewriteKeeps(s, l, id, Mark(s.byId[id], now));
      RewriteKeeps(s, l, id, Claimed(s.byId[id], now));
      if op.RecordSummary? {
        RewriteKeeps(s, l, id, s.byId[id].(summaryDelivery := Some(op.delivery)));
      }
    }
  }

  /** One step keeps sessions, ledger and log in agreement. */
  lemma StepIsConsistent(s: Store, l: Ledger, op: Op, now: int)
    requires Consistent(s, l) && CreatesFresh(l, op)
    ensures var step := Lazy(s, op, now); Consistent(step.store, Note(l, op, step.reply))
  {
    hide Consistent, LazyRedeem, LazyCancel, LazyConnect, LazyOutcome;
    SweepKeeps(s, l, now);
    match op
    case Create(x, cap) =>
      InsertKeeps(s, l, x);
      InsertKeeps(Swept(s, now), l, x);
    case Redeem(hash) => RedeemStep(s, l, hash, now);
    case Cancel(id, hash) => CancelStep(s, l, id, hash, now);
    case ConnectEligible(firmId, c) => ConnectStep(s, l, firmId, c, now);
    case ApplyOutcome(id, outcome) => OutcomeStep(s, l, id, outcome, now);
    case Purge(firmId, shortCut, terminalCut) =>
      RemovalKeeps(s, l, PurgedShort(s.byId, firmId, shortCut) + PurgedTerminal(s.byId, firmId, terminalCut));
    case CountEligible(_) =>
    case CountByStatus(_, _) =>
    case ListByStatuses(_, _) =>
    case Size =>
    case _ => TouchStep(s, l, op, now);
  }

  /**
   * In every run that creates sessions afresh, the log holds one connected event for a session exactly when it was
   * ever redeemed, followed by one completed event exactly when an outcome was ever accepted, carrying that outcome's
   * status, and nothing else: neither duplicates, conflicts, cancels nor purges add any.
   */
  lemma {:induction false} EventLogIsExact(s: Store, l: Ledger, run: seq<Timed>)
    requires Consistent(s, l) && FreshRun(s, l, run)
    ensures Consistent(LazyRun(s, run), LedgerAfter(s, l, run))
    decreases |run|
  {
    hide Consistent, Lazy, Note;
    if run != [] {
      var step := Lazy(s, run[0].op, run[0].now);
      StepIsConsistent(s, l, run[0].op, run[0].now);
      EventLogIsExact(step.store, Note(l, run[0].op, step.reply), run[1..]);
    }
  }

  /**
   * From the empty store: a session's published events are exactly what happened to it, and a session still stored says
   * the same of itself.
   */
  lemma EventLogFromTheStart(run: seq<Timed>, id: string)
    requires FreshRun(EMPTY, NOTHING, run)
    ensures var s, l := LazyRun(EMPTY, run), LedgerAfter(EMPTY, NOTHING, run);
            && EventsOf(s.events, id)
               == (if id in l.redeemed then [ConversationConnected] else [])
                + (if id in l.completed then [ConversationCompleted(l.completed[id])] else [])
            && (id in l.completed ==> id in l.redeemed)
            && (id in s.byId ==>
                  && (s.byId[id].redeemedAtMs.Some? <==> id in l.redeemed)
                  && (s.byId[id].outcome.Some? <==> id in l.completed)
                  && (s.byId[id].outcome.Some? ==> s.byId[id].outcome.value.status == l.completed[id]))
  {
    hide TokensIndexed, LazyRun, LedgerAfter, EventsOf;
    EmptyIsConsistent();
    EventLogIsExact(EMPTY, NOTHING, run);
  }

  /** What a step may do to a session that is still there. */
  predicate Settles(x: Session, y: Session) {
    && (x.outcome.Some? ==> y.outcome == x.outcome && y.completedAtMs == x.completedAtMs)
    && (x.redeemedAtMs.Some? ==> y.redeemedAtMs == x.redeemedAtMs)
    && y.tokenHash == x.tokenHash && y.expiresAtMs == x.expiresAtMs
    && (!x.status.AwaitingTransfer? ==> !y.status.AwaitingTransfer?)
  }

  lemma StepWritesOnce(s: Store, l: Ledger, op: Op, now: int, id: string)
    requires Consistent(s, l) && CreatesFresh(l, op)
    requires id in s.byId && id in Lazy(s, op, now).store.byId
    ensures Settles(s.byId[id], Lazy(s, op, now).store.byId[id])
  {
    hide Consistent, Candidates, Eligible, Listing, InStatus, PurgedShort, PurgedTerminal, Only, Settles, Swept,
         LazyConnect, LazyOutcome, LazyRedeem, LazyCancel;
    FitsAt(s, l, id);
    SweptShape(s, now);
    SettlesAlone(l, id, s.byId[id], now);
    match op
    case Redeem(_) => RedeemSettles(s, l, op, now, id);
    case Cancel(_, _) => CancelSettles(s, l, op, now, id);
    case ConnectEligible(_, _) => ConnectSettles(s, l, op, now, id);
    case ApplyOutcome(_, _) => OutcomeSettles(s, l, op, now, id);
    case RecordSummary(_, delivery) =>
      var y := s.byId[id].(summaryDelivery := Some(delivery));
      assert Settles(s.byId[id], y) by { SettlesRecord(s.byId[id], delivery); }
    case _ =>
  }

  lemma SettlesAlone(l: Ledger, id: string, x: Session, now: int)
    requires SessionFits(l, id, x)
    ensures Settles(x, x) && Settles(x, Mark(x, now)) && Settles(x, Claimed(x, now))
  {
  }

  lemma SettlesRecord(x: Session, delivery: Claims.DeliveryStatus)
    ensures Settles(x, x.(summaryDelivery := Some(delivery)))
  {
  }

  lemma RedeemSettles(s: Store, l: Ledger, op: Op, now: int, id: string)
    requires op.Redeem? && id in s.byId && SessionFits(l, id, s.byId[id])
    requires id in Lazy(s, op, now).store.byId
    ensures Settles(s.byId[id], Lazy(s, op, now).store.byId[id])
  {
  }

  lemma CancelSettles(s: Store, l: Ledger, op: Op, now: int, id: string)
    requires op.Cancel? && id in s.byId && SessionFits(l, id, s.byId[id])
    requires id in Lazy(s, op, now).store.byId
    ensures Settles(s.byId[id], Lazy(s, op, now).store.byId[id])
  {
  }

  lemma OutcomeSettles(s: Store, l: Ledger, op: Op, now: int, id: string)
    requires op.ApplyOutcome? && id in s.byId && SessionFits(l, id, s.byId[id])
    requires id in Lazy(s, op, now).store.byId
    ensures Settles(s.byId[id], Lazy(s, op, now).store.byId[id])
  {
  }

  lemma ConnectSettles(s: Store, l: Ledger, op: Op, now: int, id: string)
    requires op.ConnectEligible? && id in s.byId && SessionFits(l, id, s.byId[id])
    requires id in Lazy(s, op, now).store.byId
    ensures Settles(s.byId[id], Lazy(s, op, now).store.byId[id])
  {
    var found := Candidates(Swept(s, now).byId, op.firmId, op.criteria);
    if |found| == 1 { assert Only(found) in found; }
  }

  lemma {:induction false} NeverRecreated(s: Store, l: Ledger, run: seq<Timed>, id: string)
    requires Consistent(s, l) && FreshRun(s, l, run) && id in l.ids && id !in s.byId
    ensures id !in LazyRun(s, run).byId
    decreases |run|
  {
    hide Consistent, Lazy, Note;
    if run != [] {
      var step := Lazy(s, run[0].op, run[0].now);
      StepIsConsistent(s, l, run[0].op, run[0].now);
      IndexOf(s, l);
      StaysGone(s, l, run[0].op, run[0].now, id);
      NeverRecreated(step.store, Note(l, run[0].op, step.reply), run[1..], id);
    }
  }

  lemma IndexOf(s: Store, l: Ledger)
    requires Consistent(s, l)
    ensures TokensIndexed(s)
  {
  }

  lemma StaysGone(s: Store, l: Ledger, op: Op, now: int, id: string)
    requires CreatesFresh(l, op) && id in l.ids && id !in s.byId && TokensIndexed(s)
    ensures id !in Lazy(s, op, now).store.byId && id in Note(l, op, Lazy(s, op, now).reply).ids
  {
    hide PurgedShort, PurgedTerminal, Listing, InStatus;
    SweptShape(s, now);
    if op.ConnectEligible? {
      var found := Candidates(Swept(s, now).byId, op.firmId, op.criteria);
      if |found| == 1 { assert Only(found) in found; }
    }
  }

  /**
   * A stored outcome and a redemption time are written once, over any run and whatever happens to the status
   * afterwards, and no session ever returns to awaiting transfer.
   */
  lemma {:induction false} WrittenOnce(s: Store, l: Ledger, run: seq<Timed>, id: string)
    requires Consistent(s, l) && FreshRun(s, l, run) && id in s.byId && id in LazyRun(s, run).byId
    ensures Settles(s.byId[id], LazyRun(s, run).byId[id])
    decreases |run|
  {
    hide Consistent, Lazy, Note, SessionFits;
    if run != [] {
      var step := Lazy(s, run[0].op, run[0].now);
      var l' := Note(l, run[0].op, step.reply);
      StepIsConsistent(s, l, run[0].op, run[0].now);
      KnownIds(s, l, id);
      LedgerGrows(l, run[0].op, step.reply);
      if id !in step.store.byId {
        NeverRecreated(step.store, l', run[1..], id);
      } else {
        StepWritesOnce(s, l, run[0].op, run[0].now, id);
        WrittenOnce(step.store, l', run[1..], id);
      }
    }
  }

  lemma KnownIds(s: Store, l: Ledger, id: string)
    requires Consistent(s, l) && id in s.byId
    ensures id in l.ids && TokensIndexed(s)
  {
    assert SessionFits(l, id, s.byId[id]);
  }

  lemma LedgerGrows(l: Ledger, op: Op, reply: Reply)
    ensures l.ids <= Note(l, op, reply).ids && l.tokens <= Note(l, op, reply).tokens
  {
  }

  /**
   * A cancel that is not refused leaves an awaiting session cancelled; what the store's own documentation does not say
   * is that it does the same to a completed one. It succeeds exactly when the session is neither connected nor expired
   * nor cancelled past its lifetime.
   */
  lemma CancelSucceedsExactlyWhen(s: Store, id: string, hash: string, now: int)
    requires id in s.byId && s.byId[id].consoleTokenHash == hash
    ensures var x := Mark(s.byId[id], now);
            LazyCancel(s, id, hash, now).reply.One?
            <==> !x.status.Connected? && !x.status.Expired? && (x.status.Cancelled? ==> !Overdue(x, now))
    ensures Terminal(s.byId[id].status) ==>
              var y := LazyCancel(s, id, hash, now).store.byId[id];
              y.status.Cancelled? && y.outcome == s.byId[id].outcome
  {
  }
}
