/**
 * Evidence-based reconciliation of ambiguous bookings: one pass over a snapshot of the
 * verification_required queue, asking the calendar provider about each context.
 *
 * A provider answers per (provider, calendar, correlation id); `Env` fixes those answers for a pass.
 * The pass is modelled here without interleaving; ReconcilerInterleaved lets other requests run at each of its awaits.
 */
module BookingReconciler {
  import opened Options
  import opened BookingContexts

  datatype Answer =
    | Unreachable
    | NoEvent
    | Event(cancelled: bool, startsAt: Option<Stamp>, providerEventId: Option<string>)

  datatype Env = Env(providers: set<string>, ask: (string, string, string) -> Answer, clock: nat -> int)

  datatype Also = Also(id: string, status: Status, reason: string)

  datatype Resolution = Resolution(status: Status, reason: string, providerEventId: Option<string>, also: Option<Also>)

  function ReasonOf(c: Row): string {
    if c.rejectionReason.Some? then c.rejectionReason.value else ""
  }

  predicate IsCancellation(c: Row) {
    "cancellation_" <= ReasonOf(c) || ReasonOf(c) == "stale_cancellation_pending"
  }

  predicate IsReschedule(c: Row) {
    || "reschedule_" <= ReasonOf(c)
    || ReasonOf(c) == "stale_rescheduling"
    || (Truthy(c.offer.rescheduleOf) && !IsCancellation(c))
  }

  /** The correlation id of the event a context belongs to: a successor carries its original's. */
  function CorrelationOf(c: Row): string {
    if c.offer.rescheduleOf.Some? then c.offer.rescheduleOf.value else c.offer.id
  }

  /** The evidence table: what a provider's answer says about a context. */
  function Evidence(c: Row, answer: Answer): Option<Resolution>
    requires !answer.Unreachable?
  {
    if IsCancellation(c) then
      if answer.NoEvent? || answer.cancelled then Some(Resolution(Cancelled, "reconciled_event_gone", None, None))
      else Some(Resolution(Booked, "reconciled_event_still_confirmed", None, None))
    else if IsReschedule(c) && Truthy(c.offer.rescheduleOf) then
      if answer.Event? && answer.startsAt.Some? && c.selectedStartsAt.Some? then
        if answer.startsAt.value.ms == c.selectedStartsAt then
          Some(Resolution(Booked, "reconciled_event_at_new_time", answer.providerEventId,
                          Some(Also(c.offer.rescheduleOf.value, Rescheduled, "reconciled_event_at_new_time"))))
        else
          Some(Resolution(Rejected, "reconciled_event_not_moved", None,
                          Some(Also(c.offer.rescheduleOf.value, Booked, "reconciled_event_not_moved"))))
      else None
    else if !IsReschedule(c) then
      if answer.Event? && !answer.cancelled
        then Some(Resolution(Booked, "reconciled_event_found", answer.providerEventId, None))
      else Some(Resolution(Rejected, "reconciled_no_event_found", None, None))
    else None
  }

  /** What the pass decides about a queued context; None: it is left in the queue. */
  function Decided(c: Row, env: Env): Option<Resolution> {
    if !Truthy(c.offer.providerKey) || !Truthy(c.calendarRef) then None
    else if c.offer.providerKey.value !in env.providers then None
    else
      var answer := env.ask(c.offer.providerKey.value, c.calendarRef.value, CorrelationOf(c));
      if answer.Unreachable? then None else Evidence(c, answer)
  }

  datatype Tally = Tally(store: Store, resolved: nat, left: nat, paired: nat)

  function ResolveOp(id: string, status: Status, eventId: Option<string>, reason: string): Op {
    ResolveVerification(id, status, if Truthy(eventId) then eventId else None, Some(reason), "reconciler")
  }

  /** The original of a resolved successor, if it is queued too. */
  function ResolveOriginal(t: Tally, also: Also, now: int): Tally {
    var look := Decide(t.store, Op.Get(also.id), now);
    var s := Apply(t.store, Op.Get(also.id), now);
    if look.reply.Context? && look.reply.row.status.VerificationRequired? then
      var op := ResolveOp(also.id, also.status, None, also.reason);
      if Decide(s, op, now).reply.Context?
      then Tally(Apply(s, op, now), t.resolved + 1, t.left, t.paired + 1)
      else t.(store := Apply(s, op, now))
    else t.(store := s)
  }

  /** One queued context. */
  function One(t: Tally, c: Row, env: Env, now: int): Tally {
    var d := Decided(c, env);
    if d.None? then t.(left := t.left + 1)
    else
      var op := ResolveOp(c.offer.id, d.value.status, d.value.providerEventId, d.value.reason);
      if !Decide(t.store, op, now).reply.Context? then t.(store := Apply(t.store, op, now), left := t.left + 1)
      else
        var t' := t.(store := Apply(t.store, op, now), resolved := t.resolved + 1);
        if d.value.also.None? then t' else ResolveOriginal(t', d.value.also.value, now)
  }

  /** The pass over the first contexts of the queue. */
  function Pass(s: Store, queue: seq<Row>, env: Env): Tally {
    if queue == [] then Tally(s, 0, 0, 0)
    else One(Pass(s, queue[..|queue| - 1], env), queue[|queue| - 1], env, env.clock(|queue| - 1))
  }

  /** A snapshot of distinct queued contexts. */
  ghost predicate Queued(s: Store, queue: seq<Row>) {
    && (forall c | c in queue :: c.offer.id in s.rows && s.rows[c.offer.id] == c && c.status.VerificationRequired?)
    && (forall i, j | 0 <= i < j < |queue| :: queue[i].offer.id != queue[j].offer.id)
  }

  ghost predicate Keyed(s: Store) {
    forall id | id in s.rows :: s.rows[id].offer.id == id
  }

  /** The status one decided context gives a row, if any: its own, or its original's. */
  function Verdict(c: Row, d: Resolution, id: string): Option<Status> {
    if id == c.offer.id then Some(d.status)
    else if d.also.Some? && d.also.value.id == id then Some(d.also.value.status)
    else None
  }

  lemma ResolveRow(s: Store, id: string, status: Status, eventId: Option<string>, reason: string, now: int)
    requires Keyed(s) && (status.Booked? || status.Rejected? || status.Cancelled? || status.Rescheduled?)
    ensures var op := ResolveOp(id, status, eventId, reason);
            var s' := Apply(s, op, now);
            var applies := id in s.rows && s.rows[id].status.VerificationRequired?;
            && Keyed(s') && s'.rows.Keys == s.rows.Keys
            && (Decide(s, op, now).reply.Context? <==> applies)
            && (applies ==> s'.rows[id].status == status && s'.rows[id].offer == s.rows[id].offer)
            && (forall k | k in s.rows && (k != id || !applies) :: s'.rows[k] == s.rows[k])
            && (!applies ==> s' == s)
  {
  }

  /** Looking the original up changes nothing but an overdue offer. */
  predicate SameButLapsed(before: Row, after: Row) {
    after == before || (before.status.Offered? && after.status.Expired?)
  }

  lemma LookRow(s: Store, id: string, now: int)
    requires Keyed(s)
    ensures var s' := Apply(s, Op.Get(id), now);
            && Keyed(s') && s'.rows.Keys == s.rows.Keys
            && (forall k | k in s.rows :: SameButLapsed(s.rows[k], s'.rows[k]))
            && (id in s.rows ==> Decide(s, Op.Get(id), now).reply == Context(s'.rows[id]))
            && (id !in s.rows ==> Decide(s, Op.Get(id), now).reply == Null)
  {
  }

  /** What one queued context does to every row, and to the tally. */
  ghost predicate OneEffect(t: Tally, t': Tally, c: Row, d: Option<Resolution>) {
    var s, s' := t.store, t'.store;
    var acts := d.Some? && c.offer.id in s.rows && s.rows[c.offer.id].status.VerificationRequired?;
    && Keyed(s') && s'.rows.Keys == s.rows.Keys
    && (!acts ==> t' == t.(left := t.left + 1))
    && (acts ==> t'.left == t.left && t'.resolved == t.resolved + 1 + (t'.paired - t.paired) && t'.paired >= t.paired)
    && (acts ==> forall k | k in s.rows ::
          if s.rows[k].status.VerificationRequired? && Verdict(c, d.value, k).Some?
          then s'.rows[k].status == Verdict(c, d.value, k).value
          else SameButLapsed(s.rows[k], s'.rows[k]))
  }

  lemma OriginalRow(t: Tally, also: Also, now: int)
    requires Keyed(t.store) && (also.status.Booked? || also.status.Rescheduled?)
    ensures var t' := ResolveOriginal(t, also, now);
            && Keyed(t'.store) && t'.store.rows.Keys == t.store.rows.Keys
            && t'.left == t.left && t'.resolved == t.resolved + (t'.paired - t.paired) && t'.paired >= t.paired
            && forall k | k in t.store.rows ::
                 if k == also.id && t.store.rows[k].status.VerificationRequired?
                 then t'.store.rows[k].status == also.status
                 else SameButLapsed(t.store.rows[k], t'.store.rows[k])
  {
    hide Decide, Commit;
    LookRow(t.store, also.id, now);
    ResolveRow(Apply(t.store, Op.Get(also.id), now), also.id, also.status, None, also.reason, now);
  }

  lemma EvidenceStatuses(c: Row, env: Env)
    ensures Decided(c, env).Some? ==>
              var d := Decided(c, env).value;
              && (d.status.Booked? || d.status.Rejected? || d.status.Cancelled?)
              && (d.also.Some? ==> (d.also.value.status.Booked? || d.also.value.status.Rescheduled?)
                                   && c.offer.rescheduleOf == Some(d.also.value.id) && IsReschedule(c)
                                   && d.also.value.id != "")
  {
  }

  lemma OneRow(t: Tally, c: Row, env: Env, now: int)
    requires Keyed(t.store) && c.offer.id in t.store.rows
    ensures OneEffect(t, One(t, c, env, now), c, Decided(c, env))
  {
    hide Decide, Commit, Apply, Decided, ResolveOriginal, ResolveOp, OneEffect, Keyed;
    var d := Decided(c, env);
    if d.Some? {
      EvidenceStatuses(c, env);
      DecidedRow(t, c, d.value, now);
    } else {
      UndecidedRow(t, c);
    }
  }

  lemma UndecidedRow(t: Tally, c: Row)
    requires Keyed(t.store)
    ensures OneEffect(t, t.(left := t.left + 1), c, None)
  {
  }

  lemma DecidedRow(t: Tally, c: Row, d: Resolution, now: int)
    requires Keyed(t.store) && c.offer.id in t.store.rows
    requires d.status.Booked? || d.status.Rejected? || d.status.Cancelled?
    requires d.also.Some? ==> d.also.value.status.Booked? || d.also.value.status.Rescheduled?
    ensures var op := ResolveOp(c.offer.id, d.status, d.providerEventId, d.reason);
            var s1 := Apply(t.store, op, now);
            var t1 := t.(store := s1, resolved := t.resolved + 1);
            && (!Decide(t.store, op, now).reply.Context? ==>
                  OneEffect(t, t.(store := s1, left := t.left + 1), c, Some(d)))
            && (Decide(t.store, op, now).reply.Context? ==>
                  OneEffect(t, if d.also.None? then t1 else ResolveOriginal(t1, d.also.value, now), c, Some(d)))
  {
    hide Decide, Commit, Apply, ResolveOriginal, ResolveOp, OneEffect;
    ResolveRow(t.store, c.offer.id, d.status, d.providerEventId, d.reason, now);
    var op := ResolveOp(c.offer.id, d.status, d.providerEventId, d.reason);
    var s1 := Apply(t.store, op, now);
    var t1 := t.(store := s1, resolved := t.resolved + 1);
    if !Decide(t.store, op, now).reply.Context? {
      EffectOfNothing(t, c, d);
    } else if d.also.None? {
      EffectAlone(t, t1, c, d);
    } else {
      OriginalRow(t1, d.also.value, now);
      EffectOfPair(t, t1, ResolveOriginal(t1, d.also.value, now), c, d);
    }
  }

  lemma EffectOfNothing(t: Tally, c: Row, d: Resolution)
    requires Keyed(t.store) && c.offer.id in t.store.rows && !t.store.rows[c.offer.id].status.VerificationRequired?
    ensures OneEffect(t, t.(left := t.left + 1), c, Some(d))
  {
  }

  lemma EffectAlone(t: Tally, t1: Tally, c: Row, d: Resolution)
    requires Keyed(t1.store) && t1.store.rows.Keys == t.store.rows.Keys
    requires c.offer.id in t.store.rows && t.store.rows[c.offer.id].status.VerificationRequired? && d.also.None?
    requires t1.store.rows[c.offer.id].status == d.status
    requires forall k | k in t.store.rows && k != c.offer.id :: t1.store.rows[k] == t.store.rows[k]
    requires t1.left == t.left && t1.resolved == t.resolved + 1 && t1.paired == t.paired
    ensures OneEffect(t, t1, c, Some(d))
  {
  }

  lemma EffectOfPair(t: Tally, t1: Tally, t': Tally, c: Row, d: Resolution)
    requires Keyed(t'.store) && t'.store.rows.Keys == t1.store.rows.Keys == t.store.rows.Keys
    requires c.offer.id in t.store.rows && t.store.rows[c.offer.id].status.VerificationRequired? && d.also.Some?
    requires t1.store.rows[c.offer.id].status == d.status
             && (d.status.Booked? || d.status.Rejected? || d.status.Cancelled?)
    requires forall k | k in t.store.rows && k != c.offer.id :: t1.store.rows[k] == t.store.rows[k]
    requires forall k | k in t1.store.rows ::
               if k == d.also.value.id && t1.store.rows[k].status.VerificationRequired?
               then t'.store.rows[k].status == d.also.value.status
               else SameButLapsed(t1.store.rows[k], t'.store.rows[k])
    requires t1.left == t.left == t'.left && t1.resolved == t.resolved + 1 && t1.paired == t.paired
    requires t'.resolved == t1.resolved + (t'.paired - t1.paired) && t'.paired >= t1.paired
    ensures OneEffect(t, t', c, Some(d))
  {
    assert t'.store.rows.Keys == t1.store.rows.Keys;
  }

  /** The effect on one row. */
  predicate RowEffect(before: Row, after: Row, c: Row, d: Option<Resolution>) {
    if before.status.VerificationRequired?
    then if d.Some? && Verdict(c, d.value, before.offer.id).Some?
         then after == before || Some(after.status) == Verdict(c, d.value, before.offer.id)
         else after == before
    else SameButLapsed(before, after)
  }

  lemma EffectOnRow(t: Tally, t': Tally, c: Row, d: Option<Resolution>, id: string)
    requires Keyed(t.store) && OneEffect(t, t', c, d) && id in t.store.rows
    ensures id in t'.store.rows && t.store.rows[id].offer.id == id
    ensures RowEffect(t.store.rows[id], t'.store.rows[id], c, d)
    ensures d.Some? && c.offer.id in t.store.rows && t.store.rows[c.offer.id].status.VerificationRequired?
            && t.store.rows[id].status.VerificationRequired? && Verdict(c, d.value, id).Some? ==>
              Some(t'.store.rows[id].status) == Verdict(c, d.value, id)
  {
  }

  /** The pass one context further: its effect on the tally of the contexts before it. */
  lemma PassStep(s: Store, queue: seq<Row>, env: Env)
    requires Keyed(s) && Queued(s, queue) && queue != []
    ensures Queued(s, queue[..|queue| - 1]) && Keyed(Pass(s, queue[..|queue| - 1], env).store)
    ensures Pass(s, queue[..|queue| - 1], env).store.rows.Keys == s.rows.Keys
    ensures OneEffect(Pass(s, queue[..|queue| - 1], env), Pass(s, queue, env), queue[|queue| - 1],
                      Decided(queue[|queue| - 1], env))
  {
    var n := |queue| - 1;
    assert forall c | c in queue[..n] :: c in queue;
    PassKeepsRows(s, queue[..n], env);
    assert queue[n] in queue;
    OneRow(Pass(s, queue[..n], env), queue[n], env, env.clock(n));
  }

  lemma {:induction false} PassKeepsRows(s: Store, queue: seq<Row>, env: Env)
    requires Keyed(s) && Queued(s, queue)
    ensures Keyed(Pass(s, queue, env).store) && Pass(s, queue, env).store.rows.Keys == s.rows.Keys
  {
    hide One, Decided;
    if queue != [] {
      var n := |queue| - 1;
      PassKeepsRows(s, queue[..n], env);
      OneRow(Pass(s, queue[..n], env), queue[n], env, env.clock(n));
    }
  }

  /** Some queued context with a provider answer gives `id` this status by the evidence table. */
  ghost predicate Justified(queue: seq<Row>, env: Env, id: string, status: Status) {
    exists c | c in queue :: Decided(c, env).Some? && Verdict(c, Decided(c, env).value, id) == Some(status)
  }

  /**
   * Only contexts with a provider answer, their own or their queued successor's, leave verification_required, each with
   * the status the evidence table gives; nothing else changes beyond an overdue offer lapsing when it is looked at.
   */
  lemma {:induction false} OnlyEvidenceResolves(s: Store, queue: seq<Row>, env: Env, id: string)
    requires Keyed(s) && Queued(s, queue) && id in s.rows
    ensures id in Pass(s, queue, env).store.rows
    ensures var after := Pass(s, queue, env).store.rows[id];
            if s.rows[id].status.VerificationRequired?
            then after == s.rows[id] || Justified(queue, env, id, after.status)
            else SameButLapsed(s.rows[id], after)
  {
    hide Pass, One, Decided, OneEffect, Keyed, Queued;
    PassKeepsRows(s, queue, env);
    if queue != [] {
      var n := |queue| - 1;
      PassStep(s, queue, env);
      OnlyEvidenceResolves(s, queue[..n], env, id);
      EffectOnRow(Pass(s, queue[..n], env), Pass(s, queue, env), queue[n], Decided(queue[n], env), id);
      JustifiedExtends(queue, env, id);
      JustifiedStatusesAreFinal(queue[..n], env, id);
    } else {
      PassStart(s, queue, env);
      assert queue[..0] == queue;
    }
  }

  lemma JustifiedExtends(queue: seq<Row>, env: Env, id: string)
    requires queue != []
    ensures forall status :: Justified(queue, env, id, status)
              <==> (Justified(queue[..|queue| - 1], env, id, status)
                    || (Decided(queue[|queue| - 1], env).Some?
                        && Verdict(queue[|queue| - 1], Decided(queue[|queue| - 1], env).value, id) == Some(status)))
  {
    hide Decided;
    assert queue == queue[..|queue| - 1] + [queue[|queue| - 1]];
  }

  /** Every examined context is counted once, and each original resolved through its successor once more. */
  lemma {:induction false} TallyAddsUp(s: Store, queue: seq<Row>, env: Env)
    requires Keyed(s) && Queued(s, queue)
    ensures var t := Pass(s, queue, env); t.resolved + t.left == |queue| + t.paired
  {
    hide One, Decided;
    if queue != [] {
      var n := |queue| - 1;
      TallyAddsUp(s, queue[..n], env);
      PassStep(s, queue, env);
    }
  }

  // ── Whose evidence decides ─────────────────────────────────────────────────

  /** Among the first k contexts, the one whose applied resolution moved `id`: the first that acts and speaks of it. */
  function Settler(queue: seq<Row>, env: Env, id: string, k: nat): (i: Option<nat>)
    requires k <= |queue|
    ensures i.Some? ==>
              i.value < k && Acts(queue, env, i.value)
              && Verdict(queue[i.value], Decided(queue[i.value], env).value, id).Some?
    decreases k, 0
  {
    if k == 0 then None
    else
      var earlier := Settler(queue, env, id, k - 1);
      if earlier.Some? then earlier
      else if Acts(queue, env, k - 1) && Verdict(queue[k - 1], Decided(queue[k - 1], env).value, id).Some?
        then Some(k - 1)
      else None
  }

  /** The i-th context has an answer, and no earlier one has moved it before its turn. */
  predicate Acts(queue: seq<Row>, env: Env, i: nat)
    requires i < |queue|
    decreases i, 1
  {
    Decided(queue[i], env).Some? && Settler(queue, env, queue[i].offer.id, i).None?
  }

  lemma ExactEffect(t: Tally, t': Tally, c: Row, d: Option<Resolution>, id: string)
    requires OneEffect(t, t', c, d) && id in t.store.rows && c.offer.id in t.store.rows
    ensures id in t'.store.rows
    ensures var before, after := t.store.rows[id], t'.store.rows[id];
            if d.Some? && t.store.rows[c.offer.id].status.VerificationRequired?
               && before.status.VerificationRequired? && Verdict(c, d.value, id).Some?
            then after.status == Verdict(c, d.value, id).value
            else before.status.Offered? || after == before
  {
  }

  /**
   * The exact effect of a pass on every ambiguous context, queued or not: the first applied resolution that speaks of
   * it gives it its status, and without one it stays as it was.
   */
  lemma {:induction false} FirstEvidenceDecides(s: Store, queue: seq<Row>, env: Env, id: string, k: nat)
    requires Keyed(s) && Queued(s, queue) && id in s.rows && s.rows[id].status.VerificationRequired? && k <= |queue|
    ensures var rows := Pass(s, queue[..k], env).store.rows;
            && id in rows
            && match Settler(queue, env, id, k)
               case None => rows[id] == s.rows[id]
               case Some(i) => Some(rows[id].status) == Verdict(queue[i], Decided(queue[i], env).value, id)
                               && !rows[id].status.VerificationRequired? && !rows[id].status.Offered?
    decreases k
  {
    hide Pass, One, Decided, OneEffect, Keyed, Verdict, Queued;
    PassStart(s, queue, env);
    if k > 0 {
      var c := queue[k - 1];
      QueuedPrefix(s, queue, k);
      assert queue[..k][..k - 1] == queue[..k - 1];
      assert c in queue;
      QueuedIds(s, queue, k - 1, c);
      PassStep(s, queue[..k], env);
      FirstEvidenceDecides(s, queue, env, id, k - 1);
      FirstEvidenceDecides(s, queue, env, c.offer.id, k - 1);
      ExactEffect(Pass(s, queue[..k - 1], env), Pass(s, queue[..k], env), c, Decided(c, env), id);
      VerdictsSettle(c, env, id);
    }
  }

  lemma VerdictsSettle(c: Row, env: Env, id: string)
    ensures Decided(c, env).Some? && Verdict(c, Decided(c, env).value, id).Some? ==>
              var status := Verdict(c, Decided(c, env).value, id).value;
              !status.VerificationRequired? && !status.Offered?
  {
    EvidenceStatuses(c, env);
  }

  lemma PassStart(s: Store, queue: seq<Row>, env: Env)
    ensures queue[..0] == [] && Pass(s, queue[..0], env) == Tally(s, 0, 0, 0)
  {
    hide One;
  }

  lemma PassNext(s: Store, queue: seq<Row>, env: Env, i: nat)
    requires i < |queue|
    ensures Pass(s, queue[..i + 1], env) == One(Pass(s, queue[..i], env), queue[i], env, env.clock(i))
  {
    hide One;
    assert queue[..i + 1][..i] == queue[..i];
  }

  lemma QueuedPrefix(s: Store, queue: seq<Row>, k: nat)
    requires Queued(s, queue) && k <= |queue|
    ensures Queued(s, queue[..k])
  {
    assert forall c | c in queue[..k] :: c in queue;
  }

  /** In a queue of distinct contexts, the k-th is not among the earlier ones, and ids tell contexts apart. */
  lemma QueuedIds(s: Store, queue: seq<Row>, k: nat, c: Row)
    requires Queued(s, queue) && k < |queue| && c in queue
    ensures c.offer.id in s.rows && s.rows[c.offer.id] == c && c.status.VerificationRequired?
    ensures c == queue[k] <==> c.offer.id == queue[k].offer.id
    ensures c in queue[..k + 1] <==> c in queue[..k] || c == queue[k]
    ensures queue[k] !in queue[..k]
  {
    assert queue[..k + 1] == queue[..k] + [queue[k]];
    assert queue[k] in queue;
  }

  // ── Reschedule pairs ───────────────────────────────────────────────────────

  /** An original in an ambiguous reschedule, no successor itself, and its one queued successor. */
  ghost predicate Pair(queue: seq<Row>, o: Row, n: Row) {
    && o in queue && n in queue
    && IsReschedule(o) && !Truthy(o.offer.rescheduleOf)
    && n.offer.rescheduleOf == Some(o.offer.id) && o.offer.id != ""
    && (forall c | c in queue && c.offer.rescheduleOf == Some(o.offer.id) :: c == n)
  }

  /** The provider of the context is asked and reports an event with a start. */
  predicate Located(n: Row, env: Env) {
    && Truthy(n.offer.providerKey) && Truthy(n.calendarRef) && n.offer.providerKey.value in env.providers
    && var a := EventOf(n, env); a.Event? && a.startsAt.Some?
  }

  /** What the provider says about the context's event. */
  function EventOf(n: Row, env: Env): Answer
    requires n.offer.providerKey.Some? && n.calendarRef.Some?
  {
    env.ask(n.offer.providerKey.value, n.calendarRef.value, CorrelationOf(n))
  }

  predicate MovedToNewTime(n: Row, env: Env)
    requires Located(n, env)
  {
    EventOf(n, env).startsAt.value.ms == n.selectedStartsAt
  }

  /** A queued successor of the successor was decided before the successor's own turn, and moved it. */
  predicate Overtaken(queue: seq<Row>, env: Env, n: Row) {
    var i := Settler(queue, env, n.offer.id, |queue|);
    i.Some? && queue[i.value] != n
  }

  /** Who moves the successor, and to what: itself, or a queued successor of its own. */
  lemma WhoSettlesTheSuccessor(s: Store, queue: seq<Row>, env: Env, n: Row)
    requires Queued(s, queue) && n in queue && n.offer.rescheduleOf.Some? && n.offer.rescheduleOf.value != ""
    requires Located(n, env) && n.selectedStartsAt.Some?
    ensures var i := Settler(queue, env, n.offer.id, |queue|);
            && i.Some?
            && (queue[i.value] != n ==>
                  var c := queue[i.value];
                  && c.offer.rescheduleOf == Some(n.offer.id) && n.offer.id != "" && !IsCancellation(c)
                  && Located(c, env)
                  && Verdict(c, Decided(c, env).value, n.offer.id)
                       == Some(if MovedToNewTime(c, env) then Rescheduled else Booked))
  {
    hide Decided, Verdict, Located, MovedToNewTime, IsCancellation, EventOf, Settler, CorrelationOf;
    var k :| 0 <= k < |queue| && queue[k] == n;
    OwnVerdict(n, env);
    SettledByTurn(queue, env, k);
    SettlerStays(queue, env, n.offer.id, k + 1, |queue|);
    var i := Settler(queue, env, n.offer.id, |queue|).value;
    if queue[i] != n {
      assert queue[i] in queue;
      QueuedRow(s, queue, queue[i]);
      QueuedRow(s, queue, n);
      OthersVerdict(queue[i], env, n.offer.id);
    }
  }

  lemma SettledByTurn(queue: seq<Row>, env: Env, k: nat)
    requires k < |queue| && Decided(queue[k], env).Some?
    ensures Settler(queue, env, queue[k].offer.id, k + 1).Some?
  {
    hide Decided;
  }

  lemma {:induction false} SettlerStays(queue: seq<Row>, env: Env, id: string, k: nat, m: nat)
    requires k <= m <= |queue| && Settler(queue, env, id, k).Some?
    ensures Settler(queue, env, id, m) == Settler(queue, env, id, k)
    decreases m
  {
    hide Decided;
    if k < m { SettlerStays(queue, env, id, k, m - 1); }
  }

  /** What a located successor's own answer decides, about itself and about its original. */
  lemma OwnVerdict(n: Row, env: Env)
    requires n.offer.rescheduleOf.Some? && n.offer.rescheduleOf.value != "" && Located(n, env)
             && n.selectedStartsAt.Some?
    ensures Decided(n, env).Some?
    ensures var d := Decided(n, env).value;
            && (IsCancellation(n) ==>
                  d.also.None? && d.status == if EventOf(n, env).cancelled then Cancelled else Booked)
            && (!IsCancellation(n) ==>
                  && d.status == (if MovedToNewTime(n, env) then Booked else Rejected)
                  && d.also.Some? && d.also.value.id == n.offer.rescheduleOf.value
                  && d.also.value.status == if MovedToNewTime(n, env) then Rescheduled else Booked)
  {
  }

  lemma OthersVerdict(c: Row, env: Env, id: string)
    requires c.offer.id != id && Decided(c, env).Some? && Verdict(c, Decided(c, env).value, id).Some?
    ensures c.offer.rescheduleOf == Some(id) && id != "" && !IsCancellation(c) && Located(c, env)
    ensures Verdict(c, Decided(c, env).value, id) == Some(if MovedToNewTime(c, env) then Rescheduled else Booked)
  {
  }

  /** The original has no answer of its own; it moves only with its successor. */
  lemma OriginalWaits(o: Row, env: Env)
    requires IsReschedule(o) && !Truthy(o.offer.rescheduleOf)
    ensures Decided(o, env).None?
  {
    KindsDiffer(ReasonOf(o));
  }

  lemma KindsDiffer(reason: string)
    ensures "reschedule_" <= reason || reason == "stale_rescheduling" ==>
              !("cancellation_" <= reason) && reason != "stale_cancellation_pending"
  {
    assert "cancellation_" <= reason ==> |reason| > 0 && reason[0] == 'c';
    assert "reschedule_" <= reason ==> |reason| > 0 && reason[0] == 'r';
    assert |"stale_rescheduling"| != |"stale_cancellation_pending"|;
  }

  /**
   * Who moves the original: its successor at the successor's own turn, unless that is a cancellation or comes too late.
   */
  lemma WhoSettlesTheOriginal(s: Store, queue: seq<Row>, env: Env, o: Row, n: Row)
    requires Queued(s, queue) && Pair(queue, o, n) && Located(n, env) && n.selectedStartsAt.Some?
    ensures var i := Settler(queue, env, o.offer.id, |queue|);
            if Overtaken(queue, env, n) || IsCancellation(n) then i.None? else i.Some? && queue[i.value] == n
  {
    hide Decided, Verdict, Queued, Located, IsReschedule, IsCancellation;
    WhoSettlesTheSuccessor(s, queue, env, n);
    OwnVerdict(n, env);
    OriginalVerdicts(s, queue, env, o, n);
    var j := Settler(queue, env, n.offer.id, |queue|).value;
    var i := Settler(queue, env, o.offer.id, |queue|);
    if i.Some? {
      assert queue[i.value] in queue;
      assert queue[i.value] == n;
      OwnTurn(s, queue, env, n, i.value);
    }
    if queue[j] == n && !IsCancellation(n) {
      SpokenOf(queue, env, j, o.offer.id);
    }
  }

  lemma OriginalVerdicts(s: Store, queue: seq<Row>, env: Env, o: Row, n: Row)
    requires Queued(s, queue) && Pair(queue, o, n)
    ensures forall c | c in queue && Decided(c, env).Some? && Verdict(c, Decided(c, env).value, o.offer.id).Some? ::
              c == n
    ensures Decided(n, env).Some? ==>
              (Verdict(n, Decided(n, env).value, o.offer.id).Some? <==> Decided(n, env).value.also.Some?)
  {
    OriginalWaits(o, env);
    forall c | c in queue && Decided(c, env).Some? && Verdict(c, Decided(c, env).value, o.offer.id).Some?
      ensures c == n
    {
      EvidenceStatuses(c, env);
      QueuedRow(s, queue, c);
      QueuedRow(s, queue, o);
    }
    EvidenceStatuses(n, env);
    QueuedRow(s, queue, n);
    QueuedRow(s, queue, o);
  }

  lemma QueuedRow(s: Store, queue: seq<Row>, c: Row)
    requires Queued(s, queue) && c in queue
    ensures c.offer.id in s.rows && s.rows[c.offer.id] == c
  {
  }

  /** A context that acts at its turn is its own settler. */
  lemma OwnTurn(s: Store, queue: seq<Row>, env: Env, n: Row, k: nat)
    requires k < |queue| && queue[k] == n && Acts(queue, env, k)
    ensures Settler(queue, env, n.offer.id, |queue|) == Some(k)
  {
    hide Decided;
    SettlerStays(queue, env, n.offer.id, k + 1, |queue|);
  }

  /** Whoever acts and speaks of a context is at or after its settler. */
  lemma SpokenOf(queue: seq<Row>, env: Env, k: nat, id: string)
    requires k < |queue| && Acts(queue, env, k) && Verdict(queue[k], Decided(queue[k], env).value, id).Some?
    ensures Settler(queue, env, id, |queue|).Some?
  {
    hide Decided, Verdict;
    assert Settler(queue, env, id, k + 1).Some?;
    SettlerStays(queue, env, id, k + 1, |queue|);
  }

  /**
   * Exactly when a pass leaves one member of a located pair booked. If a queued successor of the successor was decided
   * first, that one's event must not have moved; else, if the successor awaits a cancellation, its event must still be
   * confirmed; else always, in either queue order. Never are both booked.
   */
  ghost predicate OneLeftBooked(queue: seq<Row>, env: Env, n: Row)
    requires Located(n, env)
  {
    var i := Settler(queue, env, n.offer.id, |queue|);
    if Overtaken(queue, env, n) then Located(queue[i.value], env) && !MovedToNewTime(queue[i.value], env)
    else IsCancellation(n) ==> !EventOf(n, env).cancelled
  }

  lemma OneOfAPairEndsBooked(s: Store, queue: seq<Row>, env: Env, o: Row, n: Row)
    requires Faithful(s) && Queued(s, queue) && Pair(queue, o, n) && Located(n, env)
    ensures var rows := Pass(s, queue, env).store.rows;
            && o.offer.id in rows && n.offer.id in rows
            && !(rows[o.offer.id].status.Booked? && rows[n.offer.id].status.Booked?)
            && (rows[o.offer.id].status.Booked? || rows[n.offer.id].status.Booked? <==> OneLeftBooked(queue, env, n))
            && (Overtaken(queue, env, n) || IsCancellation(n) ==> rows[o.offer.id] == o)
            && (!Overtaken(queue, env, n) && IsCancellation(n) ==>
                  rows[n.offer.id].status == (if EventOf(n, env).cancelled then Cancelled else Booked))
            && (!Overtaken(queue, env, n) && !IsCancellation(n) ==>
                  && rows[n.offer.id].status == (if MovedToNewTime(n, env) then Booked else Rejected)
                  && rows[o.offer.id].status == (if MovedToNewTime(n, env) then Rescheduled else Booked))
  {
    hide Pass, Decided, Located, IsReschedule, IsCancellation, Wellformed, Settler, Acts, History, Replay, TracedStatus,
         Evidence;
    PairMembers(s, queue, o, n);
    OwnVerdict(n, env);
    WhoSettlesTheSuccessor(s, queue, env, n);
    WhoSettlesTheOriginal(s, queue, env, o, n);
    assert queue[..|queue|] == queue;
    FirstEvidenceDecides(s, queue, env, n.offer.id, |queue|);
    FirstEvidenceDecides(s, queue, env, o.offer.id, |queue|);
  }

  lemma PairMembers(s: Store, queue: seq<Row>, o: Row, n: Row)
    requires Faithful(s) && Queued(s, queue) && Pair(queue, o, n)
    ensures Keyed(s) && o.offer.id != n.offer.id && o.status.VerificationRequired? && n.status.VerificationRequired?
    ensures o.offer.id in s.rows && s.rows[o.offer.id] == o && n.offer.id in s.rows && s.rows[n.offer.id] == n
    ensures n.selectedStartsAt.Some?
  {
  }

  /**
   * A context is overtaken exactly when a queued successor of its own acts before its turn: one that awaits no
   * cancellation, whose event has a start, and that nobody moved before its own turn.
   */
  lemma OvertakenExactlyWhen(s: Store, queue: seq<Row>, env: Env, n: Row, at: nat)
    requires Faithful(s) && Queued(s, queue) && at < |queue| && queue[at] == n
    requires Truthy(n.offer.rescheduleOf) && Located(n, env)
    ensures Overtaken(queue, env, n) <==>
              exists k :: 0 <= k < at && Acts(queue, env, k) && queue[k].offer.rescheduleOf == Some(n.offer.id)
                          && n.offer.id != "" && !IsCancellation(queue[k]) && Located(queue[k], env)
  {
    hide Decided, Verdict, Located, MovedToNewTime, IsCancellation, EventOf, Settler, CorrelationOf, Wellformed,
         History, Replay, Acts;
    QueuedRow(s, queue, n);
    WhoSettlesTheSuccessor(s, queue, env, n);
    var i := Settler(queue, env, n.offer.id, |queue|).value;
    OwnVerdict(n, env);
    SettledByTurn(queue, env, at);
    SettlerStays(queue, env, n.offer.id, at + 1, |queue|);
    assert queue[i] != n ==> i < at && Acts(queue, env, i);
    if k :| 0 <= k < at && Acts(queue, env, k) && queue[k].offer.rescheduleOf == Some(n.offer.id)
            && n.offer.id != "" && !IsCancellation(queue[k]) && Located(queue[k], env) {
      assert queue[k] in queue;
      QueuedRow(s, queue, queue[k]);
      SuccessorSpeaks(queue[k], env, n.offer.id);
      SpokenOf(queue, env, k, n.offer.id);
      SettlerWithin(queue, env, k, n.offer.id);
      assert queue[i].offer.id != queue[at].offer.id;
    }
  }

  lemma SuccessorSpeaks(c: Row, env: Env, id: string)
    requires c.offer.rescheduleOf == Some(id) && id != "" && !IsCancellation(c) && Located(c, env)
             && c.selectedStartsAt.Some?
    ensures Decided(c, env).Some? && Verdict(c, Decided(c, env).value, id).Some?
  {
    OwnVerdict(c, env);
  }

  lemma SettlerWithin(queue: seq<Row>, env: Env, k: nat, id: string)
    requires k < |queue| && Acts(queue, env, k) && Verdict(queue[k], Decided(queue[k], env).value, id).Some?
    ensures Settler(queue, env, id, |queue|).Some? && Settler(queue, env, id, |queue|).value <= k
  {
    hide Decided, Verdict;
    assert Settler(queue, env, id, k + 1).Some?;
    SettlerStays(queue, env, id, k + 1, |queue|);
  }

  /** A context without queued successors acts exactly when it has an answer. */
  lemma ActsAlone(queue: seq<Row>, env: Env, k: nat)
    requires k < |queue| && forall c | c in queue && c != queue[k] ::
               c.offer.rescheduleOf != Some(queue[k].offer.id) && c.offer.id != queue[k].offer.id
    requires queue[k] !in queue[..k]
    ensures Acts(queue, env, k) <==> Decided(queue[k], env).Some?
  {
    hide Decided;
    var i := Settler(queue, env, queue[k].offer.id, k);
    if i.Some? {
      assert queue[i.value] in queue && queue[..k][i.value] == queue[i.value];
      EvidenceStatuses(queue[i.value], env);
    }
  }

  // ── What an answer comes to ────────────────────────────────────────────────

  /** The row a resolution leaves. */
  predicate ResolvedAs(before: Row, after: Row, status: Status, reason: string, eventId: Option<string>, now: int) {
    after == before.(status := status, rejectionReason := Some(reason), updatedAtMs := now,
                     providerEventId := if Truthy(eventId) then eventId else before.providerEventId)
  }

  lemma ResolvedRow(s: Store, c: Row, status: Status, eventId: Option<string>, reason: string, now: int)
    requires c.offer.id in s.rows && s.rows[c.offer.id] == c && c.status.VerificationRequired?
    requires status.Booked? || status.Rejected? || status.Cancelled? || status.Rescheduled?
    ensures var op := ResolveOp(c.offer.id, status, eventId, reason);
            && Decide(s, op, now).reply.Context?
            && Apply(s, op, now).rows == s.rows[c.offer.id := Apply(s, op, now).rows[c.offer.id]]
            && ResolvedAs(c, Apply(s, op, now).rows[c.offer.id], status, reason, eventId, now)
  {
  }

  /** A context nobody earlier in the queue is a successor of has its turn as it was read. */
  lemma {:induction false} UnmovedBefore(s: Store, queue: seq<Row>, env: Env, k: nat, j: nat)
    requires Keyed(s) && Queued(s, queue) && j <= k < |queue|
    requires forall i | 0 <= i < k :: queue[i].offer.rescheduleOf != Some(queue[k].offer.id)
    ensures var t := Pass(s, queue[..j], env).store;
            Keyed(t) && queue[k].offer.id in t.rows && t.rows[queue[k].offer.id] == queue[k]
    decreases j
  {
    hide Decided, OneEffect, RowEffect, Pass, Keyed, Queued;
    var id := queue[k].offer.id;
    AsRead(s, queue, env, k);
    if j > 0 {
      var part := queue[..j];
      QueuedPrefix(s, queue, j);
      assert part[..j - 1] == queue[..j - 1] && part[j - 1] == queue[j - 1];
      UnmovedBefore(s, queue, env, k, j - 1);
      PassStep(s, part, env);
      PassKeepsRows(s, part, env);
      var before, after := Pass(s, part[..j - 1], env), Pass(s, part, env);
      AsRead(s, queue, env, j - 1);
      TwoIds(s, queue, j - 1, k);
      EffectOnRow(before, after, queue[j - 1], Decided(queue[j - 1], env), id);
      SilentOn(queue[k], after.store.rows[id], queue[j - 1], env);
    }
  }

  lemma AsRead(s: Store, queue: seq<Row>, env: Env, k: nat)
    requires Queued(s, queue) && k < |queue|
    ensures var c := queue[k]; c.offer.id in s.rows && s.rows[c.offer.id] == c && c.status.VerificationRequired?
    ensures Pass(s, queue[..0], env).store == s
  {
    assert queue[k] in queue;
  }

  lemma TwoIds(s: Store, queue: seq<Row>, i: nat, k: nat)
    requires Queued(s, queue) && i < k < |queue|
    ensures queue[i].offer.id != queue[k].offer.id
  {
  }

  lemma SilentOn(before: Row, after: Row, c: Row, env: Env)
    requires RowEffect(before, after, c, Decided(c, env)) && before.status.VerificationRequired?
    requires c.offer.id != before.offer.id && c.offer.rescheduleOf != Some(before.offer.id)
    ensures after == before
  {
    hide Decided;
    EvidenceStatuses(c, env);
  }

  /** A context that has left the queue for good is left alone by the rest of the pass. */
  lemma {:induction false} UnmovedAfter(s: Store, queue: seq<Row>, env: Env, id: string, j: nat)
    requires Keyed(s) && Queued(s, queue) && j <= |queue| && id in s.rows
    requires var t := Pass(s, queue[..j], env).store;
             id in t.rows && !t.rows[id].status.VerificationRequired? && !t.rows[id].status.Offered?
    ensures id in Pass(s, queue, env).store.rows
            && Pass(s, queue, env).store.rows[id] == Pass(s, queue[..j], env).store.rows[id]
    decreases |queue| - j
  {
    hide Pass, Decided, OneEffect;
    if j < |queue| {
      var part := queue[..j + 1];
      QueuedPrefix(s, queue, j + 1);
      assert part[..j] == queue[..j];
      PassStep(s, part, env);
      PassKeepsRows(s, part, env);
      EffectOnRow(Pass(s, part[..j], env), Pass(s, part, env), queue[j], Decided(queue[j], env), id);
      UnmovedAfter(s, queue, env, id, j + 1);
    } else {
      assert queue[..j] == queue;
    }
  }

  lemma OriginalAside(t: Tally, also: Also, now: int, id: string)
    requires Keyed(t.store) && (also.status.Booked? || also.status.Rescheduled?) && id != also.id
    requires id in t.store.rows && !t.store.rows[id].status.Offered?
    ensures var t' := ResolveOriginal(t, also, now); id in t'.store.rows && t'.store.rows[id] == t.store.rows[id]
  {
    hide ResolveOriginal;
    OriginalRow(t, also, now);
  }

  lemma OwnRound(t: Tally, c: Row, env: Env, now: int)
    requires Keyed(t.store) && c.offer.id in t.store.rows && t.store.rows[c.offer.id] == c
    requires c.status.VerificationRequired? && c.offer.rescheduleOf != Some(c.offer.id) && Decided(c, env).Some?
    ensures var d := Decided(c, env).value; var rows := One(t, c, env, now).store.rows;
            && c.offer.id in rows && ResolvedAs(c, rows[c.offer.id], d.status, d.reason, d.providerEventId, now)
            && (d.status.Booked? || d.status.Rejected? || d.status.Cancelled?)
  {
    hide Decided, Decide, ResolveOp, ResolveOriginal, Apply;
    var d := Decided(c, env).value;
    EvidenceStatuses(c, env);
    ResolvedRow(t.store, c, d.status, d.providerEventId, d.reason, now);
    ResolveRow(t.store, c.offer.id, d.status, d.providerEventId, d.reason, now);
    if d.also.Some? {
      var s1 := Apply(t.store, ResolveOp(c.offer.id, d.status, d.providerEventId, d.reason), now);
      OriginalAside(t.(store := s1, resolved := t.resolved + 1), d.also.value, now, c.offer.id);
    }
  }

  /** What a context nobody earlier in the queue speaks of ends as: its own answer decides, at its own turn. */
  lemma TurnDecides(s: Store, queue: seq<Row>, env: Env, k: nat)
    requires Keyed(s) && Queued(s, queue) && k < |queue| && Decided(queue[k], env).Some?
    requires forall j | 0 <= j <= k :: queue[j].offer.rescheduleOf != Some(queue[k].offer.id)
    ensures var d := Decided(queue[k], env).value; var rows := Pass(s, queue, env).store.rows;
            && queue[k].offer.id in rows
            && ResolvedAs(queue[k], rows[queue[k].offer.id], d.status, d.reason, d.providerEventId, env.clock(k))
  {
    hide Decided, OneEffect, Pass, One, Keyed, Queued;
    var c := queue[k];
    AsRead(s, queue, env, k);
    UnmovedBefore(s, queue, env, k, k);
    OwnRound(Pass(s, queue[..k], env), c, env, env.clock(k));
    NextTurn(s, queue, env, k);
    UnmovedAfter(s, queue, env, c.offer.id, k + 1);
  }

  lemma NextTurn(s: Store, queue: seq<Row>, env: Env, k: nat)
    requires k < |queue|
    ensures Pass(s, queue[..k + 1], env) == One(Pass(s, queue[..k], env), queue[k], env, env.clock(k))
  {
    hide One;
    var part := queue[..k + 1];
    assert part[..k] == queue[..k] && part[k] == queue[k];
  }

  /** Why a context is queued, by the reason it was left with. */
  datatype Cause = OfCancellation | OfReschedule | OfBooking

  ghost predicate QueuedFor(c: Row, cause: Cause) {
    var reason := if c.rejectionReason.Some? then c.rejectionReason.value else "";
    match cause
    case OfCancellation => "cancellation_" <= reason || reason == "stale_cancellation_pending"
    case OfReschedule => "reschedule_" <= reason || reason == "stale_rescheduling"
    case OfBooking =>
      && !("cancellation_" <= reason) && reason != "stale_cancellation_pending"
      && !("reschedule_" <= reason) && reason != "stale_rescheduling"
  }

  /** A stale context is queued for what it was doing: a booking, a cancellation or a reschedule. */
  lemma StaleContextsKeepTheirCause(s: Store, id: string, sampled: int, staleMs: int, now: int)
    requires id in s.rows && s.rows[id].offer.id == id && s.rows[id].updatedAtMs <= sampled - staleMs
    requires s.rows[id].status.InProgress? || s.rows[id].status.CancellationPending? || s.rows[id].status.Rescheduling?
    ensures var after := Apply(s, FlipStale(id, sampled, staleMs), now).rows;
            && id in after && after[id].status.VerificationRequired?
            && (s.rows[id].status.InProgress? ==> after[id].rejectionReason == Some("stale_booking_in_progress"))
            && QueuedFor(after[id], if s.rows[id].status.InProgress? then OfBooking
                                    else if s.rows[id].status.CancellationPending? then OfCancellation
                                    else OfReschedule)
  {
    var reason := StaleReason(s.rows[id].status).value;
    assert reason[0] == 's';
    assert "cancellation_"[0] == 'c' && "reschedule_"[0] == 'r';
    if s.rows[id].status.InProgress? {
      assert reason[6] == 'b';
      assert "stale_cancellation_pending"[6] == 'c' && "stale_rescheduling"[6] == 'r';
    }
  }

  /** The provider of a context was asked for the event under this id, and gave this answer. */
  predicate Answers(env: Env, c: Row, correlation: string, answer: Answer) {
    && c.offer.providerKey.Some? && c.offer.providerKey.value != "" && c.calendarRef.Some? && c.calendarRef.value != ""
    && c.offer.providerKey.value in env.providers
    && answer == env.ask(c.offer.providerKey.value, c.calendarRef.value, correlation)
  }

  /**
   * The evidence table, read off whole passes. A booking of unknown outcome ends booked, with the event's id, exactly
   * if its event is there uncancelled, and rejected if the provider answers otherwise; a cancellation of unknown
   * outcome ends cancelled exactly if its event is gone or cancelled, and booked otherwise.
   */
  lemma AnswersDecide(s: Store, queue: seq<Row>, env: Env, k: nat, answer: Answer)
    requires Keyed(s) && Queued(s, queue) && k < |queue| && queue[k].offer.rescheduleOf.None?
    requires Answers(env, queue[k], queue[k].offer.id, answer) && !answer.Unreachable?
    requires forall j | 0 <= j < k :: queue[j].offer.rescheduleOf != Some(queue[k].offer.id)
    requires !QueuedFor(queue[k], OfReschedule)
    ensures queue[k].offer.id in Pass(s, queue, env).store.rows
    ensures var c := queue[k]; var after := Pass(s, queue, env).store.rows[c.offer.id];
            var there := answer.Event? && !answer.cancelled;
            && (QueuedFor(c, OfBooking) ==>
                  if there
                  then ResolvedAs(c, after, Booked, "reconciled_event_found", answer.providerEventId, env.clock(k))
                  else ResolvedAs(c, after, Rejected, "reconciled_no_event_found", None, env.clock(k)))
            && (QueuedFor(c, OfCancellation) ==>
                  if there
                  then ResolvedAs(c, after, Booked, "reconciled_event_still_confirmed", None, env.clock(k))
                  else ResolvedAs(c, after, Cancelled, "reconciled_event_gone", None, env.clock(k)))
  {
    hide Pass, ResolvedAs, Decided, Keyed, Queued, QueuedFor, Answers;
    AnswerTable(queue[k], env, answer);
    TurnDecides(s, queue, env, k);
  }

  lemma AnswerTable(c: Row, env: Env, answer: Answer)
    requires c.offer.rescheduleOf.None? && Answers(env, c, c.offer.id, answer) && !answer.Unreachable?
    requires !QueuedFor(c, OfReschedule)
    ensures var there := answer.Event? && !answer.cancelled;
            && Decided(c, env).Some?
            && (QueuedFor(c, OfBooking) ==>
                  Decided(c, env).value
                  == if there then Resolution(Booked, "reconciled_event_found", answer.providerEventId, None)
                     else Resolution(Rejected, "reconciled_no_event_found", None, None))
            && (QueuedFor(c, OfCancellation) ==>
                  Decided(c, env).value
                  == if there then Resolution(Booked, "reconciled_event_still_confirmed", None, None)
                     else Resolution(Cancelled, "reconciled_event_gone", None, None))
  {
    KindsDiffer(ReasonOf(c));
  }

  /**
   * And a successor of unknown outcome, whose event is its original's: booked, with the event's id, exactly if the
   * event sits at the successor's own time, and rejected if it starts at another.
   */
  lemma SuccessorsAnswerDecides(s: Store, queue: seq<Row>, env: Env, k: nat, original: string, answer: Answer)
    requires Keyed(s) && Queued(s, queue) && k < |queue| && queue[k].offer.rescheduleOf == Some(original)
    requires original != "" && original != queue[k].offer.id && !QueuedFor(queue[k], OfCancellation)
    requires Answers(env, queue[k], original, answer) && answer.Event? && answer.startsAt.Some?
    requires queue[k].selectedStartsAt.Some?
    requires forall j | 0 <= j < k :: queue[j].offer.rescheduleOf != Some(queue[k].offer.id)
    ensures queue[k].offer.id in Pass(s, queue, env).store.rows
    ensures var c := queue[k]; var after := Pass(s, queue, env).store.rows[c.offer.id];
            if answer.startsAt.value.ms == c.selectedStartsAt
            then ResolvedAs(c, after, Booked, "reconciled_event_at_new_time", answer.providerEventId, env.clock(k))
            else ResolvedAs(c, after, Rejected, "reconciled_event_not_moved", None, env.clock(k))
  {
    hide Pass, ResolvedAs, Decided, Keyed, Queued, QueuedFor, Answers;
    SuccessorTable(queue[k], env, original, answer);
    TurnDecides(s, queue, env, k);
  }

  lemma SuccessorTable(c: Row, env: Env, original: string, answer: Answer)
    requires c.offer.rescheduleOf == Some(original) && original != "" && !QueuedFor(c, OfCancellation)
    requires Answers(env, c, original, answer) && answer.Event? && answer.startsAt.Some? && c.selectedStartsAt.Some?
    ensures var moved := answer.startsAt.value.ms == c.selectedStartsAt;
            && Decided(c, env).Some?
            && var d := Decided(c, env).value;
               && d.status == (if moved then Booked else Rejected)
               && d.reason == (if moved then "reconciled_event_at_new_time" else "reconciled_event_not_moved")
               && d.providerEventId == (if moved then answer.providerEventId else None)
               && d.also == Some(Also(original, if moved then Rescheduled else Booked, d.reason))
  {
  }

  /**
   * The original a successor replaces, if it is queued too, is settled in the same round and for the same reason:
   * rescheduled if the event has moved, booked if it has not; its own event id stays.
   */
  lemma OriginalIsSettledToo(t: Tally, c: Row, original: Row, env: Env, now: int, answer: Answer)
    requires Keyed(t.store) && c.offer.id in t.store.rows && t.store.rows[c.offer.id] == c
    requires original.offer.id in t.store.rows && t.store.rows[original.offer.id] == original
    requires c.status.VerificationRequired? && original.status.VerificationRequired?
    requires original.offer.id != "" && original.offer.id != c.offer.id
    requires c.offer.rescheduleOf == Some(original.offer.id) && !QueuedFor(c, OfCancellation)
    requires Answers(env, c, original.offer.id, answer) && answer.Event? && answer.startsAt.Some?
    requires c.selectedStartsAt.Some?
    ensures var rows := One(t, c, env, now).store.rows; var id := original.offer.id;
            && id in rows
            && if answer.startsAt.value.ms == c.selectedStartsAt
               then ResolvedAs(original, rows[id], Rescheduled, "reconciled_event_at_new_time", None, now)
               else ResolvedAs(original, rows[id], Booked, "reconciled_event_not_moved", None, now)
  {
    hide Decided, ResolvedAs, QueuedFor, Answers, ResolveOp;
    SuccessorTable(c, env, original.offer.id, answer);
    var d := Decided(c, env).value;
    ResolveRow(t.store, c.offer.id, d.status, d.providerEventId, d.reason, now);
    var s1 := Apply(t.store, ResolveOp(c.offer.id, d.status, d.providerEventId, d.reason), now);
    assert s1.rows[original.offer.id] == original;
    assert Apply(s1, Op.Get(original.offer.id), now) == s1;
    ResolvedRow(s1, original, d.also.value.status, None, d.also.value.reason, now);
  }

  /** Nobody to ask, no answer, or an answer that decides nothing. */
  ghost predicate NoEvidence(c: Row, env: Env) {
    var asked := if c.offer.rescheduleOf.Some? then c.offer.rescheduleOf.value else c.offer.id;
    || (forall answer :: !Answers(env, c, asked, answer))
    || (exists answer :: Answers(env, c, asked, answer) && Indecisive(c, answer))
  }

  /** Unreachable, a reschedule that does not say of what, or a successor whose event cannot be located. */
  ghost predicate Indecisive(c: Row, answer: Answer) {
    || answer.Unreachable?
    || (QueuedFor(c, OfReschedule) && c.offer.rescheduleOf.None?)
    || (!QueuedFor(c, OfCancellation) && c.offer.rescheduleOf.Some? && c.offer.rescheduleOf.value != ""
        && (!answer.Event? || answer.startsAt.None?))
  }

  /**
   * Without an answer nothing is resolved: where the provider is unknown or cannot be reached, and where a reschedule's
   * event says nothing about a successor, a context nobody else speaks of stays exactly as it is.
   */
  lemma WithoutEvidenceNothingMoves(s: Store, queue: seq<Row>, env: Env, k: nat)
    requires Keyed(s) && Queued(s, queue) && k < |queue|
    requires NoEvidence(queue[k], env)
    requires forall j | 0 <= j < |queue| :: queue[j].offer.rescheduleOf != Some(queue[k].offer.id)
    ensures var rows := Pass(s, queue, env).store.rows;
            queue[k].offer.id in rows && rows[queue[k].offer.id] == queue[k]
  {
    hide Pass, Decided, Keyed, Queued, NoEvidence;
    NoTable(queue[k], env);
    UndecidedStays(s, queue, env, k, |queue|);
    assert queue[..|queue|] == queue;
  }

  lemma NoTable(c: Row, env: Env)
    requires NoEvidence(c, env)
    ensures Decided(c, env).None?
  {
    KindsDiffer(ReasonOf(c));
    if Decided(c, env).Some? {
      var answer := env.ask(c.offer.providerKey.value, c.calendarRef.value, CorrelationOf(c));
      assert Answers(env, c, CorrelationOf(c), answer);
    }
  }

  /** A context the pass has no answer for, and that nobody else speaks of, stays as it is. */
  lemma {:induction false} UndecidedStays(s: Store, queue: seq<Row>, env: Env, k: nat, j: nat)
    requires Keyed(s) && Queued(s, queue) && k < |queue| && j <= |queue| && Decided(queue[k], env).None?
    requires forall i | 0 <= i < |queue| :: queue[i].offer.rescheduleOf != Some(queue[k].offer.id)
    ensures var rows := Pass(s, queue[..j], env).store.rows;
            queue[k].offer.id in rows && rows[queue[k].offer.id] == queue[k]
    decreases j
  {
    hide Decided, OneEffect, One, RowEffect, Pass;
    var id := queue[k].offer.id;
    assert queue[k] in queue;
    var part := queue[..j];
    QueuedPrefix(s, queue, j);
    PassKeepsRows(s, part, env);
    if j > 0 {
      assert part[..j - 1] == queue[..j - 1] && part[j - 1] == queue[j - 1];
      UndecidedStays(s, queue, env, k, j - 1);
      PassStep(s, part, env);
      var before, after := Pass(s, part[..j - 1], env), Pass(s, part, env);
      EffectOnRow(before, after, queue[j - 1], Decided(queue[j - 1], env), id);
      if j - 1 == k { SilentOnItself(queue[k], after.store.rows[id], env); }
      else { SilentOn(queue[k], after.store.rows[id], queue[j - 1], env); }
    } else {
      PassStart(s, queue, env);
      assert queue[..0] == [];
    }
  }

  lemma SilentOnItself(c: Row, after: Row, env: Env)
    requires RowEffect(c, after, c, Decided(c, env)) && Decided(c, env).None? && c.status.VerificationRequired?
    ensures after == c
  {
  }

  // ── The two ways a pair ends with neither booked ───────────────────────────

  /** A context that was claimed and left ambiguous for the given reason. */
  function LeftAmbiguous(o: Offer, ms: int, reason: string): seq<Op> {
    [Create(o), Claim(o.id, ms), Complete(o.id, VerificationRequired, None, Some(reason), "caller-flow")]
  }

  predicate Bookable(o: Offer, ms: int, env: Env, now: int) {
    && RouteProblemOf(o).None? && now < o.expiresAtMs && o.id != ""
    && Truthy(BoundCalendar(Fresh(o, now), ms)) && Truthy(o.providerKey) && o.providerKey.value in env.providers
  }

  function Ambiguous(o: Offer, ms: int, reason: string, now: int): Row {
    Row(o, VerificationRequired, BoundCalendar(Fresh(o, now), ms), Some(ms), None, Some(reason), now)
  }

  lemma AmbiguityReached(s: Store, o: Offer, ms: int, reason: string, env: Env, now: int)
    requires Faithful(s) && Bookable(o, ms, env, now) && o.id !in s.rows && o.tokenHash !in s.byHash
    requires forall id | id in s.rows :: s.rows[id].status.VerificationRequired?
    ensures var t := Run(s, AllAt(LeftAmbiguous(o, ms, reason), now));
            && Faithful(t) && t.rows == s.rows[o.id := Ambiguous(o, ms, reason, now)]
            && t.byHash == s.byHash[o.tokenHash := o.id] && t.order == s.order + [o.id]
  {
    hide Decide, Commit, Apply, RouteProblemOf, Fresh, BoundCalendar, Run, AllAt, Faithful;
    var ops := LeftAmbiguous(o, ms, reason);
    BookedOnce(s, o, ms, VerificationRequired, Some(reason), now);
    var s1 := Apply(s, ops[0], now);
    var s2 := Apply(s1, ops[1], now);
    var s3 := Apply(s2, ops[2], now);
    RunUnfolds(ops, now, [s, s1, s2, s3]);
    AuditReplayEqualsState(s, AllAt(ops, now));
  }

  lemma LastOfChain(s: Store, queue: seq<Row>, env: Env, n: Row, i: nat, j: nat)
    requires Faithful(s) && Queued(s, queue) && i < j < |queue| && queue[j] == n && Truthy(n.offer.rescheduleOf)
             && Located(n, env)
    requires queue[i].offer.rescheduleOf == Some(n.offer.id) && n.offer.id != "" && !IsCancellation(queue[i])
             && Located(queue[i], env)
    requires forall c | c in queue && c != queue[i] ::
               c.offer.rescheduleOf != Some(n.offer.id) && c.offer.rescheduleOf != Some(queue[i].offer.id)
    ensures Overtaken(queue, env, n) && Settler(queue, env, n.offer.id, |queue|) == Some(i)
  {
    hide Decided, Verdict, Located, Settler, Acts, IsCancellation, Wellformed, History, Replay, TracedStatus, Evidence;
    assert queue[i] in queue;
    QueuedIds(s, queue, i, queue[i]);
    forall c | c in queue && c != queue[i] ensures c.offer.id != queue[i].offer.id { QueuedRow(s, queue, c); }
    OwnVerdict(queue[i], env);
    ActsAlone(queue, env, i);
    OvertakenExactlyWhen(s, queue, env, n, j);
    WhoSettlesTheSuccessor(s, queue, env, n);
    var k := Settler(queue, env, n.offer.id, |queue|).value;
    assert queue[k] in queue;
  }

  lemma NoSuccessorOfSuccessor(s: Store, queue: seq<Row>, env: Env, n: Row)
    requires Faithful(s) && Queued(s, queue) && n in queue && Truthy(n.offer.rescheduleOf) && Located(n, env)
    requires forall id | id in s.rows && s.rows[id].status.VerificationRequired? ::
               s.rows[id].offer.rescheduleOf != Some(n.offer.id)
    ensures !Overtaken(queue, env, n)
  {
    hide Decided, Verdict, Located, Settler, Wellformed, History, Replay, Acts;
    QueuedRow(s, queue, n);
    WhoSettlesTheSuccessor(s, queue, env, n);
    var i := Settler(queue, env, n.offer.id, |queue|).value;
    assert queue[i] in queue;
    QueuedRow(s, queue, queue[i]);
  }

  lemma ReasonKinds()
    ensures "reschedule_" <= "reschedule_timeout" && "cancellation_" <= "cancellation_timeout"
            && !("cancellation_" <= "reschedule_timeout")
  {
    KindsDiffer("reschedule_timeout");
  }

  // ── Repetition ─────────────────────────────────────────────────────────────

  /**
   * A pass leaves the store alone exactly when it can decide nothing in its queue; it then leaves everything queued.
   */
  lemma {:induction false} QuietExactlyWhenUndecided(s: Store, queue: seq<Row>, env: Env)
    requires Keyed(s) && Queued(s, queue)
    ensures Pass(s, queue, env).store == s <==> forall c | c in queue :: Decided(c, env).None?
    ensures (forall c | c in queue :: Decided(c, env).None?) ==> Pass(s, queue, env) == Tally(s, 0, |queue|, 0)
  {
    hide One, Decided;
    if queue != [] {
      var n := |queue| - 1;
      var prefix := queue[..n];
      assert forall c | c in prefix :: c in queue;
      assert queue[n] in queue;
      PassStep(s, queue, env);
      QuietExactlyWhenUndecided(s, prefix, env);
      assert forall c | c in queue :: c in prefix || c == queue[n];
      if exists c | c in queue :: Decided(c, env).Some? {
        var c :| c in queue && Decided(c, env).Some?;
        DecidedLeaveTheQueue(s, queue, env, c);
      }
    }
  }

  /**
   * Every decided context of the queue is out of verification_required after the pass; every other one that is still
   * there is unchanged.
   */
  lemma {:induction false} DecidedLeaveTheQueue(s: Store, queue: seq<Row>, env: Env, c: Row)
    requires Keyed(s) && Queued(s, queue) && c in queue
    ensures c.offer.id in Pass(s, queue, env).store.rows
    ensures var after := Pass(s, queue, env).store.rows[c.offer.id];
            && (Decided(c, env).Some? ==> !after.status.VerificationRequired?)
            && (after.status.VerificationRequired? ==> after == c)
  {
    hide Pass, One, Decided, OneEffect, Keyed, Queued, Justified;
    var n := |queue| - 1;
    var prefix := queue[..n];
    var id := c.offer.id;
    PassStep(s, queue, env);
    PassKeepsRows(s, queue, env);
    QueuedIds(s, queue, n, c);
    assert queue[..n + 1] == queue;
    assert prefix == queue[..n];
    EvidenceStatuses(queue[n], env);
    OnlyEvidenceResolves(s, prefix, env, id);
    JustifiedStatusesAreFinal(prefix, env, id);
    EffectOnRow(Pass(s, prefix, env), Pass(s, queue, env), queue[n], Decided(queue[n], env), id);
    if c in prefix {
      DecidedLeaveTheQueue(s, prefix, env, c);
    }
  }

  lemma JustifiedStatusesAreFinal(queue: seq<Row>, env: Env, id: string)
    ensures forall status :: Justified(queue, env, id, status) ==>
              status.Booked? || status.Rejected? || status.Cancelled? || status.Rescheduled?
  {
    forall c | c in queue { EvidenceStatuses(c, env); }
  }

  /** The whole queue, whatever its order. */
  ghost predicate WholeQueue(s: Store, queue: seq<Row>) {
    Queued(s, queue) && forall id | id in s.rows && s.rows[id].status.VerificationRequired? :: s.rows[id] in queue
  }

  /** Two passes hear the same answers, whenever they run. */
  ghost predicate SameAnswers(env: Env, env': Env) {
    env.providers == env'.providers && env.ask == env'.ask
  }

  lemma SameDecisions(env: Env, env': Env, c: Row)
    requires SameAnswers(env, env')
    ensures Decided(c, env) == Decided(c, env')
  {
    hide Evidence;
  }

  /** After a pass over the whole queue, a second pass with the same answers changes nothing at all. */
  lemma SecondPassChangesNothing(s: Store, queue: seq<Row>, env: Env, queue': seq<Row>, env': Env)
    requires Keyed(s) && WholeQueue(s, queue) && SameAnswers(env, env')
    requires Queued(Pass(s, queue, env).store, queue')
    ensures Pass(Pass(s, queue, env).store, queue', env') == Tally(Pass(s, queue, env).store, 0, |queue'|, 0)
  {
    hide Pass, Decided;
    var s' := Pass(s, queue, env).store;
    PassKeepsRows(s, queue, env);
    forall c | c in queue' ensures Decided(c, env').None? {
      SameDecisions(env, env', c);
      OnlyEvidenceResolves(s, queue, env, c.offer.id);
      assert s.rows[c.offer.id].status.VerificationRequired?;
      DecidedLeaveTheQueue(s, queue, env, s.rows[c.offer.id]);
    }
    QuietExactlyWhenUndecided(s', queue', env');
  }

  /**
   * A truncated queue weakens that: the second pass is quiet exactly when it can decide none of the contexts the first
   * one did not reach.
   */
  lemma TruncatedSecondPass(s: Store, queue: seq<Row>, env: Env, queue': seq<Row>, env': Env)
    requires Keyed(s) && Queued(s, queue) && SameAnswers(env, env')
    requires Queued(Pass(s, queue, env).store, queue')
    ensures Pass(Pass(s, queue, env).store, queue', env').store == Pass(s, queue, env).store
            <==> forall c | c in queue' && c !in queue :: Decided(c, env).None?
  {
    hide Pass, Decided;
    var s' := Pass(s, queue, env).store;
    PassKeepsRows(s, queue, env);
    forall c | c in queue' ensures Decided(c, env') == Decided(c, env) && (c in queue ==> Decided(c, env).None?) {
      SameDecisions(env, env', c);
      if c in queue { DecidedLeaveTheQueue(s, queue, env, c); }
    }
    QuietExactlyWhenUndecided(s', queue', env');
  }

  // ── The pass as the service runs it ────────────────────────────────────────

  function Snapshot(rows: map<string, Row>, ids: seq<string>): seq<Row>
    requires forall id | id in ids :: id in rows
  {
    seq(|ids|, i requires 0 <= i < |ids| => assert ids[i] in ids; rows[ids[i]])
  }

  /** The queue a pass reads: the oldest `limit` contexts awaiting verification. */
  ghost function QueueOf(s: Store, limit: nat): seq<Row>
    requires Wellformed(s)
  {
    var all := OldestFirst(s.rows, s.order, VerificationRequired, None);
    Snapshot(s.rows, if |all| <= limit then all else all[..limit])
  }

  lemma QueueIsQueued(s: Store, limit: nat)
    requires Wellformed(s)
    ensures Queued(s, QueueOf(s, limit))
    ensures |OldestFirst(s.rows, s.order, VerificationRequired, None)| <= limit ==> WholeQueue(s, QueueOf(s, limit))
  {
    var all := OldestFirst(s.rows, s.order, VerificationRequired, None);
    OldestFirstIsAnOrderedListing(s.rows, s.order, VerificationRequired, None);
    var ids := if |all| <= limit then all else all[..limit];
    forall i | 0 <= i < |ids|
      ensures ids[i] in s.rows && s.rows[ids[i]].status.VerificationRequired? && QueueOf(s, limit)[i] == s.rows[ids[i]]
    {
      assert ids[i] in ids && ids[i] in all;
    }
    if |all| <= limit {
      forall id | id in s.rows && s.rows[id].status.VerificationRequired? ensures s.rows[id] in QueueOf(s, limit) {
        assert id in all;
        var i :| 0 <= i < |ids| && ids[i] == id;
        assert QueueOf(s, limit)[i] == s.rows[id];
      }
    }
  }

  lemma {:induction false} PassKeepsFaithful(s: Store, queue: seq<Row>, env: Env)
    requires Faithful(s)
    ensures Faithful(Pass(s, queue, env).store)
  {
    hide Faithful, Decide, Apply, Decided, ResolveOp;
    if queue != [] {
      var n := |queue| - 1;
      var c, now := queue[n], env.clock(n);
      PassKeepsFaithful(s, queue[..n], env);
      var t := Pass(s, queue[..n], env);
      if Decided(c, env).Some? {
        var d := Decided(c, env).value;
        var op := ResolveOp(c.offer.id, d.status, d.providerEventId, d.reason);
        StepKeepsFaithful(t.store, op, now);
        if d.also.Some? {
          var s1 := Apply(t.store, op, now);
          StepKeepsFaithful(s1, Op.Get(d.also.value.id), now);
          StepKeepsFaithful(Apply(s1, Op.Get(d.also.value.id), now),
                            ResolveOp(d.also.value.id, d.also.value.status, None, d.also.value.reason), now);
        }
      }
    }
  }

  /**
   * Reconciling twice with the same answers: when the first reading of the queue was not cut off by its limit, the
   * second call changes nothing and leaves everything it reads, whatever it reads and whenever it runs.
   */
  lemma SecondReconcileChangesNothing(s: Store, limit: nat, env: Env, limit': nat, env': Env)
    requires Faithful(s) && SameAnswers(env, env')
    requires |OldestFirst(s.rows, s.order, VerificationRequired, None)| <= limit
    ensures var t := Pass(s, QueueOf(s, limit), env).store;
            Faithful(t) && Pass(t, QueueOf(t, limit'), env') == Tally(t, 0, |QueueOf(t, limit')|, 0)
  {
    hide Pass, QueueOf, OldestFirst, Wellformed, SameAnswers, History, Replay, TracedStatus;
    FaithfulIsKeyed(s);
    QueueIsQueued(s, limit);
    PassKeepsFaithful(s, QueueOf(s, limit), env);
    var t := Pass(s, QueueOf(s, limit), env).store;
    QueueIsQueued(t, limit');
    SecondPassChangesNothing(s, QueueOf(s, limit), env, QueueOf(t, limit'), env');
  }

  /**
   * And when it was cut off: the second call is quiet exactly when it can decide none of the contexts the first did not
   * read.
   */
  lemma TruncatedSecondReconcile(s: Store, limit: nat, env: Env, limit': nat, env': Env)
    requires Faithful(s) && SameAnswers(env, env')
    ensures var t := Pass(s, QueueOf(s, limit), env).store;
            && Faithful(t)
            && (Pass(t, QueueOf(t, limit'), env').store == t
                <==> forall c | c in QueueOf(t, limit') && c !in QueueOf(s, limit) :: Decided(c, env).None?)
  {
    hide Pass, QueueOf, OldestFirst, Wellformed, SameAnswers, History, Replay, TracedStatus, Decided;
    FaithfulIsKeyed(s);
    QueueIsQueued(s, limit);
    PassKeepsFaithful(s, QueueOf(s, limit), env);
    var t := Pass(s, QueueOf(s, limit), env).store;
    QueueIsQueued(t, limit');
    TruncatedSecondPass(s, QueueOf(s, limit), env, QueueOf(t, limit'), env');
  }

  /** The pair result for the queue a call reads. */
  lemma ReconcileLeavesOneBooked(s: Store, limit: nat, env: Env, o: Row, n: Row)
    requires Faithful(s) && Pair(QueueOf(s, limit), o, n) && Located(n, env)
    ensures var rows := Pass(s, QueueOf(s, limit), env).store.rows;
            && o.offer.id in rows && n.offer.id in rows
            && !(rows[o.offer.id].status.Booked? && rows[n.offer.id].status.Booked?)
            && (rows[o.offer.id].status.Booked? || rows[n.offer.id].status.Booked?
                <==> OneLeftBooked(QueueOf(s, limit), env, n))
  {
    hide Pass, QueueOf, OldestFirst, Wellformed, History, Replay, TracedStatus, Decided, Pair, Located, OneLeftBooked;
    QueueIsQueued(s, limit);
    OneOfAPairEndsBooked(s, QueueOf(s, limit), env, o, n);
  }

  /** The original is left ambiguous in a reschedule, the successor in a cancellation. */
  function StrandedByCancellation(o: Offer, n: Offer, m1: int, m2: int, t1: int, t2: int): Store {
    Run(Run(EMPTY, AllAt(LeftAmbiguous(o, m1, "reschedule_timeout"), t1)),
        AllAt(LeftAmbiguous(n, m2, "cancellation_timeout"), t2))
  }

  lemma CancellationReached(o: Offer, n: Offer, m1: int, m2: int, env: Env, t1: int, t2: int)
    requires Bookable(o, m1, env, t1) && Bookable(n, m2, env, t2) && o.id != n.id && o.tokenHash != n.tokenHash
    ensures var s := StrandedByCancellation(o, n, m1, m2, t1, t2);
            && Faithful(s) && s.order == [o.id, n.id]
            && s.rows == map[o.id := Ambiguous(o, m1, "reschedule_timeout", t1),
                             n.id := Ambiguous(n, m2, "cancellation_timeout", t2)]
  {
    hide RouteProblemOf, Fresh, BoundCalendar, Run, AllAt, Faithful, LeftAmbiguous;
    EmptyIsFaithful();
    AmbiguityReached(EMPTY, o, m1, "reschedule_timeout", env, t1);
    AmbiguityReached(Run(EMPTY, AllAt(LeftAmbiguous(o, m1, "reschedule_timeout"), t1)), n, m2, "cancellation_timeout",
                     env, t2);
  }

  /**
   * The first input: the successor's event is cancelled. A call that reads both ends the successor cancelled and
   * leaves the original waiting, whichever was left ambiguous first.
   */
  lemma CancelledSuccessorLeavesNoneBooked(o: Offer, n: Offer, m1: int, m2: int, env: Env, t1: int, t2: int, limit: nat)
    requires Bookable(o, m1, env, t1) && Bookable(n, m2, env, t2) && o.id != n.id && o.tokenHash != n.tokenHash
    requires o.rescheduleOf.None? && n.rescheduleOf == Some(o.id) && limit >= 2
    requires var a := env.ask(n.providerKey.value, BoundCalendar(Fresh(n, t2), m2).value, o.id);
             a.Event? && a.startsAt.Some? && a.cancelled
    ensures var s := StrandedByCancellation(o, n, m1, m2, t1, t2);
            && Faithful(s) && o.id in s.rows && n.id in s.rows && Pair(QueueOf(s, limit), s.rows[o.id], s.rows[n.id])
            && Located(s.rows[n.id], env)
            && var rows := Pass(s, QueueOf(s, limit), env).store.rows;
               o.id in rows && n.id in rows && rows[o.id] == s.rows[o.id] && rows[n.id].status.Cancelled?
  {
    hide Pass, Decided, Settler, Acts, RouteProblemOf, Fresh, BoundCalendar, Faithful, QueueOf, StrandedByCancellation,
         Verdict;
    CancellationReached(o, n, m1, m2, env, t1, t2);
    var s := StrandedByCancellation(o, n, m1, m2, t1, t2);
    ReasonKinds();
    CancelledWhileQueued(s, limit, env, s.rows[o.id], s.rows[n.id]);
  }

  lemma CancelledWhileQueued(s: Store, limit: nat, env: Env, o: Row, n: Row)
    requires Faithful(s) && |s.order| <= limit && o.offer.id in s.rows && s.rows[o.offer.id] == o
             && n.offer.id in s.rows && s.rows[n.offer.id] == n
    requires o.status.VerificationRequired? && n.status.VerificationRequired? && IsReschedule(o)
    requires o.offer.rescheduleOf.None? && n.offer.rescheduleOf == Some(o.offer.id) && o.offer.id != ""
    requires forall id | id in s.rows :: s.rows[id].offer.rescheduleOf != Some(n.offer.id)
    requires forall id | id in s.rows && id != n.offer.id :: s.rows[id].offer.rescheduleOf != Some(o.offer.id)
    requires Located(n, env) && IsCancellation(n) && EventOf(n, env).cancelled
    ensures Wellformed(s) && Pair(QueueOf(s, limit), o, n)
    ensures var rows := Pass(s, QueueOf(s, limit), env).store.rows;
            && o.offer.id in rows && n.offer.id in rows
            && rows[o.offer.id] == o && rows[n.offer.id].status.Cancelled?
  {
    hide Pass, Decided, Settler, Acts, Faithful, OldestFirst, QueueOf, Verdict, Located, IsCancellation, IsReschedule;
    FaithfulIsKeyed(s);
    QueueIsQueued(s, limit);
    ListingIsNoLonger(s.rows, s.order, VerificationRequired, None);
    var queue := QueueOf(s, limit);
    NoSuccessorOfSuccessor(s, queue, env, n);
    OneOfAPairEndsBooked(s, queue, env, o, n);
  }

  /** The successor has a successor of its own, left ambiguous before it, and both moves are ambiguous. */
  function StrandedByChain(c: Offer, n: Offer, o: Offer, m: seq<int>, t: seq<int>): Store
    requires |m| == |t| == 3
  {
    var s := Run(EMPTY, AllAt(LeftAmbiguous(c, m[0], "reschedule_timeout"), t[0]));
    Run(Run(s, AllAt(LeftAmbiguous(n, m[1], "reschedule_timeout"), t[1])),
        AllAt(LeftAmbiguous(o, m[2], "reschedule_timeout"), t[2]))
  }

  lemma ChainReached(c: Offer, n: Offer, o: Offer, m: seq<int>, t: seq<int>, env: Env)
    requires |m| == |t| == 3 && Bookable(c, m[0], env, t[0]) && Bookable(n, m[1], env, t[1])
             && Bookable(o, m[2], env, t[2])
    requires o.id != n.id && c.id != o.id && c.id != n.id
    requires o.tokenHash != n.tokenHash && c.tokenHash != o.tokenHash && c.tokenHash != n.tokenHash
    ensures var s := StrandedByChain(c, n, o, m, t);
            && Faithful(s) && s.order == [c.id, n.id, o.id]
            && s.rows == map[c.id := Ambiguous(c, m[0], "reschedule_timeout", t[0]),
                             n.id := Ambiguous(n, m[1], "reschedule_timeout", t[1]),
                             o.id := Ambiguous(o, m[2], "reschedule_timeout", t[2])]
  {
    hide RouteProblemOf, Fresh, BoundCalendar, Run, AllAt, Faithful, LeftAmbiguous;
    EmptyIsFaithful();
    var s1 := Run(EMPTY, AllAt(LeftAmbiguous(c, m[0], "reschedule_timeout"), t[0]));
    AmbiguityReached(EMPTY, c, m[0], "reschedule_timeout", env, t[0]);
    AmbiguityReached(s1, n, m[1], "reschedule_timeout", env, t[1]);
    AmbiguityReached(Run(s1, AllAt(LeftAmbiguous(n, m[1], "reschedule_timeout"), t[1])), o, m[2],
                     "reschedule_timeout", env, t[2]);
  }

  /**
   * The second input: the later successor is read before the earlier one, and its event is at its new time. The earlier
   * one ends rescheduled before its turn, and the original keeps waiting.
   */
  lemma OvertakenSuccessorLeavesNoneBooked(c: Offer, n: Offer, o: Offer, m: seq<int>, t: seq<int>, env: Env, limit: nat)
    requires |m| == |t| == 3 && Bookable(c, m[0], env, t[0]) && Bookable(n, m[1], env, t[1])
             && Bookable(o, m[2], env, t[2])
    requires t[0] <= t[1] <= t[2] && limit >= 3
    requires o.id != n.id && c.id != o.id && c.id != n.id
    requires o.tokenHash != n.tokenHash && c.tokenHash != o.tokenHash && c.tokenHash != n.tokenHash
    requires o.rescheduleOf.None? && n.rescheduleOf == Some(o.id) && c.rescheduleOf == Some(n.id)
    requires var a := env.ask(n.providerKey.value, BoundCalendar(Fresh(n, t[1]), m[1]).value, o.id);
             a.Event? && a.startsAt.Some?
    requires var a := env.ask(c.providerKey.value, BoundCalendar(Fresh(c, t[0]), m[0]).value, n.id);
             a.Event? && a.startsAt.Some? && a.startsAt.value.ms == Some(m[0])
    ensures var s := StrandedByChain(c, n, o, m, t);
            && Faithful(s) && c.id in s.rows && n.id in s.rows && o.id in s.rows
            && QueueOf(s, limit) == [s.rows[c.id], s.rows[n.id], s.rows[o.id]]
            && Pair(QueueOf(s, limit), s.rows[o.id], s.rows[n.id]) && Located(s.rows[n.id], env)
            && var rows := Pass(s, QueueOf(s, limit), env).store.rows;
               o.id in rows && n.id in rows && rows[o.id] == s.rows[o.id] && !rows[n.id].status.Booked?
  {
    hide Pass, Decided, Settler, Acts, RouteProblemOf, Fresh, BoundCalendar, Faithful, QueueOf, StrandedByChain;
    ChainReached(c, n, o, m, t, env);
    var s := StrandedByChain(c, n, o, m, t);
    ReasonKinds();
    OvertakenWhileQueued(s, limit, env, s.rows[c.id], s.rows[n.id], s.rows[o.id]);
  }

  /** What was left ambiguous in the order it was offered is read in that order. */
  lemma QueueAsOffered(s: Store, limit: nat)
    requires Wellformed(s) && |s.order| <= limit
             && (forall id | id in s.order :: s.rows[id].status.VerificationRequired?)
    requires Sorted(s.rows, s.order)
    ensures |QueueOf(s, limit)| == |s.order|
    ensures forall i | 0 <= i < |s.order| :: QueueOf(s, limit)[i] == s.rows[s.order[i]]
  {
    hide OldestFirst;
    ListedAsOffered(s.rows, s.order, VerificationRequired, None);
  }

  lemma OvertakenWhileQueued(s: Store, limit: nat, env: Env, c: Row, n: Row, o: Row)
    requires Faithful(s) && s.order == [c.offer.id, n.offer.id, o.offer.id] && limit >= 3
    requires s.rows == map[c.offer.id := c, n.offer.id := n, o.offer.id := o]
    requires c.offer.id != n.offer.id && c.offer.id != o.offer.id && n.offer.id != o.offer.id
    requires c.updatedAtMs <= n.updatedAtMs <= o.updatedAtMs
    requires c.status.VerificationRequired? && n.status.VerificationRequired? && o.status.VerificationRequired?
    requires IsReschedule(o) && !IsCancellation(c) && o.offer.id != "" && n.offer.id != ""
    requires o.offer.rescheduleOf.None? && n.offer.rescheduleOf == Some(o.offer.id)
             && c.offer.rescheduleOf == Some(n.offer.id)
    requires Located(n, env) && Located(c, env) && c.selectedStartsAt.Some? && MovedToNewTime(c, env)
    ensures Wellformed(s) && QueueOf(s, limit) == [c, n, o] && Pair([c, n, o], o, n)
    ensures var rows := Pass(s, [c, n, o], env).store.rows;
            && o.offer.id in rows && n.offer.id in rows && rows[o.offer.id] == o && !rows[n.offer.id].status.Booked?
  {
    hide Pass, Faithful, QueueOf, Located, IsCancellation, IsReschedule, MovedToNewTime, Wellformed, Queued, Pair;
    ThreeQueued(s, limit, c, n, o);
    OvertakenInQueue(s, env, c, n, o);
  }

  lemma ThreeQueued(s: Store, limit: nat, c: Row, n: Row, o: Row)
    requires Faithful(s) && s.order == [c.offer.id, n.offer.id, o.offer.id] && limit >= 3
    requires s.rows == map[c.offer.id := c, n.offer.id := n, o.offer.id := o]
    requires c.offer.id != n.offer.id && c.offer.id != o.offer.id && n.offer.id != o.offer.id
    requires c.updatedAtMs <= n.updatedAtMs <= o.updatedAtMs
    requires c.status.VerificationRequired? && n.status.VerificationRequired? && o.status.VerificationRequired?
    ensures Wellformed(s) && QueueOf(s, limit) == [c, n, o] && Queued(s, [c, n, o])
  {
    hide Faithful, QueueOf, Wellformed, Sorted, Queued;
    FaithfulIsKeyed(s);
    QueueIsQueued(s, limit);
    ThreeInOrder(s.rows, s.order);
    QueueAsOffered(s, limit);
    assert QueueOf(s, limit) == [c, n, o];
  }

  lemma ThreeInOrder(rows: map<string, Row>, ids: seq<string>)
    requires |ids| == 3 && forall id | id in ids :: id in rows
    requires rows[ids[0]].updatedAtMs <= rows[ids[1]].updatedAtMs <= rows[ids[2]].updatedAtMs
    ensures Sorted(rows, ids)
  {
  }

  lemma OvertakenInQueue(s: Store, env: Env, c: Row, n: Row, o: Row)
    requires Faithful(s) && Queued(s, [c, n, o])
    requires IsReschedule(o) && !IsCancellation(c) && o.offer.id != "" && n.offer.id != ""
    requires o.offer.rescheduleOf.None? && n.offer.rescheduleOf == Some(o.offer.id)
             && c.offer.rescheduleOf == Some(n.offer.id)
    requires Located(n, env) && Located(c, env) && c.selectedStartsAt.Some? && MovedToNewTime(c, env)
    ensures Pair([c, n, o], o, n)
    ensures var rows := Pass(s, [c, n, o], env).store.rows;
            && o.offer.id in rows && n.offer.id in rows && rows[o.offer.id] == o && !rows[n.offer.id].status.Booked?
  {
    hide Pass, Decided, Settler, Acts, Faithful, Verdict, Located, IsCancellation, IsReschedule, MovedToNewTime,
         Wellformed;
    var queue := [c, n, o];
    assert queue[0] == c && queue[1] == n && queue[2] == o;
    LastOfChain(s, queue, env, n, 0, 1);
    OneOfAPairEndsBooked(s, queue, env, o, n);
  }

  lemma FaithfulIsKeyed(s: Store)
    requires Faithful(s)
    ensures Keyed(s) && Wellformed(s)
  {
  }

  /** One round of the pass: what it adds to the counters. */
  method ReconcileOne(contexts: BookingContextStore, context: Row, env: Env, now: int, ghost t: Tally)
    returns (resolved: nat, left: nat, ghost paired: nat)
    requires contexts.Valid() && t.store == contexts.State()
    modifies contexts
    ensures contexts.Valid()
    ensures Tally(contexts.State(), t.resolved + resolved, t.left + left, t.paired + paired)
              == One(t, context, env, now)
  {
    hide Decided, Decide, Commit;
    resolved, left, paired := 0, 0, 0;
    var decided := Decided(context, env);
    if decided.None? { return 0, 1, 0; }
    var d := decided.value;
    var eventId := if Truthy(d.providerEventId) then d.providerEventId else None;
    var applied := contexts.ResolveVerification(context.offer.id, d.status, eventId, Some(d.reason), "reconciler", now);
    if !applied.Context? { return 0, 1, 0; }
    resolved := 1;
    if d.also.Some? {
      var also := d.also.value;
      var original := contexts.Get(also.id, now);
      if original.Context? && original.row.status.VerificationRequired? {
        var alsoApplied :=
          contexts.ResolveVerification(also.id, also.status, None, Some(also.reason), "reconciler", now);
        if alsoApplied.Context? {
          resolved, paired := 2, 1;
        }
      }
    }
  }

  method ReadQueue(contexts: BookingContextStore, limit: nat) returns (queue: seq<Row>)
    requires contexts.Valid()
    ensures queue == QueueOf(contexts.State(), limit)
  {
    var ids := contexts.ListByStatus(VerificationRequired, None, limit);
    assert forall id | id in ids :: id in OldestFirst(contexts.byId, contexts.order, VerificationRequired, None);
    queue := Snapshot(contexts.byId, ids);
  }

  /** The pass: reads its queue once, then asks, decides and writes context by context. */
  method Reconcile(contexts: BookingContextStore, env: Env, limit: nat)
    returns (examined: nat, resolved: nat, left: nat)
    requires contexts.Valid()
    modifies contexts
    ensures contexts.Valid()
    ensures var queue := QueueOf(old(contexts.State()), limit);
            var t := Pass(old(contexts.State()), queue, env);
            contexts.State() == t.store && examined == |queue| && resolved == t.resolved && left == t.left
  {
    hide One, Decided, Faithful, Wellformed, Pass, QueueOf;
    ghost var before := contexts.State();
    var queue := ReadQueue(contexts, limit);
    PassStart(before, queue, env);
    resolved, left := 0, 0;
    ghost var paired := 0;
    var i := 0;
    while i < |queue|
      invariant 0 <= i <= |queue| && contexts.Valid()
      invariant Tally(contexts.State(), resolved, left, paired) == Pass(before, queue[..i], env)
    {
      PassNext(before, queue, env, i);
      var r, l;
      ghost var p;
      r, l, p := ReconcileOne(contexts, queue[i], env, env.clock(i), Pass(before, queue[..i], env));
      resolved, left, paired := resolved + r, left + l, paired + p;
      i := i + 1;
    }
    assert queue[..|queue|] == queue;
    examined := |queue|;
  }
}
