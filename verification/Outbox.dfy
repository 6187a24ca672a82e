/**
 * The durable event outbox: per (event, consumer) deliveries, claimed, run and settled by a drain, with
 * bounded retries after a backoff.
 *
 * The clock and every handler's success are arbitrary: the clock only never goes back, and a handler may
 * publish further events. One processor drains and does not die; several, some dying, are in OutboxLease.
 */
module Outbox {
  import opened Options
  import opened Retries

  const STALE_PROCESSING_MS := 300_000
  const CANDIDATE_LIMIT := 100

  datatype Status = Processing | Completed | Failed | Abandoned

  datatype Delivery = Delivery(status: Status, attempts: nat, nextAttemptAtMs: Option<int>, updatedAtMs: int)

  /** An event's position in publication order, and the consumer's name. */
  type Pair = (nat, string)
  type Deliveries = map<Pair, Delivery>

  datatype Registration = Registration(consumer: string, eventTypes: Option<set<string>>)

  predicate Subscribed(r: Registration, eventType: string) {
    r.eventTypes.None? || eventType in r.eventTypes.value
  }

  predicate Claimable(d: Deliveries, pair: Pair, now: int) {
    || pair !in d
    || (d[pair].status.Failed? && (d[pair].nextAttemptAtMs.Some? ==> d[pair].nextAttemptAtMs.value <= now))
    || (d[pair].status.Processing? && now - d[pair].updatedAtMs >= STALE_PROCESSING_MS)
  }

  predicate Settled(d: Deliveries, pair: Pair) {
    pair in d && (d[pair].status.Completed? || d[pair].status.Abandoned?)
  }

  function Attempts(d: Deliveries, pair: Pair): nat {
    if pair in d then d[pair].attempts else 0
  }

  function Taken(d: Deliveries, pair: Pair, now: int): Deliveries {
    d[pair := Delivery(Processing, Attempts(d, pair) + 1, None, now)]
  }

  /** Unconditional: whatever the status is. */
  function Done(d: Deliveries, pair: Pair, now: int): Deliveries {
    if pair !in d then d else d[pair := d[pair].(status := Completed, updatedAtMs := now)]
  }

  function GivenUp(d: Deliveries, pair: Pair, abandoned: bool, next: int, now: int): Deliveries {
    if pair !in d then d
    else if abandoned then d[pair := d[pair].(status := Abandoned, nextAttemptAtMs := None, updatedAtMs := now)]
    else d[pair := d[pair].(status := Failed, nextAttemptAtMs := Some(next), updatedAtMs := now)]
  }

  /** The attempts a pair still has. */
  function Remaining(d: Deliveries, pair: Pair, maxAttempts: nat): nat {
    if pair !in d then maxAttempts
    else if Settled(d, pair) then 0
    else if d[pair].attempts >= maxAttempts then 0 else maxAttempts - d[pair].attempts
  }

  /** What a delivery looks like when nobody is inside a handler. */
  predicate AtRest(x: Delivery, maxAttempts: nat) {
    && 1 <= x.attempts <= maxAttempts
    && !x.status.Processing?
    && (x.status.Failed? ==> x.attempts < maxAttempts && x.nextAttemptAtMs.Some?)
    && (x.status.Abandoned? ==> x.attempts == maxAttempts)
  }

  ghost predicate AllAtRest(d: Deliveries, maxAttempts: nat) {
    forall pair | pair in d :: AtRest(d[pair], maxAttempts)
  }

  /** Every pair has at most the attempts it had, and the settled ones stay settled as they were. */
  ghost predicate Progress(before: Deliveries, after: Deliveries, maxAttempts: nat) {
    && (forall pair :: Remaining(after, pair, maxAttempts) <= Remaining(before, pair, maxAttempts))
    && (forall pair | Settled(before, pair) :: pair in after && after[pair] == before[pair])
    && before.Keys <= after.Keys
  }

  // ── The sum of remaining attempts ──────────────────────────────────────────

  function SumOver(d: Deliveries, events: nat, consumer: string, maxAttempts: nat): nat {
    if events == 0 then 0
    else SumOver(d, events - 1, consumer, maxAttempts) + Remaining(d, (events - 1, consumer), maxAttempts)
  }

  /** Over the first `events` events and the registered consumers. */
  function Sum(d: Deliveries, events: nat, consumers: seq<Registration>, maxAttempts: nat): nat {
    if consumers == [] then 0
    else Sum(d, events, consumers[..|consumers| - 1], maxAttempts)
           + SumOver(d, events, consumers[|consumers| - 1].consumer, maxAttempts)
  }

  lemma {:induction false} SumOverDrops(before: Deliveries, after: Deliveries, events: nat, consumer: string,
                                        maxAttempts: nat)
    requires Progress(before, after, maxAttempts)
    ensures SumOver(after, events, consumer, maxAttempts) <= SumOver(before, events, consumer, maxAttempts)
    ensures (exists id: nat ::
               id < events && Remaining(after, (id, consumer), maxAttempts)
                 < Remaining(before, (id, consumer), maxAttempts)) ==>
              SumOver(after, events, consumer, maxAttempts) < SumOver(before, events, consumer, maxAttempts)
  {
    if events > 0 {
      SumOverDrops(before, after, events - 1, consumer, maxAttempts);
    }
  }

  /** Progress that costs one pair an attempt lowers the sum. */
  lemma {:induction false} SumDrops(before: Deliveries, after: Deliveries, events: nat, consumers: seq<Registration>,
                                    maxAttempts: nat)
    requires Progress(before, after, maxAttempts)
    ensures Sum(after, events, consumers, maxAttempts) <= Sum(before, events, consumers, maxAttempts)
    ensures (exists id: nat, i :: id < events && 0 <= i < |consumers|
               && Remaining(after, (id, consumers[i].consumer), maxAttempts)
                    < Remaining(before, (id, consumers[i].consumer), maxAttempts)) ==>
              Sum(after, events, consumers, maxAttempts) < Sum(before, events, consumers, maxAttempts)
  {
    if consumers != [] {
      var n := |consumers| - 1;
      SumDrops(before, after, events, consumers[..n], maxAttempts);
      SumOverDrops(before, after, events, consumers[n].consumer, maxAttempts);
      forall i | 0 <= i < n ensures consumers[..n][i] == consumers[i] {
      }
    }
  }

  lemma Distribute(n: nat, x: nat)
    requires n > 0
    ensures (n - 1) * x + x == n * x
  {
  }

  lemma {:induction false} SumOverBound(d: Deliveries, events: nat, consumer: string, maxAttempts: nat)
    ensures SumOver(d, events, consumer, maxAttempts) <= events * maxAttempts
  {
    if events > 0 {
      SumOverBound(d, events - 1, consumer, maxAttempts);
      Distribute(events, maxAttempts);
    }
  }

  /** So at most events times consumers times attempts drains in a row find work, while nothing new is published. */
  lemma {:induction false} SumBound(d: Deliveries, events: nat, consumers: seq<Registration>, maxAttempts: nat)
    ensures Sum(d, events, consumers, maxAttempts) <= |consumers| * (events * maxAttempts)
  {
    if consumers != [] {
      var n := |consumers|;
      var most := events * maxAttempts;
      SumBound(d, events, consumers[..n - 1], maxAttempts);
      SumOverBound(d, events, consumers[n - 1].consumer, maxAttempts);
      Distribute(n, most);
      assert Sum(d, events, consumers[..n - 1], maxAttempts) <= (n - 1) * most;
    }
  }

  lemma ProgressTwice(a: Deliveries, b: Deliveries, c: Deliveries, maxAttempts: nat)
    requires Progress(a, b, maxAttempts) && Progress(b, c, maxAttempts)
    ensures Progress(a, c, maxAttempts)
  {
    forall pair | Settled(a, pair) ensures pair in c && c[pair] == a[pair] {
      assert Settled(b, pair);
    }
  }

  predicate BackoffsDue(d: Deliveries, now: int) {
    forall pair | pair in d && d[pair].status.Failed? && d[pair].nextAttemptAtMs.Some? ::
      d[pair].nextAttemptAtMs.value <= now
  }

  /** When nothing is claimable although every backoff has passed, every pair is settled. */
  lemma QuietMeansSettled(d: Deliveries, events: nat, consumers: seq<Registration>, maxAttempts: nat, now: int)
    requires AllAtRest(d, maxAttempts) && BackoffsDue(d, now)
    ensures (forall id: nat, r | id < events && r in consumers :: !Claimable(d, (id, r.consumer), now))
            <==> (forall id: nat, r | id < events && r in consumers :: Settled(d, (id, r.consumer)))
  {
    forall id: nat, r | id < events && r in consumers
      ensures Claimable(d, (id, r.consumer), now) <==> !Settled(d, (id, r.consumer))
    {
      assert (id, r.consumer) in d ==> AtRest(d[(id, r.consumer)], maxAttempts);
    }
  }

  // ── One visit to a pair ────────────────────────────────────────────────────

  /** Every run of a consumer's handler for an event in order: whether it returned normally. */
  type Runs = map<Pair, seq<bool>>

  function Verdicts(runs: Runs, pair: Pair): seq<bool> {
    if pair in runs then runs[pair] else []
  }

  /** The pair's consumer is registered for its event's type. */
  ghost predicate Wanted(consumers: seq<Registration>, events: seq<string>, pair: Pair) {
    exists r :: r in consumers && r.consumer == pair.1 && pair.0 < |events|
                && (r.eventTypes.None? || events[pair.0] in r.eventTypes.value)
  }

  ghost predicate Named(consumers: seq<Registration>, name: string) {
    exists r :: r in consumers && r.consumer == name
  }

  ghost predicate DistinctNames(consumers: seq<Registration>) {
    forall i, j | 0 <= i < j < |consumers| :: consumers[i].consumer != consumers[j].consumer
  }

  /**
   * What a delivery says of its handler's runs: one for each attempt, all but the last failed, and the last succeeded
   * if and only if the delivery is completed. An event nobody asked for is completed without a run.
   */
  ghost predicate Accounts(verdicts: seq<bool>, x: Delivery, wanted: bool) {
    && |verdicts| == (if wanted then x.attempts else 0)
    && (forall i | 0 <= i < |verdicts| - 1 :: !verdicts[i])
    && (wanted ==> (x.status.Completed? <==> verdicts != [] && verdicts[|verdicts| - 1]))
    && (!wanted ==> x.status.Completed?)
  }

  ghost predicate Accounted(runs: Runs, d: Deliveries, consumers: seq<Registration>, events: seq<string>) {
    && (forall pair | pair in d ::
          Named(consumers, pair.1) && Accounts(Verdicts(runs, pair), d[pair], Wanted(consumers, events, pair)))
    && (forall pair | pair !in d :: Verdicts(runs, pair) == [])
  }

  ghost predicate Published(d: Deliveries, events: nat) {
    forall pair | pair in d :: pair.0 < events
  }

  /** A settled visit: exactly one attempt of exactly one claimable pair. */
  ghost predicate Visited(before: Deliveries, after: Deliveries, pair: Pair, maxAttempts: nat) {
    && Remaining(before, pair, maxAttempts) > 0
    && pair in after && AtRest(after[pair], maxAttempts)
    && after[pair].attempts == Attempts(before, pair) + 1
    && after == before[pair := after[pair]]
  }

  lemma RestAt(d: Deliveries, pair: Pair, maxAttempts: nat)
    requires AllAtRest(d, maxAttempts)
    ensures pair in d ==> AtRest(d[pair], maxAttempts)
  {
  }

  /** The handler ran once, with this verdict, or not at all for an event nobody asked for. */
  ghost predicate RanOnce(ran: Runs, runs: Runs, pair: Pair, wanted: bool, handled: bool) {
    if wanted then runs == ran[pair := Verdicts(ran, pair) + [handled]] else runs == ran && handled
  }

  lemma AccountsNext(v: seq<bool>, w: seq<bool>, d: Deliveries, pair: Pair, y: Delivery, wanted: bool, handled: bool)
    requires pair in d ==> Accounts(v, d[pair], wanted) && !d[pair].status.Completed?
    requires pair !in d ==> v == []
    requires y.attempts == Attempts(d, pair) + 1 && (y.status.Completed? <==> handled)
    requires w == if wanted then v + [handled] else v
    requires !wanted ==> handled
    ensures Accounts(w, y, wanted)
  {
  }

  lemma WantedLater(consumers: seq<Registration>, events: seq<string>, more: seq<string>, pair: Pair)
    requires pair.0 < |events| && events <= more
    ensures Wanted(consumers, events, pair) == Wanted(consumers, more, pair)
  {
    assert events[pair.0] == more[pair.0];
  }

  lemma AccountedLater(runs: Runs, d: Deliveries, consumers: seq<Registration>, events: seq<string>, more: seq<string>)
    requires Accounted(runs, d, consumers, events) && Published(d, |events|) && events <= more
    ensures Accounted(runs, d, consumers, more)
  {
    hide Accounts, Wanted;
    forall pair | pair in d ensures Accounts(Verdicts(runs, pair), d[pair], Wanted(consumers, more, pair)) {
      WantedLater(consumers, events, more, pair);
    }
  }

  /** A registration under a new name says nothing about the deliveries there are. */
  lemma AccountedWithMore(runs: Runs, d: Deliveries, consumers: seq<Registration>, r: Registration, events: seq<string>)
    requires Accounted(runs, d, consumers, events) && !Named(consumers, r.consumer)
    ensures Accounted(runs, d, consumers + [r], events)
  {
    hide Accounts;
    forall pair | pair in d
      ensures Named(consumers + [r], pair.1) && Wanted(consumers + [r], events, pair) == Wanted(consumers, events, pair)
    {
      assert pair.1 != r.consumer;
      var x :| x in consumers && x.consumer == pair.1;
      assert x in consumers + [r];
      if Wanted(consumers, events, pair) {
        var y :| y in consumers && y.consumer == pair.1 && pair.0 < |events|
          && (y.eventTypes.None? || events[pair.0] in y.eventTypes.value);
        assert y in consumers + [r];
      }
    }
  }

  lemma VisitKeeps(before: Deliveries, after: Deliveries, pair: Pair, maxAttempts: nat, events: seq<string>,
                   consumers: seq<Registration>, runs: Runs, later: Runs, handled: bool)
    requires Visited(before, after, pair, maxAttempts) && AllAtRest(before, maxAttempts)
    requires Accounted(runs, before, consumers, events) && Published(before, |events|) && pair.0 < |events|
    requires Named(consumers, pair.1) && (after[pair].status.Completed? <==> handled)
    requires RanOnce(runs, later, pair, Wanted(consumers, events, pair), handled)
    ensures AllAtRest(after, maxAttempts) && Accounted(later, after, consumers, events) && Published(after, |events|)
  {
    hide Accounts, Wanted, AtRest, Named;
    var wanted := Wanted(consumers, events, pair);
    NotDone(before, pair, maxAttempts);
    AccountsNext(Verdicts(runs, pair), Verdicts(later, pair), before, pair, after[pair], wanted, handled);
    forall p | p in after && p != pair
      ensures Accounts(Verdicts(later, p), after[p], Wanted(consumers, events, p))
    {
      assert p in before && Verdicts(later, p) == Verdicts(runs, p);
    }
  }

  lemma NotDone(d: Deliveries, pair: Pair, maxAttempts: nat)
    requires Remaining(d, pair, maxAttempts) > 0
    ensures pair in d ==> !d[pair].status.Completed?
  {
  }

  lemma VisitIsProgress(before: Deliveries, after: Deliveries, pair: Pair, maxAttempts: nat)
    requires Visited(before, after, pair, maxAttempts)
    ensures Progress(before, after, maxAttempts)
    ensures Remaining(after, pair, maxAttempts) < Remaining(before, pair, maxAttempts)
  {
  }

  lemma ProgressNone(d: Deliveries, maxAttempts: nat)
    ensures Progress(d, d, maxAttempts)
  {
  }

  lemma ProgressAt(before: Deliveries, after: Deliveries, pair: Pair, maxAttempts: nat)
    requires Progress(before, after, maxAttempts)
    ensures Remaining(after, pair, maxAttempts) <= Remaining(before, pair, maxAttempts)
  {
  }

  /** A pair a drain did not get to. */
  ghost predicate Untouched(before: Deliveries, after: Deliveries, ran: Runs, runs: Runs, pair: Pair) {
    && (pair in after <==> pair in before) && (pair in before ==> after[pair] == before[pair])
    && Verdicts(runs, pair) == Verdicts(ran, pair)
  }

  /**
   * A pair a drain got to: one attempt. If its consumer is registered for the event's type its handler ran exactly
   * once, and the delivery is completed if and only if that run returned normally; if not, no handler ran and it is
   * completed.
   */
  ghost predicate Delivered(before: Deliveries, after: Deliveries, ran: Runs, runs: Runs, pair: Pair, wanted: bool) {
    && pair in after && !Settled(before, pair) && after[pair].attempts == Attempts(before, pair) + 1
    && (if wanted then Verdicts(runs, pair) == Verdicts(ran, pair) + [after[pair].status.Completed?]
        else Verdicts(runs, pair) == Verdicts(ran, pair) && after[pair].status.Completed?)
  }

  /** Never tried, or its backoff over by then. */
  ghost predicate WasDue(d: Deliveries, pair: Pair, until: int) {
    pair in d ==> d[pair].status.Failed? && d[pair].nextAttemptAtMs.Some? && d[pair].nextAttemptAtMs.value <= until
  }

  ghost predicate DeliveredTo(before: Deliveries, after: Deliveries, ran: Runs, runs: Runs, r: Registration,
                              events: seq<string>, until: int, id: nat) {
    && id < |events| && WasDue(before, (id, r.consumer), until)
    && Delivered(before, after, ran, runs, (id, r.consumer), r.eventTypes.None? || events[id] in r.eventTypes.value)
  }

  /** A drain of one consumer's events in the given order. */
  ghost predicate Drained(before: Deliveries, after: Deliveries, ran: Runs, runs: Runs, r: Registration,
                          events: seq<string>, until: int, listed: seq<nat>) {
    && (forall id | id in listed :: DeliveredTo(before, after, ran, runs, r, events, until, id))
    && (forall pair: Pair | !(pair.1 == r.consumer && pair.0 in listed) :: Untouched(before, after, ran, runs, pair))
  }

  /** What was due when the clock read `now` is listed, unless the list is full of earlier events. */
  ghost predicate ListsTheDue(d: Deliveries, consumer: string, events: nat, now: int, listed: seq<nat>) {
    forall id: nat | id < events && WasDue(d, (id, consumer), now) ::
      id in listed || (|listed| == CANDIDATE_LIMIT && forall earlier | earlier in listed :: earlier < id)
  }

  lemma DrainedOn(before: Deliveries, was: Deliveries, after: Deliveries, ran: Runs, mid: Runs, runs: Runs,
                  r: Registration, events: seq<string>, more: seq<string>, until: int, now: int, listed: seq<nat>,
                  id: nat, maxAttempts: nat)
    requires Drained(before, was, ran, mid, r, events, until, listed) && events <= more
    requires id !in listed && id < |events|
    requires until <= now && WasDue(was, (id, r.consumer), now)
    requires Visited(was, after, (id, r.consumer), maxAttempts)
    requires RanOnce(mid, runs, (id, r.consumer), r.eventTypes.None? || events[id] in r.eventTypes.value,
                     after[(id, r.consumer)].status.Completed?)
    ensures Drained(before, after, ran, runs, r, more, now, listed + [id])
  {
    var pair := (id, r.consumer);
    assert Untouched(before, was, ran, mid, pair);
    forall x | x in listed + [id]
      ensures DeliveredTo(before, after, ran, runs, r, more, now, x)
    {
      if x in listed {
        assert DeliveredTo(before, was, ran, mid, r, events, until, x);
        assert x != id && more[x] == events[x];
      } else {
        assert x == id && more[id] == events[id];
      }
    }
    forall p: Pair | !(p.1 == r.consumer && p.0 in listed + [id]) ensures Untouched(before, after, ran, runs, p) {
      assert p.0 in listed ==> p.0 in listed + [id];
      assert id in listed + [id];
      assert Untouched(before, was, ran, mid, p);
    }
  }

  lemma DueAtRest(d: Deliveries, consumer: string, events: nat, now: int, late: int, listed: seq<nat>)
    requires now <= late
    requires forall id: nat | id < events && Claimable(d, (id, consumer), late) && id !in listed ::
               |listed| == CANDIDATE_LIMIT && forall earlier | earlier in listed :: earlier < id
    ensures ListsTheDue(d, consumer, events, now, listed)
  {
  }

  lemma WantedExactly(consumers: seq<Registration>, r: Registration, events: seq<string>, id: nat)
    requires DistinctNames(consumers) && r in consumers && id < |events|
    ensures Wanted(consumers, events, (id, r.consumer)) <==> r.eventTypes.None? || events[id] in r.eventTypes.value
    ensures Named(consumers, r.consumer)
  {
  }

  lemma PublishedMore(d: Deliveries, events: nat, more: nat)
    requires Published(d, events) && events <= more
    ensures Published(d, more)
  {
  }

  lemma LaterIsMore(d: Deliveries, events: nat, consumer: string, early: int, late: int)
    requires early <= late
    requires forall id: nat | id < events :: !Claimable(d, (id, consumer), late)
    ensures forall id: nat | id < events :: !Claimable(d, (id, consumer), early)
  {
  }

  lemma SumDropsAt(before: Deliveries, after: Deliveries, events: nat, consumers: seq<Registration>, maxAttempts: nat,
                   worked: bool, spent: Pair)
    requires Progress(before, after, maxAttempts)
    requires worked ==> spent.0 < events && (exists k :: 0 <= k < |consumers| && consumers[k].consumer == spent.1)
                        && Remaining(after, spent, maxAttempts) < Remaining(before, spent, maxAttempts)
    ensures worked ==> Sum(after, events, consumers, maxAttempts) < Sum(before, events, consumers, maxAttempts)
  {
    if worked {
      var k :| 0 <= k < |consumers| && consumers[k].consumer == spent.1;
      assert spent == (spent.0, consumers[k].consumer);
      SumDrops(before, after, events, consumers, maxAttempts);
    }
  }

  /** No handler runs more often for one event than the attempts allow. */
  lemma RunsAreBounded(runs: Runs, d: Deliveries, consumers: seq<Registration>, events: seq<string>, maxAttempts: nat)
    requires Accounted(runs, d, consumers, events) && AllAtRest(d, maxAttempts)
    ensures forall pair :: |Verdicts(runs, pair)| <= maxAttempts
  {
    hide Wanted, Named;
    forall pair ensures |Verdicts(runs, pair)| <= maxAttempts {
      if pair in d {
        assert AtRest(d[pair], maxAttempts);
        assert Accounts(Verdicts(runs, pair), d[pair], Wanted(consumers, events, pair));
      }
    }
  }

  // ── The processor ──────────────────────────────────────────────────────────

  class Processor {
    const clock: Clock
    const maxAttempts: nat
    const backoffMs: seq<nat>
    var consumers: seq<Registration>
    var events: seq<string>  // event types, in publication order
    var deliveries: Deliveries
    ghost var runs: Runs     // what each consumer's handler did with each event

    /** Between drains: at rest, with every delivery saying what its handler did. */
    ghost predicate Valid()
      reads this
    {
      && maxAttempts >= 1 && DistinctNames(consumers)
      && AllAtRest(deliveries, maxAttempts)
      && Accounted(runs, deliveries, consumers, events)
      && Published(deliveries, |events|)
    }

    constructor (maxAttempts: nat, backoffMs: seq<nat>)
      requires maxAttempts >= 1
      ensures Valid() && fresh(clock) && deliveries == map[] && events == [] && consumers == []
    {
      this.maxAttempts, this.backoffMs, consumers := maxAttempts, backoffMs, [];
      events, deliveries, runs := [], map[], map[];
      clock := new Clock();
    }

    /** A consumer's name is not blank and not registered already. */
    method Register(r: Registration) returns (ok: bool)
      requires Valid()
      modifies this`consumers
      ensures Valid()
      ensures ok <==> r.consumer != "" && forall x | x in old(consumers) :: x.consumer != r.consumer
      ensures consumers == if ok then old(consumers) + [r] else old(consumers)
    {
      if r.consumer == "" || (exists x | x in consumers :: x.consumer == r.consumer) { return false; }
      AccountedWithMore(runs, deliveries, consumers, r, events);
      forall i | 0 <= i < |consumers| ensures consumers[i].consumer != r.consumer { assert consumers[i] in consumers; }
      consumers := consumers + [r];
      ok := true;
    }

    method Append(eventType: string)
      requires Valid()
      modifies this`events
      ensures Valid() && events == old(events) + [eventType]
    {
      AccountedLater(runs, deliveries, consumers, events, events + [eventType]);
      events := events + [eventType];
    }

    /** The consumer's first claimable events, in publication order, at one reading of the clock. */
    method ClaimableEvents(consumer: string, limit: nat, now: int) returns (found: seq<nat>)
      requires limit > 0
      ensures forall i | 0 <= i < |found| :: found[i] < |events| && Claimable(deliveries, (found[i], consumer), now)
      ensures forall i, j | 0 <= i < j < |found| :: found[i] < found[j]
      ensures found == [] <==> forall id: nat | id < |events| :: !Claimable(deliveries, (id, consumer), now)
      ensures forall id: nat | id < |events| && Claimable(deliveries, (id, consumer), now) && id !in found ::
                |found| == limit && forall earlier | earlier in found :: earlier < id
    {
      found := [];
      var id := 0;
      while id < |events| && |found| < limit
        invariant 0 <= id <= |events|
        invariant forall i | 0 <= i < |found| :: found[i] < id && Claimable(deliveries, (found[i], consumer), now)
        invariant forall i, j | 0 <= i < j < |found| :: found[i] < found[j]
        invariant found == [] ==> forall k: nat | k < id :: !Claimable(deliveries, (k, consumer), now)
        invariant found != [] ==> found[0] < |events|
        invariant |found| <= limit && forall earlier | earlier in found :: earlier < id
        invariant forall k: nat | k < id && Claimable(deliveries, (k, consumer), now) :: k in found
      {
        if Claimable(deliveries, (id, consumer), now) { found := found + [id]; }
        id := id + 1;
      }
      assert found != [] ==> Claimable(deliveries, (found[0], consumer), now);
    }

    method Claim(id: nat, consumer: string) returns (claimed: Option<Delivery>)
      modifies this`deliveries, clock
      ensures old(clock.time) <= clock.time
      ensures claimed.Some? <==> Claimable(old(deliveries), (id, consumer), clock.time)
      ensures deliveries
                == if claimed.Some? then Taken(old(deliveries), (id, consumer), clock.time) else old(deliveries)
      ensures claimed.Some? ==> claimed.value == deliveries[(id, consumer)]
    {
      var now := clock.Now();
      if !Claimable(deliveries, (id, consumer), now) { return None; }
      var attempts := if (id, consumer) in deliveries then deliveries[(id, consumer)].attempts else 0;
      var delivery := Delivery(Processing, attempts + 1, None, now);
      deliveries := deliveries[(id, consumer) := delivery];
      claimed := Some(delivery);
    }

    /** Unconditional: whatever the status is, it becomes completed. */
    method Complete(id: nat, consumer: string)
      modifies this`deliveries, clock
      ensures old(clock.time) <= clock.time
      ensures deliveries == Done(old(deliveries), (id, consumer), clock.time)
    {
      if (id, consumer) !in deliveries { return; }
      var now := clock.Now();
      deliveries := deliveries[(id, consumer) := deliveries[(id, consumer)].(status := Completed, updatedAtMs := now)];
    }

    method Fail(id: nat, consumer: string, abandoned: bool, nextAttemptAtMs: int)
      modifies this`deliveries, clock
      ensures old(clock.time) <= clock.time
      ensures deliveries == GivenUp(old(deliveries), (id, consumer), abandoned, nextAttemptAtMs, clock.time)
    {
      if (id, consumer) !in deliveries { return; }
      var now := clock.Now();
      deliveries := deliveries[(id, consumer) := deliveries[(id, consumer)].(
        status := if abandoned then Abandoned else Failed,
        nextAttemptAtMs := if abandoned then None else Some(nextAttemptAtMs), updatedAtMs := now)];
    }

    /** A consumer's handler of an event: it publishes what it likes, and returns normally or throws. */
    method Handle(pair: Pair) returns (succeeded: bool)
      modifies this`events, this`runs
      ensures old(events) <= events
      ensures runs == old(runs)[pair := Verdicts(old(runs), pair) + [succeeded]]
    {
      var published: seq<string> := *;
      events := events + published;
      succeeded := *;
      runs := runs[pair := Verdicts(runs, pair) + [succeeded]];
    }

    /** One event for one consumer: claim, run the handler, complete or fail with a backoff. A handler may publish. */
    method DeliverTo(r: Registration, id: nat) returns (claimed: bool, ghost handled: bool)
      requires Valid() && id < |events| && r in consumers && (r.eventTypes.None? || events[id] in r.eventTypes.value)
      modifies this`events, this`deliveries, this`runs, clock
      ensures Valid() && old(clock.time) <= clock.time && old(events) <= events
      ensures Claimable(old(deliveries), (id, r.consumer), old(clock.time)) ==> claimed
      ensures !claimed ==> deliveries == old(deliveries) && runs == old(runs) && events == old(events)
      ensures claimed ==>
                && WasDue(old(deliveries), (id, r.consumer), clock.time)
                && Visited(old(deliveries), deliveries, (id, r.consumer), maxAttempts)
                && runs == old(runs)[(id, r.consumer) := Verdicts(old(runs), (id, r.consumer)) + [handled]]
                && var x := deliveries[(id, r.consumer)];
                   && x.status == (if handled then Completed else if x.attempts >= maxAttempts then Abandoned
                                   else Failed)
                   && (x.status.Failed? ==>
                         old(clock.time) <= x.nextAttemptAtMs.value - Backoff(backoffMs, x.attempts) <= x.updatedAtMs
                           <= clock.time)
    {
      hide AllAtRest, Accounted, Published, Progress, Backoff, Wanted, Named, DistinctNames;
      var pair := (id, r.consumer);
      RestAt(deliveries, pair, maxAttempts);
      WantedExactly(consumers, r, events, id);
      ghost var before, ran, were := deliveries, runs, events;
      var claim := Claim(id, r.consumer);
      if claim.None? { return false, false; }
      var succeeded := Handle(pair);
      handled := succeeded;
      if succeeded {
        Complete(id, r.consumer);
      } else {
        var attempts := claim.value.attempts;
        var now := clock.Now();
        Fail(id, r.consumer, attempts >= maxAttempts, now + Backoff(backoffMs, attempts));
      }
      assert Visited(before, deliveries, pair, maxAttempts);
      PublishedMore(before, |were|, |events|);
      AccountedLater(ran, before, consumers, were, events);
      WantedLater(consumers, were, events, pair);
      VisitKeeps(before, deliveries, pair, maxAttempts, events, consumers, ran, runs, handled);
      claimed := true;
    }

    /** An event the consumer did not subscribe to: claimed and completed at once, its handler not run. */
    method SettleUnsubscribed(r: Registration, id: nat) returns (claimed: bool)
      requires Valid() && id < |events| && r in consumers && !(r.eventTypes.None? || events[id] in r.eventTypes.value)
      modifies this`deliveries, clock
      ensures Valid() && old(clock.time) <= clock.time
      ensures Claimable(old(deliveries), (id, r.consumer), old(clock.time)) ==> claimed
      ensures !claimed ==> deliveries == old(deliveries)
      ensures claimed ==>
                && WasDue(old(deliveries), (id, r.consumer), clock.time)
                && Visited(old(deliveries), deliveries, (id, r.consumer), maxAttempts)
                && deliveries[(id, r.consumer)].status.Completed?
    {
      hide AllAtRest, Accounted, Published, Progress, Wanted, Named, DistinctNames;
      var pair := (id, r.consumer);
      RestAt(deliveries, pair, maxAttempts);
      WantedExactly(consumers, r, events, id);
      ghost var before := deliveries;
      var claim := Claim(id, r.consumer);
      if claim.None? { return false; }
      Complete(id, r.consumer);
      assert Visited(before, deliveries, pair, maxAttempts);
      VisitKeeps(before, deliveries, pair, maxAttempts, events, consumers, runs, runs, true);
      claimed := true;
    }

    /** One candidate: its handler runs exactly if the consumer asked for its type. */
    method Attend(r: Registration, id: nat) returns (claimed: bool)
      requires Valid() && id < |events| && r in consumers
      modifies this`events, this`deliveries, this`runs, clock
      ensures Valid() && old(clock.time) <= clock.time && old(events) <= events
      ensures Claimable(old(deliveries), (id, r.consumer), old(clock.time)) ==> claimed
      ensures !claimed ==> deliveries == old(deliveries) && runs == old(runs) && events == old(events)
      ensures claimed ==>
                && Visited(old(deliveries), deliveries, (id, r.consumer), maxAttempts)
                && WasDue(old(deliveries), (id, r.consumer), clock.time)
                && RanOnce(old(runs), runs, (id, r.consumer),
                           r.eventTypes.None? || old(events)[id] in r.eventTypes.value,
                           deliveries[(id, r.consumer)].status.Completed?)
    {
      hide AllAtRest, Accounted, Published, Wanted, Named, DistinctNames, Claimable, Backoff;
      ghost var handled;
      if Subscribed(r, events[id]) {
        claimed, handled := DeliverTo(r, id);
      } else {
        claimed := SettleUnsubscribed(r, id);
      }
    }

    /**
     * Work through one consumer's candidates, `listed`: what is due, in publication order. Each costs one attempt, and
     * its handler runs exactly if the consumer asked for its type.
     */
    method DrainConsumer(r: Registration) returns (worked: bool, ghost listed: seq<nat>)
      requires Valid() && r in consumers
      modifies this`events, this`deliveries, this`runs, clock
      ensures Valid() && old(clock.time) <= clock.time && old(events) <= events
      ensures Progress(old(deliveries), deliveries, maxAttempts)
      ensures worked <==> listed != []
      ensures worked ==> listed[0] < |old(events)|
                         && Remaining(deliveries, (listed[0], r.consumer), maxAttempts)
                              < Remaining(old(deliveries), (listed[0], r.consumer), maxAttempts)
      ensures !worked ==> deliveries == old(deliveries) && events == old(events) && runs == old(runs)
      ensures (exists id: nat ::
                 id < |old(events)| && Claimable(old(deliveries), (id, r.consumer), old(clock.time))) ==> worked
      ensures Drained(old(deliveries), deliveries, old(runs), runs, r, events, clock.time, listed)
      ensures ListsTheDue(old(deliveries), r.consumer, |old(events)|, old(clock.time), listed)
    {
      hide AllAtRest, Accounted, Published, Progress, Visited, Remaining, Drained, ListsTheDue, RanOnce, DistinctNames,
           Claimable;
      var now := clock.Now();
      var candidates := ClaimableEvents(r.consumer, CANDIDATE_LIMIT, now);
      ghost var before, ran := deliveries, runs;
      listed := candidates;
      DueAtRest(before, r.consumer, |events|, old(clock.time), now, candidates);
      worked := false;
      DrainedNone(before, ran, r, events, clock.time);
      ProgressNone(before, maxAttempts);
      if candidates == [] {
        LaterIsMore(before, |events|, r.consumer, old(clock.time), now);
        return;
      }
      ghost var first := candidates[0];
      var i := 0;
      while i < |candidates|
        invariant 0 <= i <= |candidates|
        invariant Valid() && now <= clock.time && old(events) <= events && consumers == old(consumers)
        invariant Progress(before, deliveries, maxAttempts)
        invariant Drained(before, deliveries, ran, runs, r, events, clock.time, candidates[..i])
        invariant i == 0 ==> deliveries == before && !worked
        invariant i > 0 ==>
                    worked && Remaining(deliveries, (first, r.consumer), maxAttempts)
                      < Remaining(before, (first, r.consumer), maxAttempts)
      {
        ghost var was, mid, were, time := deliveries, runs, events, clock.time;
        var id := candidates[i];
        StillDue(before, was, ran, mid, r, events, candidates, i, now, clock.time);
        var claimed := Attend(r, id);
        DrainedOn(before, was, deliveries, ran, mid, runs, r, were, events, time, clock.time, candidates[..i], id,
                  maxAttempts);
        assert candidates[..i + 1] == candidates[..i] + [id];
        worked := worked || claimed;
        VisitIsProgress(was, deliveries, (id, r.consumer), maxAttempts);
        ProgressTwice(before, was, deliveries, maxAttempts);
        ProgressAt(was, deliveries, (first, r.consumer), maxAttempts);
        i := i + 1;
      }
      assert candidates[..|candidates|] == candidates;
    }

    /**
     * Process what is pending for every consumer, `listed` being what is due for each. A drain that finds work lowers
     * the sum of remaining attempts over the events it started with; one that finds none proves that nothing was
     * claimable when it began.
     */
    method Drain() returns (worked: bool, ghost listed: seq<seq<nat>>)
      requires Valid()
      modifies this`events, this`deliveries, this`runs, clock
      ensures Valid() && old(clock.time) <= clock.time && old(events) <= events
      ensures Progress(old(deliveries), deliveries, maxAttempts)
      ensures worked ==>
                Sum(deliveries, |old(events)|, consumers, maxAttempts)
                  < Sum(old(deliveries), |old(events)|, consumers, maxAttempts)
      ensures !worked ==> deliveries == old(deliveries) && events == old(events) && runs == old(runs)
      ensures !worked ==> forall id: nat, r | id < |events| && r in consumers ::
                !Claimable(deliveries, (id, r.consumer), old(clock.time))
      ensures !worked && BackoffsDue(deliveries, old(clock.time)) ==>
                forall id: nat, r | id < |events| && r in consumers :: Settled(deliveries, (id, r.consumer))
      ensures forall pair :: |Verdicts(runs, pair)| <= maxAttempts
      ensures |listed| == |consumers|
      ensures AllDrained(old(deliveries), deliveries, old(runs), runs, consumers, events, clock.time, listed)
      ensures forall k | 0 <= k < |consumers| ::
                ListsTheDue(old(deliveries), consumers[k].consumer, |old(events)|, old(clock.time), listed[k])
    {
      hide AllAtRest, Accounted, Published, Progress, Visited, Remaining, Sum, SumOver, Claimable, BackoffsDue, Settled,
           Drained, AllDrained, ListsTheDue;
      ghost var before, ran, atStart := deliveries, runs, |events|;
      ghost var spent: Pair := (0, "");
      worked, listed := false, [];
      ProgressNone(before, maxAttempts);
      NoneDrained(before, ran, consumers, events, clock.time);
      var i := 0;
      while i < |consumers|
        invariant 0 <= i <= |consumers| == |old(consumers)| && consumers == old(consumers)
        invariant Valid() && old(clock.time) <= clock.time && old(events) <= events
        invariant Progress(before, deliveries, maxAttempts)
        invariant worked ==> spent.0 < atStart && (exists k :: 0 <= k < |consumers| && consumers[k].consumer == spent.1)
                             && Remaining(deliveries, spent, maxAttempts) < Remaining(before, spent, maxAttempts)
        invariant !worked ==> deliveries == before && events == old(events) && runs == old(runs)
        invariant !worked ==> forall k, id: nat | 0 <= k < i && id < atStart ::
                    !Claimable(before, (id, consumers[k].consumer), old(clock.time))
        invariant |listed| == i && AllDrained(before, deliveries, ran, runs, consumers[..i], events, clock.time, listed)
        invariant forall k | 0 <= k < i ::
                    ListsTheDue(before, consumers[k].consumer, atStart, old(clock.time), listed[k])
      {
        ghost var was, mid, were, time := deliveries, runs, events, clock.time;
        var found;
        ghost var now;
        found, now := DrainConsumer(consumers[i]);
        ProgressTwice(before, was, deliveries, maxAttempts);
        DueStill(before, was, ran, mid, consumers, were, listed, i, atStart, old(clock.time), time, now);
        AllDrainedOn(before, was, deliveries, ran, mid, runs, consumers, were, events, time, clock.time, listed, now);
        if worked {
          ProgressAt(was, deliveries, spent, maxAttempts);
        } else if found {
          spent := (now[0], consumers[i].consumer);
        } else {
          LaterIsMore(before, atStart, consumers[i].consumer, old(clock.time), time);
        }
        worked := worked || found;
        listed := listed + [now];
        i := i + 1;
      }
      assert consumers[..|consumers|] == consumers;
      SumDropsAt(before, deliveries, atStart, consumers, maxAttempts, worked, spent);
      RunsAreBounded(runs, deliveries, consumers, events, maxAttempts);
      if !worked && BackoffsDue(deliveries, old(clock.time)) {
        forall id: nat, r | id < |events| && r in consumers
          ensures !Claimable(deliveries, (id, r.consumer), old(clock.time))
        {
          var k :| 0 <= k < |consumers| && consumers[k] == r;
        }
        QuietMeansSettled(deliveries, |events|, consumers, maxAttempts, old(clock.time));
      }
    }
  }

  // ── Steps of the drain's proof ─────────────────────────────────────────────

  lemma DrainedNone(d: Deliveries, runs: Runs, r: Registration, events: seq<string>, until: int)
    ensures Drained(d, d, runs, runs, r, events, until, [])
  {
  }

  /** A candidate not reached yet is as due as it was when it was listed. */
  lemma StillDue(before: Deliveries, was: Deliveries, ran: Runs, mid: Runs, r: Registration, events: seq<string>,
                 candidates: seq<nat>, i: nat, listedAt: int, now: int)
    requires i < |candidates| && Drained(before, was, ran, mid, r, events, now, candidates[..i]) && listedAt <= now
    requires forall j, k | 0 <= j < k < |candidates| :: candidates[j] < candidates[k]
    requires Claimable(before, (candidates[i], r.consumer), listedAt)
    ensures Claimable(was, (candidates[i], r.consumer), now) && candidates[i] !in candidates[..i]
  {
    assert Untouched(before, was, ran, mid, (candidates[i], r.consumer));
  }

  ghost predicate Reached(consumers: seq<Registration>, listed: seq<seq<nat>>, pair: Pair)
    requires |listed| == |consumers|
  {
    exists k :: 0 <= k < |consumers| && pair.1 == consumers[k].consumer && pair.0 in listed[k]
  }

  /** Every consumer's part of a drain, and nothing besides. */
  ghost predicate AllDrained(before: Deliveries, after: Deliveries, ran: Runs, runs: Runs, consumers: seq<Registration>,
                             events: seq<string>, until: int, listed: seq<seq<nat>>)
    requires |listed| == |consumers|
  {
    && (forall k, id | 0 <= k < |consumers| && id in listed[k] ::
          DeliveredTo(before, after, ran, runs, consumers[k], events, until, id))
    && (forall pair | !Reached(consumers, listed, pair) :: Untouched(before, after, ran, runs, pair))
  }

  lemma NoneDrained(d: Deliveries, runs: Runs, consumers: seq<Registration>, events: seq<string>, until: int)
    ensures AllDrained(d, d, runs, runs, consumers[..0], events, until, [])
  {
  }

  lemma AllDrainedOn(before: Deliveries, was: Deliveries, after: Deliveries, ran: Runs, mid: Runs, runs: Runs,
                     consumers: seq<Registration>, were: seq<string>, events: seq<string>, until: int, later: int,
                     listed: seq<seq<nat>>, now: seq<nat>)
    requires |listed| < |consumers| && DistinctNames(consumers) && were <= events && until <= later
    requires AllDrained(before, was, ran, mid, consumers[..|listed|], were, until, listed)
    requires Drained(was, after, mid, runs, consumers[|listed|], events, later, now)
    ensures AllDrained(before, after, ran, runs, consumers[..|listed| + 1], events, later, listed + [now])
  {
    hide Delivered;
    var i := |listed|;
    var those, all, lists := consumers[..i], consumers[..i + 1], listed + [now];
    forall k, id | 0 <= k < |all| && id in lists[k]
      ensures DeliveredTo(before, after, ran, runs, all[k], events, later, id)
    {
      var pair := (id, all[k].consumer);
      if k < i {
        assert those[k] == all[k] && lists[k] == listed[k];
        assert DeliveredTo(before, was, ran, mid, those[k], were, until, id);
        assert were[id] == events[id];
        assert Untouched(was, after, mid, runs, pair);
        DeliveredThen(before, was, after, ran, mid, runs, pair,
                      all[k].eventTypes.None? || events[id] in all[k].eventTypes.value);
      } else {
        forall j | 0 <= j < |those| ensures those[j].consumer != pair.1 { assert those[j] == consumers[j]; }
        assert DeliveredTo(was, after, mid, runs, consumers[i], events, later, id);
        assert Untouched(before, was, ran, mid, pair);
        ThenDelivered(before, was, after, ran, mid, runs, pair,
                      all[k].eventTypes.None? || events[id] in all[k].eventTypes.value);
      }
    }
    forall k | 0 <= k < |those| ensures all[k] == those[k] && lists[k] == listed[k] {}
    forall pair | !Reached(all, lists, pair) ensures Untouched(before, after, ran, runs, pair) {
      assert all[i] == consumers[i] && lists[i] == now;
      UntouchedTwice(before, was, after, ran, mid, runs, pair);
    }
  }

  lemma UntouchedTwice(before: Deliveries, was: Deliveries, after: Deliveries, ran: Runs, mid: Runs, runs: Runs,
                       pair: Pair)
    requires Untouched(before, was, ran, mid, pair) && Untouched(was, after, mid, runs, pair)
    ensures Untouched(before, after, ran, runs, pair)
  {
  }

  lemma DeliveredThen(before: Deliveries, was: Deliveries, after: Deliveries, ran: Runs, mid: Runs, runs: Runs,
                      pair: Pair, wanted: bool)
    requires Delivered(before, was, ran, mid, pair, wanted) && Untouched(was, after, mid, runs, pair)
    ensures Delivered(before, after, ran, runs, pair, wanted)
  {
  }

  lemma ThenDelivered(before: Deliveries, was: Deliveries, after: Deliveries, ran: Runs, mid: Runs, runs: Runs,
                      pair: Pair, wanted: bool)
    requires Untouched(before, was, ran, mid, pair) && Delivered(was, after, mid, runs, pair, wanted)
    ensures Delivered(before, after, ran, runs, pair, wanted)
  {
  }

  /** What was due at the start is due when its consumer's turn comes. */
  lemma DueStill(before: Deliveries, was: Deliveries, ran: Runs, mid: Runs, consumers: seq<Registration>,
                 were: seq<string>, listed: seq<seq<nat>>, i: nat, atStart: nat, start: int, now: int, list: seq<nat>)
    requires i < |consumers| && |listed| == i && DistinctNames(consumers) && start <= now && atStart <= |were|
    requires AllDrained(before, was, ran, mid, consumers[..i], were, now, listed)
    requires ListsTheDue(was, consumers[i].consumer, |were|, now, list)
    ensures ListsTheDue(before, consumers[i].consumer, atStart, start, list)
  {
    hide Delivered;
    forall id: nat ensures Untouched(before, was, ran, mid, (id, consumers[i].consumer)) {
      forall k | 0 <= k < i ensures consumers[..i][k].consumer != consumers[i].consumer {
        assert consumers[..i][k] == consumers[k];
      }
    }
  }
}
