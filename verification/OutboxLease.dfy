/**
 * Several processors over one outbox, their steps interleaved at every await, some of them dying inside a handler.
 * The first results ask that each live processor reports within the stale window of its claim; the last one does not.
 */
module OutboxLease {
  import opened Options
  import opened Outbox

  function Count(times: map<Pair, nat>, pair: Pair): nat {
    if pair in times then times[pair] else 0
  }

  datatype Holding = Holding(pair: Pair, attempts: nat, claimedAtMs: int)

  /**
   * `lost` counts, by pair, the processors that died holding it; `runs` the claims, each of which starts the handler
   * unless the event is not subscribed to.
   */
  datatype World = World(deliveries: Deliveries, live: map<nat, Holding>, lost: map<Pair, nat>, runs: map<Pair, nat>)

  /** A claim, after which the handler runs; its report; a processor's death. */
  datatype Act =
    | Take(worker: nat, pair: Pair)
    | Finish(worker: nat, succeeded: bool, backoff: nat)
    | Crash(worker: nat)

  function Next(w: World, act: Act, now: int, maxAttempts: nat): World {
    match act
    case Take(worker, pair) =>
      if worker in w.live || !Claimable(w.deliveries, pair, now) then w
      else
        w.(deliveries := Taken(w.deliveries, pair, now),
           live := w.live[worker := Holding(pair, Attempts(w.deliveries, pair) + 1, now)],
           runs := w.runs[pair := Count(w.runs, pair) + 1])
    case Finish(worker, succeeded, backoff) =>
      if worker !in w.live then w
      else
        var h := w.live[worker];
        w.(deliveries := if succeeded then Done(w.deliveries, h.pair, now)
                         else GivenUp(w.deliveries, h.pair, h.attempts >= maxAttempts, now + backoff, now),
           live := w.live - {worker})
    case Crash(worker) =>
      if worker !in w.live then w
      else
        var pair := w.live[worker].pair;
        w.(live := w.live - {worker}, lost := w.lost[pair := Count(w.lost, pair) + 1])
  }

  datatype Turn = Turn(act: Act, now: int)

  function Run(w: World, run: seq<Turn>, maxAttempts: nat): World
    decreases |run|
  {
    if run == [] then w else Run(Next(w, run[0].act, run[0].now, maxAttempts), run[1..], maxAttempts)
  }

  /** Every live processor is still within its lease. */
  ghost predicate Leased(w: World, now: int) {
    forall worker | worker in w.live :: now - w.live[worker].claimedAtMs < STALE_PROCESSING_MS
  }

  ghost predicate LeasedRun(w: World, run: seq<Turn>, maxAttempts: nat)
    decreases |run|
  {
    run != [] ==>
      Leased(w, run[0].now) && LeasedRun(Next(w, run[0].act, run[0].now, maxAttempts), run[1..], maxAttempts)
  }

  predicate Held(w: World, pair: Pair) {
    exists worker :: worker in w.live && w.live[worker].pair == pair
  }

  /** One pair's attempts against the claims that were lost on it; each start of its handler is an attempt. */
  ghost predicate Paid(w: World, pair: Pair, maxAttempts: nat) {
    && Count(w.runs, pair) == Attempts(w.deliveries, pair)
    && (pair in w.deliveries ==>
          var x := w.deliveries[pair];
          && x.attempts <= maxAttempts + Count(w.lost, pair)
          && (x.status.Failed? ==> x.attempts < maxAttempts && x.nextAttemptAtMs.Some?)
          && (x.status.Processing? && !Held(w, pair) ==> x.attempts < maxAttempts + Count(w.lost, pair)))
  }

  /** A live processor's claim is the pair's last, and nobody else holds it. */
  ghost predicate Holds(w: World, worker: nat)
    requires worker in w.live
  {
    var h := w.live[worker];
    h.pair in w.deliveries && w.deliveries[h.pair] == Delivery(Processing, h.attempts, None, h.claimedAtMs)
  }

  ghost predicate Sound(w: World, maxAttempts: nat) {
    && (forall pair :: Paid(w, pair, maxAttempts))
    && (forall worker | worker in w.live :: Holds(w, worker))
    && (forall i, j | i in w.live && j in w.live && w.live[i].pair == w.live[j].pair :: i == j)
  }

  lemma TakeIsSound(w: World, worker: nat, pair: Pair, now: int, maxAttempts: nat)
    requires Sound(w, maxAttempts) && Leased(w, now) && maxAttempts > 0
    requires worker !in w.live && Claimable(w.deliveries, pair, now)
    ensures Sound(Next(w, Take(worker, pair), now, maxAttempts), maxAttempts)
  {
    var t := Next(w, Take(worker, pair), now, maxAttempts);
    forall i | i in w.live ensures w.live[i].pair != pair {
      assert Holds(w, i) && now - w.live[i].claimedAtMs < STALE_PROCESSING_MS;
    }
    assert t.live[worker].pair == pair;
    assert Held(t, pair);
    assert Paid(w, pair, maxAttempts);
    forall p | p != pair ensures Paid(t, p, maxAttempts) {
      assert Paid(w, p, maxAttempts);
      if Held(w, p) {
        var i :| i in w.live && w.live[i].pair == p;
        assert t.live[i].pair == p;
      }
    }
    forall i | i in t.live ensures Holds(t, i) { if i != worker { assert Holds(w, i); } }
  }

  /** The claim of one processor ends, by a report or by its death. */
  lemma EndIsSound(w: World, act: Act, now: int, maxAttempts: nat)
    requires Sound(w, maxAttempts) && (act.Finish? || act.Crash?) && act.worker in w.live
    ensures Sound(Next(w, act, now, maxAttempts), maxAttempts)
  {
    var t := Next(w, act, now, maxAttempts);
    assert Holds(w, act.worker);
    forall p ensures Paid(t, p, maxAttempts) {
      assert Paid(w, p, maxAttempts);
      if p != w.live[act.worker].pair && Held(w, p) {
        var i :| i in w.live && w.live[i].pair == p;
        assert i in t.live && t.live[i].pair == p;
      }
    }
    forall i | i in t.live ensures Holds(t, i) { assert Holds(w, i); }
  }

  lemma {:induction false} RunIsSound(w: World, run: seq<Turn>, maxAttempts: nat)
    requires Sound(w, maxAttempts) && LeasedRun(w, run, maxAttempts) && maxAttempts > 0
    ensures Sound(Run(w, run, maxAttempts), maxAttempts)
    decreases |run|
  {
    hide Sound, Leased, Claimable;
    if run != [] {
      var act, now := run[0].act, run[0].now;
      if act.Take? {
        if act.worker !in w.live && Claimable(w.deliveries, act.pair, now) {
          TakeIsSound(w, act.worker, act.pair, now, maxAttempts);
        }
      } else if act.worker in w.live {
        EndIsSound(w, act, now, maxAttempts);
      }
      RunIsSound(Next(w, act, now, maxAttempts), run[1..], maxAttempts);
    }
  }

  const EMPTY := World(map[], map[], map[], map[])

  /**
   * Under the lease, in every interleaving of processors and deaths, no delivery ever has two live processors, and its
   * handler runs at most maxAttempts times plus once for each processor that died inside it. With nobody left inside
   * one, with every backoff and stale window passed, what is not claimable is exactly what is completed or abandoned.
   */
  lemma RunsAreBoundedUnderLease(run: seq<Turn>, maxAttempts: nat, pair: Pair, now: int)
    requires LeasedRun(EMPTY, run, maxAttempts) && maxAttempts > 0
    ensures var w := Run(EMPTY, run, maxAttempts);
            && Count(w.runs, pair) <= maxAttempts + Count(w.lost, pair)
            && (forall i, j | i in w.live && j in w.live && w.live[i].pair == w.live[j].pair :: i == j)
            && (w.live == map[] && Rested(w.deliveries, now) ==>
                  (!Claimable(w.deliveries, pair, now) <==> Settled(w.deliveries, pair)))
  {
    hide Run, LeasedRun;
    assert Sound(EMPTY, maxAttempts);
    RunIsSound(EMPTY, run, maxAttempts);
    assert Paid(Run(EMPTY, run, maxAttempts), pair, maxAttempts);
  }

  /** The deaths in a run. */
  function Crashes(run: seq<Turn>): nat {
    if run == [] then 0 else (if run[0].act.Crash? then 1 else 0) + Crashes(run[1..])
  }

  lemma {:induction false} LossesAreCrashes(w: World, run: seq<Turn>, maxAttempts: nat, pair: Pair)
    ensures Count(Run(w, run, maxAttempts).lost, pair) <= Count(w.lost, pair) + Crashes(run)
    decreases |run|
  {
    if run != [] { LossesAreCrashes(Next(w, run[0].act, run[0].now, maxAttempts), run[1..], maxAttempts, pair); }
  }

  /** In deaths alone: under the lease a handler runs at most maxAttempts times and once more for each death. */
  lemma RunsAreBoundedByDeaths(run: seq<Turn>, maxAttempts: nat, pair: Pair)
    requires LeasedRun(EMPTY, run, maxAttempts) && maxAttempts > 0
    ensures Count(Run(EMPTY, run, maxAttempts).runs, pair) <= maxAttempts + Crashes(run)
  {
    RunsAreBoundedUnderLease(run, maxAttempts, pair, 0);
    LossesAreCrashes(EMPTY, run, maxAttempts, pair);
  }

  /** A processor that died, or reported, holds nothing until it claims again. */
  lemma {:induction false} TheDeadHoldNothing(w: World, run: seq<Turn>, maxAttempts: nat, worker: nat, i: int)
    requires -1 <= i < |run|
    requires i < 0 ==> worker !in w.live
    requires i >= 0 ==> (run[i].act.Crash? || run[i].act.Finish?) && run[i].act.worker == worker
    requires forall j | i < j < |run| :: !(run[j].act.Take? && run[j].act.worker == worker)
    ensures worker !in Run(w, run, maxAttempts).live
    decreases |run|
  {
    if run != [] {
      var next := Next(w, run[0].act, run[0].now, maxAttempts);
      TheDeadHoldNothing(next, run[1..], maxAttempts, worker, if i <= 0 then -1 else i - 1);
    }
  }

  /** Every backoff and every stale window has passed. */
  predicate Rested(d: Deliveries, now: int) {
    BackoffsDue(d, now)
    && forall pair | pair in d && d[pair].status.Processing? :: now - d[pair].updatedAtMs >= STALE_PROCESSING_MS
  }

  // ── Finality ───────────────────────────────────────────────────────────────

  lemma {:induction false} UnheldStays(w: World, run: seq<Turn>, maxAttempts: nat, pair: Pair)
    requires Settled(w.deliveries, pair) && !Held(w, pair)
    ensures var t := Run(w, run, maxAttempts); pair in t.deliveries && t.deliveries[pair] == w.deliveries[pair]
    decreases |run|
  {
    if run != [] {
      var t := Next(w, run[0].act, run[0].now, maxAttempts);
      assert t.deliveries[pair] == w.deliveries[pair] && !Held(t, pair);
      UnheldStays(t, run[1..], maxAttempts, pair);
    }
  }

  predicate Stays(w: World, run: seq<Turn>, maxAttempts: nat, pair: Pair)
    requires pair in w.deliveries
  {
    var t := Run(w, run, maxAttempts);
    pair in t.deliveries && t.deliveries[pair].status == w.deliveries[pair].status
  }

  /** A completed or abandoned delivery stays so in every run if and only if no processor still holds it. */
  lemma FinalExactlyWhenUnheld(w: World, maxAttempts: nat, pair: Pair)
    requires Settled(w.deliveries, pair)
    ensures (forall run :: Stays(w, run, maxAttempts, pair)) <==> !Held(w, pair)
  {
    if !Held(w, pair) {
      forall run ensures Stays(w, run, maxAttempts, pair) { UnheldStays(w, run, maxAttempts, pair); }
    } else {
      var worker :| worker in w.live && w.live[worker].pair == pair;
      var act := Finish(worker, !w.deliveries[pair].status.Completed?, 0);
      var run := [Turn(act, 0)];
      assert run[1..] == [] && Run(w, run, maxAttempts) == Next(w, act, 0, maxAttempts);
      assert !Stays(w, run, maxAttempts, pair);
    }
  }

  /**
   * A delivery completed while another processor holds it, reached without the lease: the late failure makes a
   * delivered event deliverable again.
   */
  lemma LateFailureReopensADelivery(pair: Pair, t: int, maxAttempts: nat)
    requires maxAttempts > 1
    ensures var late := t + STALE_PROCESSING_MS;
            var w := Run(EMPTY, [Turn(Take(0, pair), t), Turn(Take(1, pair), late), Turn(Finish(1, true, 0), late)],
                         maxAttempts);
            var w' := Next(w, Finish(0, false, 0), late, maxAttempts);
            && Settled(w.deliveries, pair) && Held(w, pair) && Claimable(w'.deliveries, pair, late)
  {
    var late := t + STALE_PROCESSING_MS;
    var a, b, c := Turn(Take(0, pair), t), Turn(Take(1, pair), late), Turn(Finish(1, true, 0), late);
    var w1 := Next(EMPTY, a.act, t, maxAttempts);
    var w2 := Next(w1, b.act, late, maxAttempts);
    var w3 := Next(w2, c.act, late, maxAttempts);
    assert [a, b, c][1..] == [b, c] && [b, c][1..] == [c] && [c][1..] == [];
    assert Run(w2, [c], maxAttempts) == w3;
    assert Run(w1, [b, c], maxAttempts) == w3;
    assert w3.live[0].pair == pair;
  }
}
