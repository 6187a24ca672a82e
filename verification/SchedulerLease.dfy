/**
 * Several executors over one store of scheduled actions, interleaved with producers and sweeps, some of them dying
 * inside a handler. Each live executor reports within the stale window of its claim.
 */
module SchedulerLease {
  import opened Options
  import opened Scheduler

  datatype Holding = Holding(key: string, attempts: nat, claimedAtMs: int)

  /** `lost` counts, by action, the executors that died holding it. */
  datatype World = World(actions: Actions, live: map<nat, Holding>, lost: map<string, nat>)

  datatype Act =
    | Produce(op: Op)
    | Take(worker: nat, key: string)
    | Finish(worker: nat, succeeded: bool, backoff: nat)
    | Crash(worker: nat)

  function Lost(w: World, key: string): nat {
    if key in w.lost then w.lost[key] else 0
  }

  /** What an executor reports: completion, or failure with a next attempt unless its own claim was the last. */
  function ReportOf(h: Holding, succeeded: bool, backoff: nat, now: int, maxAttempts: nat): Op {
    if succeeded then Complete(h.key) else Fail(h.key, if h.attempts >= maxAttempts then None else Some(now + backoff))
  }

  function Next(w: World, act: Act, now: int, maxAttempts: nat): World {
    match act
    case Produce(op) => w.(actions := Apply(w.actions, op, now, maxAttempts))
    case Take(worker, key) =>
      if worker in w.live || !Starts(w.actions, Claim(key), now, maxAttempts) then w
      else
        var after := Apply(w.actions, Claim(key), now, maxAttempts);
        w.(actions := after, live := w.live[worker := Holding(key, after[key].attempts, now)])
    case Finish(worker, succeeded, backoff) =>
      if worker !in w.live then w
      else
        var report := ReportOf(w.live[worker], succeeded, backoff, now, maxAttempts);
        w.(actions := Apply(w.actions, report, now, maxAttempts), live := w.live - {worker})
    case Crash(worker) =>
      if worker !in w.live then w
      else
        var key := w.live[worker].key;
        w.(live := w.live - {worker}, lost := w.lost[key := Lost(w, key) + 1])
  }

  /** Every live executor is still within its lease. */
  ghost predicate Leased(w: World, now: int) {
    forall worker | worker in w.live :: now - w.live[worker].claimedAtMs < STALE_PROCESSING_MS
  }

  /** Producers and sweeps; claims and reports come from executors. */
  predicate Produces(act: Act) {
    act.Produce? ==> act.op.Schedule? || act.op.Cancel? || act.op.Sweep?
  }

  datatype Turn = Turn(act: Act, now: int)

  function Run(w: World, run: seq<Turn>, maxAttempts: nat): World
    decreases |run|
  {
    if run == [] then w else Run(Next(w, run[0].act, run[0].now, maxAttempts), run[1..], maxAttempts)
  }

  ghost predicate LeasedRun(w: World, run: seq<Turn>, maxAttempts: nat)
    decreases |run|
  {
    run != [] ==>
      && Leased(w, run[0].now) && Produces(run[0].act)
      && LeasedRun(Next(w, run[0].act, run[0].now, maxAttempts), run[1..], maxAttempts)
  }

  predicate Held(w: World, key: string) {
    exists worker :: worker in w.live && w.live[worker].key == key
  }

  /** One action's attempts against the claims that were lost on it. */
  ghost predicate Paid(w: World, key: string, maxAttempts: nat)
    requires key in w.actions
  {
    var a := w.actions[key];
    && a.attempts <= maxAttempts + Lost(w, key)
    && (a.state.Pending? ==> a.attempts == 0)
    && (a.state.Processing? && !Held(w, key) ==> a.attempts < maxAttempts + Lost(w, key))
  }

  /** A live executor's claim is the action's last, and nobody else holds it. */
  ghost predicate Holds(w: World, worker: nat)
    requires worker in w.live
  {
    var h := w.live[worker];
    && h.key in w.actions && w.actions[h.key].attempts == h.attempts
    && (w.actions[h.key].state.Processing? || w.actions[h.key].state.Cancelled? || w.actions[h.key].state.Expired?)
    && (w.actions[h.key].state.Processing? ==> w.actions[h.key].updatedAtMs == h.claimedAtMs)
  }

  ghost predicate Sound(w: World, maxAttempts: nat) {
    && (forall key | key in w.actions :: Paid(w, key, maxAttempts))
    && (forall worker | worker in w.live :: Holds(w, worker))
    && (forall i, j | i in w.live && j in w.live && w.live[i].key == w.live[j].key :: i == j)
  }

  lemma ProduceIsSound(w: World, op: Op, now: int, maxAttempts: nat)
    requires Sound(w, maxAttempts) && (op.Schedule? || op.Cancel? || op.Sweep?)
    ensures Sound(Next(w, Produce(op), now, maxAttempts), maxAttempts)
  {
    var t := Next(w, Produce(op), now, maxAttempts);
    forall key ensures Held(t, key) == Held(w, key) {}
    forall key | key in t.actions ensures Paid(t, key, maxAttempts) {
      if key in w.actions { assert Paid(w, key, maxAttempts); }
    }
    forall worker | worker in t.live ensures Holds(t, worker) { assert Holds(w, worker); }
  }

  lemma TakeIsSound(w: World, worker: nat, key: string, now: int, maxAttempts: nat)
    requires Sound(w, maxAttempts) && Leased(w, now) && maxAttempts > 0
    requires worker !in w.live && Starts(w.actions, Claim(key), now, maxAttempts)
    ensures !Held(w, key) && Sound(Next(w, Take(worker, key), now, maxAttempts), maxAttempts)
  {
    var t := Next(w, Take(worker, key), now, maxAttempts);
    forall i | i in w.live ensures w.live[i].key != key {
      assert Holds(w, i) && now - w.live[i].claimedAtMs < STALE_PROCESSING_MS;
    }
    assert t.live[worker].key == key;
    assert Held(t, key);
    assert Paid(w, key, maxAttempts);
    forall k | k in t.actions && k != key ensures Paid(t, k, maxAttempts) {
      assert Paid(w, k, maxAttempts);
      if Held(w, k) {
        var i :| i in w.live && w.live[i].key == k;
        assert t.live[i].key == k;
      }
    }
    forall i | i in t.live ensures Holds(t, i) { if i != worker { assert Holds(w, i); } }
  }

  lemma FinishIsSound(w: World, worker: nat, succeeded: bool, backoff: nat, now: int, maxAttempts: nat)
    requires Sound(w, maxAttempts) && worker in w.live
    ensures Sound(Next(w, Finish(worker, succeeded, backoff), now, maxAttempts), maxAttempts)
  {
    var t := Next(w, Finish(worker, succeeded, backoff), now, maxAttempts);
    var key := w.live[worker].key;
    assert Holds(w, worker);
    forall k | k in t.actions ensures Paid(t, k, maxAttempts) {
      assert Paid(w, k, maxAttempts);
      if k != key && Held(w, k) {
        var i :| i in w.live && w.live[i].key == k;
        assert i in t.live && t.live[i].key == k;
      }
    }
    forall i | i in t.live ensures Holds(t, i) { assert Holds(w, i); }
  }

  lemma CrashIsSound(w: World, worker: nat, now: int, maxAttempts: nat)
    requires Sound(w, maxAttempts) && worker in w.live
    ensures Sound(Next(w, Crash(worker), now, maxAttempts), maxAttempts)
  {
    var t := Next(w, Crash(worker), now, maxAttempts);
    var key := w.live[worker].key;
    forall k | k in t.actions ensures Paid(t, k, maxAttempts) {
      assert Paid(w, k, maxAttempts);
      if k != key && Held(w, k) {
        var i :| i in w.live && w.live[i].key == k;
        assert i in t.live && t.live[i].key == k;
      }
    }
    forall i | i in t.live ensures Holds(t, i) { assert Holds(w, i); }
  }

  lemma StepIsSound(w: World, act: Act, now: int, maxAttempts: nat)
    requires Sound(w, maxAttempts) && Leased(w, now) && Produces(act) && maxAttempts > 0
    ensures Sound(Next(w, act, now, maxAttempts), maxAttempts)
  {
    hide Sound, Leased, Apply, Starts, ReportOf;
    match act
    case Produce(op) => ProduceIsSound(w, op, now, maxAttempts);
    case Take(worker, key) =>
      if worker !in w.live && Starts(w.actions, Claim(key), now, maxAttempts) {
        TakeIsSound(w, worker, key, now, maxAttempts);
      }
    case Finish(worker, succeeded, backoff) =>
      if worker in w.live { FinishIsSound(w, worker, succeeded, backoff, now, maxAttempts); }
    case Crash(worker) =>
      if worker in w.live { CrashIsSound(w, worker, now, maxAttempts); }
  }

  lemma {:induction false} RunIsSound(w: World, run: seq<Turn>, maxAttempts: nat)
    requires Sound(w, maxAttempts) && LeasedRun(w, run, maxAttempts) && maxAttempts > 0
    ensures Sound(Run(w, run, maxAttempts), maxAttempts)
    decreases |run|
  {
    hide Sound, Next, Leased;
    if run != [] {
      StepIsSound(w, run[0].act, run[0].now, maxAttempts);
      RunIsSound(Next(w, run[0].act, run[0].now, maxAttempts), run[1..], maxAttempts);
    }
  }

  const EMPTY := World(map[], map[], map[])

  /**
   * Under the lease, in every interleaving of executors, producers, sweeps and deaths, no action ever has two live
   * executors, and it is attempted at most maxAttempts times plus once for each executor that died holding it.
   */
  lemma AttemptsAreBoundedUnderLease(run: seq<Turn>, maxAttempts: nat, key: string)
    requires LeasedRun(EMPTY, run, maxAttempts) && maxAttempts > 0
    ensures var w := Run(EMPTY, run, maxAttempts);
            && (key in w.actions ==> w.actions[key].attempts <= maxAttempts + Lost(w, key))
            && (forall i, j | i in w.live && j in w.live && w.live[i].key == w.live[j].key :: i == j)
  {
    hide Run, LeasedRun;
    assert Sound(EMPTY, maxAttempts);
    RunIsSound(EMPTY, run, maxAttempts);
    var w := Run(EMPTY, run, maxAttempts);
    assert key in w.actions ==> Paid(w, key, maxAttempts);
  }

  lemma {:induction false} NobodyLost(w: World, run: seq<Turn>, maxAttempts: nat)
    requires forall i | 0 <= i < |run| :: !run[i].act.Crash?
    ensures Run(w, run, maxAttempts).lost == w.lost
    decreases |run|
  {
    hide Apply;
    if run != [] {
      forall i | 0 <= i < |run[1..]| ensures !run[1..][i].act.Crash? { assert run[1..][i] == run[i + 1]; }
      NobodyLost(Next(w, run[0].act, run[0].now, maxAttempts), run[1..], maxAttempts);
    }
  }

  /** So without a death inside a handler attempts never exceed maxAttempts, however many executors there are. */
  lemma NoDeathNoExcess(run: seq<Turn>, maxAttempts: nat, key: string)
    requires LeasedRun(EMPTY, run, maxAttempts) && maxAttempts > 0 && forall i | 0 <= i < |run| :: !run[i].act.Crash?
    ensures var w := Run(EMPTY, run, maxAttempts); key in w.actions ==> w.actions[key].attempts <= maxAttempts
  {
    hide Run, LeasedRun;
    AttemptsAreBoundedUnderLease(run, maxAttempts, key);
    NobodyLost(EMPTY, run, maxAttempts);
  }

  // ── The bound is reached ───────────────────────────────────────────────────

  lemma {:induction false} RunInTwo(w: World, a: seq<Turn>, b: seq<Turn>, maxAttempts: nat)
    ensures Run(w, a + b, maxAttempts) == Run(Run(w, a, maxAttempts), b, maxAttempts)
    ensures LeasedRun(w, a, maxAttempts) && LeasedRun(Run(w, a, maxAttempts), b, maxAttempts) ==>
              LeasedRun(w, a + b, maxAttempts)
    decreases |a|
  {
    hide Next, Leased;
    if a == [] {
      assert a + b == b;
    } else {
      assert (a + b)[1..] == a[1..] + b;
      RunInTwo(Next(w, a[0].act, a[0].now, maxAttempts), a[1..], b, maxAttempts);
    }
  }

  lemma RunOfTwo(w: World, a: Turn, b: Turn, maxAttempts: nat)
    ensures Run(w, [a, b], maxAttempts) == Next(Next(w, a.act, a.now, maxAttempts), b.act, b.now, maxAttempts)
    ensures Leased(w, a.now) && Leased(Next(w, a.act, a.now, maxAttempts), b.now) ==>
              Produces(a.act) && Produces(b.act) ==> LeasedRun(w, [a, b], maxAttempts)
  {
    hide Next, Leased;
    var w1 := Next(w, a.act, a.now, maxAttempts);
    assert [a, b][1..] == [b] && [b][1..] == [];
    assert Run(w1, [b], maxAttempts) == Next(w1, b.act, b.now, maxAttempts);
    assert LeasedRun(Next(w1, b.act, b.now, maxAttempts), [], maxAttempts);
    assert Leased(w1, b.now) && Produces(b.act) ==> LeasedRun(w1, [b], maxAttempts);
  }

  /** Scheduled, and attempted n times without success; then n times abandoned by an executor that dies at once. */
  function Failures(key: string, actionType: string, t: int, n: nat): seq<Turn> {
    if n == 0 then [Turn(Produce(Schedule(key, actionType, t, None)), t)]
    else Failures(key, actionType, t, n - 1) + [Turn(Take(0, key), t), Turn(Finish(0, false, 0), t)]
  }

  function Deaths(key: string, t: int, n: nat): seq<Turn> {
    if n == 0 then []
    else Deaths(key, t, n - 1) + [Turn(Take(0, key), t + n * STALE_PROCESSING_MS),
                                  Turn(Crash(0), t + n * STALE_PROCESSING_MS)]
  }

  lemma {:induction false} AfterFailures(key: string, actionType: string, t: int, n: nat, maxAttempts: nat)
    requires n < maxAttempts
    ensures LeasedRun(EMPTY, Failures(key, actionType, t, n), maxAttempts)
    ensures var w := Run(EMPTY, Failures(key, actionType, t, n), maxAttempts);
            && w.live == map[] && w.lost == map[] && w.actions.Keys == {key}
            && w.actions[key] == (if n == 0 then Action(actionType, t, None, Pending, 0, None, t)
                                  else Action(actionType, t, None, Failed, n, Some(t), t))
  {
    if n == 0 {
      var first := Failures(key, actionType, t, 0);
      assert first[1..] == [];
      assert Run(EMPTY, first, maxAttempts) == Next(EMPTY, first[0].act, t, maxAttempts);
      assert LeasedRun(Next(EMPTY, first[0].act, t, maxAttempts), [], maxAttempts);
    } else {
      AfterFailures(key, actionType, t, n - 1, maxAttempts);
      var w := Run(EMPTY, Failures(key, actionType, t, n - 1), maxAttempts);
      var a, b := Turn(Take(0, key), t), Turn(Finish(0, false, 0), t);
      FailedOnce(w, key, t, maxAttempts);
      RunOfTwo(w, a, b, maxAttempts);
      RunInTwo(EMPTY, Failures(key, actionType, t, n - 1), [a, b], maxAttempts);
    }
  }

  lemma FailedOnce(w: World, key: string, t: int, maxAttempts: nat)
    requires w.live == map[] && w.actions.Keys == {key} && ClaimableNow(w.actions[key], t, maxAttempts)
             && w.actions[key].attempts + 1 < maxAttempts
    ensures var w1 := Next(w, Take(0, key), t, maxAttempts); var w2 := Next(w1, Finish(0, false, 0), t, maxAttempts);
            && Leased(w, t) && Leased(w1, t) && w2.live == map[] && w2.lost == w.lost && w2.actions.Keys == {key}
            && w2.actions[key] == w.actions[key].(state := Failed, attempts := w.actions[key].attempts + 1,
                                                  nextAttemptAtMs := Some(t), updatedAtMs := t)
  {
  }

  lemma DiedOnce(w: World, key: string, now: int, maxAttempts: nat)
    requires w.live == map[] && w.actions.Keys == {key} && ClaimableNow(w.actions[key], now, maxAttempts)
    ensures var w1 := Next(w, Take(0, key), now, maxAttempts); var w2 := Next(w1, Crash(0), now, maxAttempts);
            && Leased(w, now) && Leased(w1, now) && w2.live == map[] && w2.lost == w.lost[key := Lost(w, key) + 1]
            && w2.actions.Keys == {key} && w2.actions[key] == Taken(w.actions[key], now)
  {
  }

  lemma {:induction false} AfterDeaths(w: World, key: string, t: int, n: nat, maxAttempts: nat)
    requires w.live == map[] && w.lost == map[] && w.actions.Keys == {key}
    requires ClaimableNow(w.actions[key], t + STALE_PROCESSING_MS, maxAttempts)
    ensures LeasedRun(w, Deaths(key, t, n), maxAttempts)
    ensures var u := Run(w, Deaths(key, t, n), maxAttempts);
            && u.live == map[] && u.actions.Keys == {key} && Lost(u, key) == n
            && u.actions[key].attempts == w.actions[key].attempts + n
            && (n == 0 ==> u.actions == w.actions)
            && (n > 0 ==> u.actions[key].state.Processing? && u.actions[key].updatedAtMs == t + n * STALE_PROCESSING_MS)
  {
    if n > 0 {
      AfterDeaths(w, key, t, n - 1, maxAttempts);
      var u := Run(w, Deaths(key, t, n - 1), maxAttempts);
      var at := t + n * STALE_PROCESSING_MS;
      var a, b := Turn(Take(0, key), at), Turn(Crash(0), at);
      DiedOnce(u, key, at, maxAttempts);
      RunOfTwo(u, a, b, maxAttempts);
      RunInTwo(w, Deaths(key, t, n - 1), [a, b], maxAttempts);
    }
  }

  /**
   * The bound is reached, for every number of attempts allowed and every number of deaths: a stale reclaim does not
   * look at the attempts.
   */
  lemma EveryDeathCostsAnAttempt(key: string, actionType: string, t: int, deaths: nat, maxAttempts: nat)
    requires maxAttempts > 0
    ensures var run := Failures(key, actionType, t, maxAttempts - 1) + Deaths(key, t, deaths)
                       + [Turn(Take(0, key), t + (deaths + 1) * STALE_PROCESSING_MS)];
            var w := Run(EMPTY, run, maxAttempts);
            && LeasedRun(EMPTY, run, maxAttempts) && Lost(w, key) == deaths
            && key in w.actions && w.actions[key].attempts == maxAttempts + deaths
  {
    var failures, dying := Failures(key, actionType, t, maxAttempts - 1), Deaths(key, t, deaths);
    var last := [Turn(Take(0, key), t + (deaths + 1) * STALE_PROCESSING_MS)];
    AfterFailures(key, actionType, t, maxAttempts - 1, maxAttempts);
    var w := Run(EMPTY, failures, maxAttempts);
    AfterDeaths(w, key, t, deaths, maxAttempts);
    RunInTwo(EMPTY, failures, dying, maxAttempts);
    var u := Run(EMPTY, failures + dying, maxAttempts);
    assert last[1..] == [];
    assert Run(u, last, maxAttempts) == Next(u, last[0].act, last[0].now, maxAttempts);
    assert LeasedRun(Next(u, last[0].act, last[0].now, maxAttempts), [], maxAttempts);
    RunInTwo(EMPTY, failures + dying, last, maxAttempts);
  }

  // ── Finality ───────────────────────────────────────────────────────────────

  /** Whatever the clock, the executors and the producers do: no lease is asked for. */
  ghost predicate Producing(run: seq<Turn>) {
    forall i | 0 <= i < |run| :: Produces(run[i].act)
  }

  lemma {:induction false} UnheldStays(w: World, run: seq<Turn>, maxAttempts: nat, key: string)
    requires key in w.actions && Terminal(w.actions[key].state) && !Held(w, key) && Producing(run)
    ensures var t := Run(w, run, maxAttempts); key in t.actions && t.actions[key] == w.actions[key]
    decreases |run|
  {
    if run != [] {
      var t := Next(w, run[0].act, run[0].now, maxAttempts);
      assert Produces(run[0].act);
      assert t.actions[key] == w.actions[key] && !Held(t, key);
      assert forall i | 0 <= i < |run[1..]| :: run[1..][i] == run[i + 1];
      UnheldStays(t, run[1..], maxAttempts, key);
    }
  }

  /**
   * A completed, cancelled or expired action keeps its state in every run if and only if no executor still holds it.
   */
  lemma FinalExactlyWhenUnheld(w: World, maxAttempts: nat, key: string)
    requires key in w.actions && Terminal(w.actions[key].state)
    ensures (forall run | Producing(run) ::
               var t := Run(w, run, maxAttempts); key in t.actions && t.actions[key].state == w.actions[key].state)
            <==> !Held(w, key)
  {
    if !Held(w, key) {
      forall run | Producing(run)
        ensures var t := Run(w, run, maxAttempts); key in t.actions && t.actions[key] == w.actions[key]
      {
        UnheldStays(w, run, maxAttempts, key);
      }
    } else {
      var worker :| worker in w.live && w.live[worker].key == key;
      var act := Finish(worker, !w.actions[key].state.Completed?, 0);
      var run := [Turn(act, 0)];
      assert Producing(run) && run[1..] == [] && Run(w, run, maxAttempts) == Next(w, act, 0, maxAttempts);
    }
  }
}
