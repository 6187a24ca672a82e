/**
 * Scheduled actions and the scheduler's drain.
 *
 * The first half is the store as a state machine: any interleaving of producers, sweeps and executors, some of which
 * die between their claim and their report. The second half is the drain itself, run by one executor whose handlers
 * may call the producer operations and may fail, but do not die.
 */
module Scheduler {
  import opened Options
  import opened Retries

  const STALE_PROCESSING_MS := 300_000
  const CANDIDATE_LIMIT := 100

  datatype State = Pending | Processing | Completed | Failed | Cancelled | Expired

  datatype Action = Action(actionType: string, runAtMs: int, expiresAtMs: Option<int>, state: State, attempts: nat,
                           nextAttemptAtMs: Option<int>, updatedAtMs: int)

  type Actions = map<string, Action>

  /** The exhausted `Failed` is not among the terminal states. */
  predicate Terminal(s: State) {
    s.Completed? || s.Cancelled? || s.Expired?
  }

  predicate Overdue(a: Action, now: int) {
    a.expiresAtMs.Some? && a.expiresAtMs.value <= now
  }

  predicate ClaimableNow(a: Action, now: int, maxAttempts: nat) {
    match a.state
    case Pending => a.runAtMs <= now
    case Failed => a.attempts < maxAttempts && a.nextAttemptAtMs.Some? && a.nextAttemptAtMs.value <= now
    case Processing => now - a.updatedAtMs >= STALE_PROCESSING_MS
    case _ => false
  }

  function Taken(a: Action, now: int): Action {
    a.(state := Processing, attempts := a.attempts + 1, nextAttemptAtMs := None, updatedAtMs := now)
  }

  function Swept(a: Action, now: int): Action {
    if !Terminal(a.state) && Overdue(a, now) then a.(state := Expired, updatedAtMs := now) else a
  }

  // ── The store as a state machine ───────────────────────────────────────────

  datatype Op =
    | Schedule(key: string, actionType: string, runAtMs: int, expiresAtMs: Option<int>)
    | Cancel(key: string)
    | Sweep
    | Claim(key: string)
    | Complete(key: string)
    | Fail(key: string, nextAttemptAtMs: Option<int>)

  function Apply(s: Actions, op: Op, now: int, maxAttempts: nat): Actions {
    match op
    case Schedule(key, actionType, runAtMs, expiresAtMs) =>
      if key in s then s else s[key := Action(actionType, runAtMs, expiresAtMs, Pending, 0, None, now)]
    case Cancel(key) =>
      if key !in s || Terminal(s[key].state) then s else s[key := s[key].(state := Cancelled, updatedAtMs := now)]
    case Sweep =>
      map key | key in s :: Swept(s[key], now)
    case Claim(key) =>
      if key !in s || !ClaimableNow(s[key], now, maxAttempts) then s else s[key := Taken(s[key], now)]
    case Complete(key) =>
      if key !in s then s else s[key := s[key].(state := Completed, updatedAtMs := now)]
    case Fail(key, next) =>
      if key !in s then s else s[key := s[key].(state := Failed, nextAttemptAtMs := next, updatedAtMs := now)]
  }

  /** A claim that succeeds starts the action's handler. */
  predicate Starts(s: Actions, op: Op, now: int, maxAttempts: nat) {
    op.Claim? && op.key in s && ClaimableNow(s[op.key], now, maxAttempts)
  }

  /** Only an executor that once claimed an action reports on it. */
  predicate Legal(s: Actions, op: Op) {
    (op.Complete? || op.Fail?) ==> op.key in s && s[op.key].attempts > 0
  }

  /** Nothing is attempted before its time. */
  ghost predicate Sound(s: Actions, now: int) {
    forall key | key in s ::
      && s[key].updatedAtMs <= now
      && (s[key].attempts > 0 ==> s[key].runAtMs <= s[key].updatedAtMs)
      && ((s[key].state.Processing? || s[key].state.Failed?) ==> s[key].attempts > 0)
  }

  datatype Timed = At(now: int, op: Op)

  ghost predicate LegalRun(s: Actions, steps: seq<Timed>, since: int, maxAttempts: nat)
    decreases |steps|
  {
    steps != [] ==>
      && since <= steps[0].now
      && Legal(s, steps[0].op)
      && LegalRun(Apply(s, steps[0].op, steps[0].now, maxAttempts), steps[1..], steps[0].now, maxAttempts)
  }

  function Run(s: Actions, steps: seq<Timed>, maxAttempts: nat): Actions
    decreases |steps|
  {
    if steps == [] then s
    else Run(Apply(s, steps[0].op, steps[0].now, maxAttempts), steps[1..], maxAttempts)
  }

  lemma StepIsSound(s: Actions, op: Op, since: int, now: int, maxAttempts: nat)
    requires Sound(s, since) && since <= now && Legal(s, op)
    ensures Sound(Apply(s, op, now, maxAttempts), now)
    ensures Starts(s, op, now, maxAttempts) ==> s[op.key].runAtMs <= now
  {
    var t := Apply(s, op, now, maxAttempts);
    forall key | key in t
      ensures t[key].updatedAtMs <= now
      ensures t[key].attempts > 0 ==> t[key].runAtMs <= t[key].updatedAtMs
      ensures (t[key].state.Processing? || t[key].state.Failed?) ==> t[key].attempts > 0
    {
      if key in s { assert s[key].updatedAtMs <= since; }
    }
  }

  /** What no step changes about an action once it is scheduled. */
  lemma {:induction false} ScheduledOnce(s: Actions, steps: seq<Timed>, maxAttempts: nat, key: string)
    requires key in s
    ensures var t := Run(s, steps, maxAttempts);
            key in t && t[key].runAtMs == s[key].runAtMs && t[key].expiresAtMs == s[key].expiresAtMs
            && t[key].actionType == s[key].actionType && t[key].attempts >= s[key].attempts
    decreases |steps|
  {
    if steps != [] {
      ScheduledOnce(Apply(s, steps[0].op, steps[0].now, maxAttempts), steps[1..], maxAttempts, key);
    }
  }

  lemma {:induction false} RunIsSound(s: Actions, steps: seq<Timed>, since: int, maxAttempts: nat)
    requires Sound(s, since) && LegalRun(s, steps, since, maxAttempts)
    ensures Sound(Run(s, steps, maxAttempts), if steps == [] then since else steps[|steps| - 1].now)
    decreases |steps|
  {
    if steps != [] {
      StepIsSound(s, steps[0].op, since, steps[0].now, maxAttempts);
      RunIsSound(Apply(s, steps[0].op, steps[0].now, maxAttempts), steps[1..], steps[0].now, maxAttempts);
    }
  }

  lemma {:induction false} RunSplits(s: Actions, steps: seq<Timed>, since: int, i: nat, maxAttempts: nat)
    requires i < |steps| && LegalRun(s, steps, since, maxAttempts)
    ensures LegalRun(s, steps[..i], since, maxAttempts)
    ensures (if i == 0 then since else steps[i - 1].now) <= steps[i].now
    ensures Legal(Run(s, steps[..i], maxAttempts), steps[i].op)
    decreases |steps|
  {
    if i > 0 {
      assert steps[..i][1..] == steps[1..][..i - 1];
      RunSplits(Apply(s, steps[0].op, steps[0].now, maxAttempts), steps[1..], steps[0].now, i - 1, maxAttempts);
    } else {
      assert steps[..i] == [];
    }
  }

  /**
   * In every run of every interleaving, no handler starts before its action's time, crashes and retries included; nor
   * before the time its last failure set, nor beside another executor within the stale window of its claim.
   */
  lemma NeverEarly(steps: seq<Timed>, since: int, i: nat, maxAttempts: nat)
    requires i < |steps| && LegalRun(map[], steps, since, maxAttempts)
    requires Starts(Run(map[], steps[..i], maxAttempts), steps[i].op, steps[i].now, maxAttempts)
    ensures var a := Run(map[], steps[..i], maxAttempts)[steps[i].op.key];
            && a.runAtMs <= steps[i].now
            && (a.state.Failed? ==>
                  a.attempts < maxAttempts && a.nextAttemptAtMs.Some? && a.nextAttemptAtMs.value <= steps[i].now)
            && (a.state.Processing? ==> steps[i].now - a.updatedAtMs >= 300_000)
            && !a.state.Completed? && !a.state.Cancelled? && !a.state.Expired?
  {
    RunSplits(map[], steps, since, i, maxAttempts);
    RunIsSound(map[], steps[..i], since, maxAttempts);
    if i > 0 { assert steps[..i][i - 1] == steps[i - 1]; }
    StepIsSound(Run(map[], steps[..i], maxAttempts), steps[i].op, if i == 0 then since else steps[i - 1].now,
                steps[i].now, maxAttempts);
  }

  /** A completed, cancelled or expired action stays exactly as it is, unless an executor that held it still reports. */
  lemma {:induction false} TerminalIsFinal(s: Actions, steps: seq<Timed>, maxAttempts: nat, key: string)
    requires key in s && Terminal(s[key].state)
    requires forall i | 0 <= i < |steps| :: !((steps[i].op.Complete? || steps[i].op.Fail?) && steps[i].op.key == key)
    ensures key in Run(s, steps, maxAttempts) && Run(s, steps, maxAttempts)[key] == s[key]
    decreases |steps|
  {
    if steps != [] {
      var t := Apply(s, steps[0].op, steps[0].now, maxAttempts);
      assert t[key] == s[key];
      forall i | 0 <= i < |steps[1..]|
        ensures !((steps[1..][i].op.Complete? || steps[1..][i].op.Fail?) && steps[1..][i].op.key == key)
      {
        assert steps[1..][i] == steps[i + 1];
      }
      TerminalIsFinal(t, steps[1..], maxAttempts, key);
    }
  }

  /**
   * An action not in processing that is cancelled or swept never starts again, whoever runs, if nobody else holds it.
   */
  lemma WithdrawnNeverStarts(s: Actions, withdraw: Timed, steps: seq<Timed>, next: Timed, maxAttempts: nat, key: string)
    requires key in s && (withdraw.op == Cancel(key) || (withdraw.op.Sweep? && Overdue(s[key], withdraw.now)))
    requires forall i | 0 <= i < |steps| :: !((steps[i].op.Complete? || steps[i].op.Fail?) && steps[i].op.key == key)
    requires next.op == Claim(key)
    ensures !Starts(Run(Apply(s, withdraw.op, withdraw.now, maxAttempts), steps, maxAttempts), next.op, next.now,
                    maxAttempts)
  {
    TerminalIsFinal(Apply(s, withdraw.op, withdraw.now, maxAttempts), steps, maxAttempts, key);
  }

  /** A cancellation accepted while the handler runs does not survive the handler's report. */
  lemma CancelDuringHandlerIsLost(s: Actions, key: string, maxAttempts: nat, cancelled: int, reported: int,
                                  next: Option<int>)
    requires key in s && s[key].state.Processing?
    ensures var t := Apply(s, Cancel(key), cancelled, maxAttempts);
            && t[key].state.Cancelled?
            && Apply(t, Complete(key), reported, maxAttempts)[key].state.Completed?
            && Apply(t, Fail(key, next), reported, maxAttempts)[key].state.Failed?
  {
  }

  /**
   * A claim does not look at the expiry. So an action that was due at the sweep starts although it is past its expiry
   * exactly when the expiry falls after the sweep's reading of the clock and no later than the claim's.
   */
  lemma LateExactlyWhen(s: Actions, key: string, swept: int, claimed: int, maxAttempts: nat)
    requires key in s && ClaimableNow(s[key], swept, maxAttempts) && swept <= claimed
    ensures var t := Apply(s, Sweep, swept, maxAttempts);
            Starts(t, Claim(key), claimed, maxAttempts) && Overdue(t[key], claimed)
            <==> s[key].expiresAtMs.Some? && swept < s[key].expiresAtMs.value <= claimed
  {
  }

  // ── The drain ──────────────────────────────────────────────────────────────

  /** An action while no handler is running. */
  predicate AtRest(a: Action, maxAttempts: nat) {
    && !a.state.Processing?
    && a.attempts <= maxAttempts
    && (a.state.Pending? ==> a.attempts == 0)
    && (a.state.Failed? ==> (a.nextAttemptAtMs.None? <==> a.attempts == maxAttempts))
  }

  ghost predicate AllAtRest(s: Actions, maxAttempts: nat) {
    forall key | key in s :: AtRest(s[key], maxAttempts)
  }

  /** Every run of an action's handler in order: whether it returned normally. */
  type Runs = map<string, seq<bool>>

  function Verdicts(runs: Runs, key: string): seq<bool> {
    if key in runs then runs[key] else []
  }

  /**
   * What an action's state says of its handler's runs: one for each attempt, unless no handler is registered, all but
   * the last failed, and the last succeeded if and only if the action is completed.
   */
  ghost predicate Accounts(verdicts: seq<bool>, a: Action, handlers: set<string>) {
    && |verdicts| == (if a.actionType in handlers then a.attempts else 0)
    && (forall i | 0 <= i < |verdicts| - 1 :: !verdicts[i])
    && (a.state.Completed? <==> verdicts != [] && verdicts[|verdicts| - 1])
  }

  ghost predicate Accounted(runs: Runs, s: Actions, handlers: set<string>) {
    && (forall key | key in s :: Accounts(Verdicts(runs, key), s[key], handlers))
    && (forall key | key !in s :: Verdicts(runs, key) == [])
  }

  /** What producers can do to a store: schedule new keys and cancel what is not settled. */
  ghost predicate Meddled(s: Actions, t: Actions, now: int) {
    && (forall key | key in s :: key in t && (t[key] == s[key]
          || (!Terminal(s[key].state) && s[key].updatedAtMs <= t[key].updatedAtMs <= now
              && t[key] == s[key].(state := Cancelled, updatedAtMs := t[key].updatedAtMs))))
    && (forall key | key in t && key !in s ::
          (t[key].state.Pending? || t[key].state.Cancelled?) && t[key].attempts == 0 && t[key].updatedAtMs <= now)
  }

  /** What a whole drain leaves alone. */
  ghost predicate Kept(s: Actions, t: Actions) {
    forall key | key in s ::
      && key in t
      && t[key].runAtMs == s[key].runAtMs && t[key].expiresAtMs == s[key].expiresAtMs
      && t[key].actionType == s[key].actionType
      && (Terminal(s[key].state) ==> t[key] == s[key])
  }

  /** Away from one key, a processed candidate's handler can only have cancelled, or scheduled something new. */
  ghost predicate Aside(s: Actions, t: Actions, key: string) {
    && (forall other | other in s && other != key :: other in t && (t[other] == s[other] || t[other].state.Cancelled?))
    && (forall other | other in t && other !in s :: !t[other].state.Completed?)
  }

  /** One start of a handler: the action as it was claimed, and when. */
  datatype Start = Start(key: string, claimed: Action, at: int)

  /** Started no earlier than its time, not overdue at the sweep, within its attempts. */
  predicate InTime(start: Start, swept: int, maxAttempts: nat) {
    && start.claimed.runAtMs <= start.at
    && !Overdue(start.claimed, swept)
    && 1 <= start.claimed.attempts <= maxAttempts
  }

  /** A processed candidate: everything about one action except what identifies it may have moved on. */
  ghost predicate Worked(s: Actions, t: Actions, key: string, now: int, maxAttempts: nat) {
    && key in s && key in t && !Terminal(s[key].state)
    && t[key].runAtMs == s[key].runAtMs && t[key].expiresAtMs == s[key].expiresAtMs
    && t[key].actionType == s[key].actionType && t[key].attempts == s[key].attempts + 1
    && (t[key].state.Completed? || t[key].state.Failed?) && AtRest(t[key], maxAttempts)
    && s[key].updatedAtMs <= t[key].updatedAtMs <= now && t[key].runAtMs <= t[key].updatedAtMs
    && Meddled(s[key := t[key]], t, now)
  }

  lemma MeddledKeeps(s: Actions, t: Actions, since: int, now: int, maxAttempts: nat, runs: Runs, handlers: set<string>)
    requires Meddled(s, t, now) && since <= now
    requires AllAtRest(s, maxAttempts) && Sound(s, since) && Accounted(runs, s, handlers)
    ensures AllAtRest(t, maxAttempts) && Sound(t, now) && Accounted(runs, t, handlers) && Kept(s, t)
  {
  }

  lemma MeddledTwice(s: Actions, t: Actions, u: Actions, mid: int, now: int)
    requires Meddled(s, t, mid) && Meddled(t, u, now) && mid <= now
    ensures Meddled(s, u, now)
  {
  }

  /** A processed candidate's handler ran once, with this verdict, or not at all where none is registered. */
  ghost predicate RanOnce(before: Runs, after: Runs, key: string, a: Action, handlers: set<string>, succeeded: bool) {
    if a.actionType in handlers then after == before[key := Verdicts(before, key) + [succeeded]]
    else after == before && !succeeded
  }

  lemma AccountsNext(v: seq<bool>, w: seq<bool>, a: Action, b: Action, handlers: set<string>, succeeded: bool)
    requires Accounts(v, a, handlers) && !Terminal(a.state)
    requires b.actionType == a.actionType && b.attempts == a.attempts + 1 && (b.state.Completed? <==> succeeded)
    requires if a.actionType in handlers then w == v + [succeeded] else w == v && !succeeded
    ensures Accounts(w, b, handlers)
  {
  }

  lemma WorkedRests(s: Actions, t: Actions, key: string, since: int, now: int, maxAttempts: nat)
    requires Worked(s, t, key, now, maxAttempts) && since <= now && AllAtRest(s, maxAttempts) && Sound(s, since)
    ensures AllAtRest(s[key := t[key]], maxAttempts) && Sound(s[key := t[key]], now)
    ensures Kept(s, s[key := t[key]])
  {
  }

  lemma WorkedKeeps(s: Actions, t: Actions, key: string, since: int, now: int, maxAttempts: nat,
                    before: Runs, after: Runs, handlers: set<string>, succeeded: bool)
    requires Worked(s, t, key, now, maxAttempts) && since <= now
    requires AllAtRest(s, maxAttempts) && Sound(s, since) && Accounted(before, s, handlers)
    requires RanOnce(before, after, key, s[key], handlers, succeeded) && (t[key].state.Completed? <==> succeeded)
    ensures AllAtRest(t, maxAttempts) && Sound(t, now) && Accounted(after, t, handlers) && Kept(s, t)
  {
    hide Sound, AllAtRest, Meddled, Accounts, Terminal;
    var mid := s[key := t[key]];
    AccountsNext(Verdicts(before, key), Verdicts(after, key), s[key], t[key], handlers, succeeded);
    WorkedRests(s, t, key, since, now, maxAttempts);
    forall k | k in mid && k != key ensures Accounts(Verdicts(after, k), mid[k], handlers) {
      assert Accounts(Verdicts(before, k), s[k], handlers);
    }
    MeddledKeeps(mid, t, now, now, maxAttempts, after, handlers);
    KeptTwice(s, mid, t);
  }

  lemma WorkedAside(s: Actions, t: Actions, key: string, now: int, maxAttempts: nat)
    requires Worked(s, t, key, now, maxAttempts)
    ensures Aside(s, t, key)
  {
  }

  lemma AsideNone(s: Actions, key: string)
    ensures Aside(s, s, key)
  {
  }

  /** A candidate waiting its turn stays due unless it is cancelled; one already processed is settled or started. */
  ghost predicate Waiting(atSweep: Actions, t: Actions, keys: seq<string>, i: nat)
    requires i <= |keys|
  {
    forall j | i <= j < |keys| ::
      keys[j] in atSweep && keys[j] in t && (t[keys[j]] == atSweep[keys[j]] || Terminal(t[keys[j]].state))
  }

  /**
   * What a drain did about one action. If it started the action, the handler registered for its type ran exactly once
   * more, and the action is completed if and only if that run returned normally; with none registered, none ran and it
   * is not completed. If it did not start the action, no handler ran for it, and it is completed only if it was.
   */
  ghost predicate Told(before: Runs, after: Runs, s: Actions, t: Actions, starts: seq<Start>, handlers: set<string>,
                       key: string) {
    if exists k :: 0 <= k < |starts| && starts[k].key == key then
      && key in s && key in t
      && (if s[key].actionType in handlers
          then Verdicts(after, key) == Verdicts(before, key) + [t[key].state.Completed?]
          else Verdicts(after, key) == Verdicts(before, key) && !t[key].state.Completed?)
    else
      && Verdicts(after, key) == Verdicts(before, key)
      && (key in t && t[key].state.Completed? ==> key in s && s[key].state.Completed?)
  }

  lemma ToldOn(before: Runs, ran: Runs, after: Runs, atSweep: Actions, was: Actions, t: Actions, started: seq<Start>,
               start: Option<Start>, handlers: set<string>, key: string, done: string, succeeded: bool)
    requires Told(before, ran, atSweep, was, started, handlers, key)
    requires Kept(atSweep, was) && Kept(was, t) && Aside(was, t, done) && done in atSweep
    requires forall k | 0 <= k < |started| :: started[k].key != done
    requires start.None? ==> t == was && after == ran
    requires start.Some? ==>
               && start.value.key == done && done in was && done in t && !Terminal(was[done].state)
               && RanOnce(ran, after, done, was[done], handlers, succeeded) && (t[done].state.Completed? <==> succeeded)
    ensures Told(before, after, atSweep, t, if start.Some? then started + [start.value] else started, handlers, key)
  {
    if start.Some? {
      var starts := started + [start.value];
      assert starts[|started|].key == done;
      if k :| 0 <= k < |started| && started[k].key == key {
        assert starts[k].key == key;
      }
      if k :| 0 <= k < |starts| && starts[k].key == key && key != done {
        assert started[k].key == key;
      }
    }
  }

  lemma WaitingOn(atSweep: Actions, s: Actions, t: Actions, keys: seq<string>, i: nat)
    requires i < |keys| && Waiting(atSweep, s, keys, i) && Aside(s, t, keys[i]) && Kept(s, t)
    requires forall j, k | 0 <= j < k < |keys| :: keys[j] != keys[k]
    ensures Waiting(atSweep, t, keys, i + 1)
  {
    forall j | i + 1 <= j < |keys|
      ensures keys[j] in t && (t[keys[j]] == atSweep[keys[j]] || Terminal(t[keys[j]].state))
    {
      assert keys[j] != keys[i];
    }
  }

  lemma StillDue(s: Actions, key: string, early: int, late: int, maxAttempts: nat)
    requires key in s && ClaimableNow(s[key], early, maxAttempts) && early <= late
    ensures Starts(s, Claim(key), late, maxAttempts)
  {
  }

  /** Handled or settled: what the drain owes every candidate. */
  ghost predicate Served(t: Actions, starts: seq<Start>, key: string) {
    key in t && (Terminal(t[key].state) || exists k :: 0 <= k < |starts| && starts[k].key == key)
  }

  lemma ServedOn(s: Actions, t: Actions, starts: seq<Start>, more: seq<Start>, keys: seq<string>, i: nat)
    requires i <= |keys| && forall j | 0 <= j < i :: Served(s, starts, keys[j])
    requires Kept(s, t) && starts <= more
    ensures forall j | 0 <= j < i :: Served(t, more, keys[j])
  {
    forall j | 0 <= j < i ensures Served(t, more, keys[j]) {
      assert Served(s, starts, keys[j]);
      if !Terminal(s[keys[j]].state) {
        var k :| 0 <= k < |starts| && starts[k].key == keys[j];
        assert more[k].key == keys[j];
      }
    }
  }

  /** What is due and not overdue when the clock is read for the sweep is still due when the candidates are listed. */
  lemma DueIsListed(s: Actions, swept: int, now: int, keys: seq<string>, key: string, limit: nat, maxAttempts: nat)
    requires key in s && ClaimableNow(s[key], swept, maxAttempts) && !Overdue(s[key], swept) && swept <= now
    requires var t := Apply(s, Sweep, swept, maxAttempts);
             (forall k | k in keys :: k in t)
             && forall k | k in t && ClaimableNow(t[k], now, maxAttempts) && k !in keys ::
                  |keys| == limit && forall listed | listed in keys :: t[listed].runAtMs <= t[k].runAtMs
    ensures key in keys
            || (|keys| == limit && forall listed | listed in keys :: listed in s && s[listed].runAtMs <= s[key].runAtMs)
  {
    var t := Apply(s, Sweep, swept, maxAttempts);
    assert t[key] == s[key];
    StillDue(s, key, swept, now, maxAttempts);
  }

  lemma KeptTwice(s: Actions, t: Actions, u: Actions)
    requires Kept(s, t) && Kept(t, u)
    ensures Kept(s, u)
  {
  }

  lemma SweepKeeps(s: Actions, now: int, since: int, maxAttempts: nat, runs: Runs, handlers: set<string>)
    requires AllAtRest(s, maxAttempts) && Sound(s, since) && Accounted(runs, s, handlers) && since <= now
    ensures var t := Apply(s, Sweep, now, maxAttempts);
            AllAtRest(t, maxAttempts) && Sound(t, now) && Accounted(runs, t, handlers) && Kept(s, t)
            && forall key | key in t :: Terminal(t[key].state) || !Overdue(t[key], now)
  {
    forall key | key in s ensures Accounts(Verdicts(runs, key), Swept(s[key], now), handlers) {
      assert Accounts(Verdicts(runs, key), s[key], handlers);
    }
  }

  lemma EarliestExists(s: Actions, keys: set<string>)
    requires keys != {} && keys <= s.Keys
    ensures exists key :: key in keys && forall other | other in keys :: s[key].runAtMs <= s[other].runAtMs
  {
    var some :| some in keys;
    var rest := keys - {some};
    if rest != {} {
      EarliestExists(s, rest);
      var best :| best in rest && forall other | other in rest :: s[best].runAtMs <= s[other].runAtMs;
      var key := if s[some].runAtMs <= s[best].runAtMs then some else best;
      forall other | other in keys ensures s[key].runAtMs <= s[other].runAtMs {
        assert other == some || other in rest;
      }
    } else {
      assert keys == {some};
    }
  }

  class Executor {
    const clock: Clock
    const maxAttempts: nat
    const backoffMs: seq<nat>
    const handlers: set<string>
    var actions: Actions
    ghost var runs: Runs // what each action's handler did

    ghost predicate Valid()
      reads this, clock
    {
      && maxAttempts >= 1
      && AllAtRest(actions, maxAttempts)
      && Sound(actions, clock.time)
      && Accounted(runs, actions, handlers)
    }

    constructor (maxAttempts: nat, backoffMs: seq<nat>, handlers: set<string>)
      requires maxAttempts >= 1
      ensures Valid() && fresh(clock) && actions == map[]
    {
      this.maxAttempts, this.backoffMs, this.handlers := maxAttempts, backoffMs, handlers;
      actions, runs := map[], map[];
      clock := new Clock();
    }

    /** Scheduling an existing key changes nothing and says so. */
    method ScheduleAction(key: string, actionType: string, runAtMs: int, expiresAtMs: Option<int>)
      returns (scheduled: bool)
      modifies this`actions, clock
      ensures old(clock.time) <= clock.time
      ensures actions == Apply(old(actions), Schedule(key, actionType, runAtMs, expiresAtMs), clock.time, maxAttempts)
      ensures scheduled <==> key !in old(actions)
    {
      if key in actions { return false; }
      var now := clock.Now();
      actions := actions[key := Action(actionType, runAtMs, expiresAtMs, Pending, 0, None, now)];
      scheduled := true;
    }

    method CancelAction(key: string) returns (cancelled: bool)
      modifies this`actions, clock
      ensures old(clock.time) <= clock.time
      ensures actions == Apply(old(actions), Cancel(key), clock.time, maxAttempts)
      ensures cancelled <==> key in old(actions) && !Terminal(old(actions)[key].state)
    {
      if key !in actions || Terminal(actions[key].state) { return false; }
      var now := clock.Now();
      actions := actions[key := actions[key].(state := Cancelled, updatedAtMs := now)];
      cancelled := true;
    }

    method ExpireDue(now: int) returns (expired: set<string>)
      modifies this`actions
      ensures actions == Apply(old(actions), Sweep, now, maxAttempts)
      ensures forall key :: key in expired
                <==> key in old(actions) && !Terminal(old(actions)[key].state) && Overdue(old(actions)[key], now)
    {
      ghost var before := actions;
      var left := actions.Keys;
      expired := {};
      while left != {}
        invariant left <= actions.Keys == before.Keys
        invariant forall key | key in before ::
                    actions[key] == if key in left then before[key] else Swept(before[key], now)
        invariant forall key :: key in expired
                    <==> key in before && key !in left && !Terminal(before[key].state) && Overdue(before[key], now)
        decreases left
      {
        var key :| key in left;
        left := left - {key};
        if Terminal(actions[key].state) { continue; }
        if Overdue(actions[key], now) {
          actions := actions[key := actions[key].(state := Expired, updatedAtMs := now)];
          expired := expired + {key};
        }
      }
    }

    /** The claimable actions, earliest first; of equally early ones any may come first. */
    method ListClaimable(now: int, limit: nat) returns (keys: seq<string>)
      ensures |keys| <= limit && forall i, j | 0 <= i < j < |keys| :: keys[i] != keys[j]
      ensures forall key | key in keys :: key in actions && ClaimableNow(actions[key], now, maxAttempts)
      ensures forall i, j | 0 <= i < j < |keys| :: actions[keys[i]].runAtMs <= actions[keys[j]].runAtMs
      ensures forall key | key in actions && ClaimableNow(actions[key], now, maxAttempts) && key !in keys ::
                |keys| == limit && forall listed | listed in keys :: actions[listed].runAtMs <= actions[key].runAtMs
    {
      var rest := set key | key in actions && ClaimableNow(actions[key], now, maxAttempts);
      keys := [];
      while rest != {} && |keys| < limit
        invariant rest <= actions.Keys && |keys| <= limit
        invariant forall key | key in actions :: ClaimableNow(actions[key], now, maxAttempts)
                    <==> key in rest || key in keys
        invariant forall key | key in keys :: key in actions && key !in rest
        invariant forall i, j | 0 <= i < j < |keys| ::
                    keys[i] != keys[j] && actions[keys[i]].runAtMs <= actions[keys[j]].runAtMs
        invariant forall listed, key | listed in keys && key in rest :: actions[listed].runAtMs <= actions[key].runAtMs
        decreases rest
      {
        EarliestExists(actions, rest);
        var key :| key in rest && forall other | other in rest :: actions[key].runAtMs <= actions[other].runAtMs;
        assert forall i | 0 <= i < |keys| :: keys[i] in keys;
        keys := keys + [key];
        rest := rest - {key};
      }
    }

    method ClaimAction(key: string) returns (claimed: Option<Action>)
      modifies this`actions, clock
      ensures old(clock.time) <= clock.time
      ensures actions == Apply(old(actions), Claim(key), clock.time, maxAttempts)
      ensures claimed.Some? <==> Starts(old(actions), Claim(key), clock.time, maxAttempts)
      ensures claimed.Some? ==> claimed.value == actions[key]
    {
      var now := clock.Now();
      if key !in actions { return None; }
      if !ClaimableNow(actions[key], now, maxAttempts) { return None; }
      var found := actions[key];
      actions := actions[key := found.(state := Processing, attempts := found.attempts + 1, nextAttemptAtMs := None,
                                       updatedAtMs := now)];
      claimed := Some(actions[key]);
    }

    method CompleteAction(key: string)
      modifies this`actions, clock
      ensures old(clock.time) <= clock.time
      ensures actions == Apply(old(actions), Complete(key), clock.time, maxAttempts)
    {
      if key !in actions { return; }
      var now := clock.Now();
      actions := actions[key := actions[key].(state := Completed, updatedAtMs := now)];
    }

    method FailAction(key: string, nextAttemptAtMs: Option<int>)
      modifies this`actions, clock
      ensures old(clock.time) <= clock.time
      ensures actions == Apply(old(actions), Fail(key, nextAttemptAtMs), clock.time, maxAttempts)
    {
      if key !in actions { return; }
      var now := clock.Now();
      actions := actions[key := actions[key].(state := Failed, nextAttemptAtMs := nextAttemptAtMs, updatedAtMs := now)];
    }

    /** An action's handler: it schedules and cancels what it likes, and returns normally or throws. */
    method Handle(key: string) returns (succeeded: bool)
      modifies this`actions, this`runs, clock
      ensures old(clock.time) <= clock.time
      ensures runs == old(runs)[key := Verdicts(old(runs), key) + [succeeded]]
      ensures Sound(old(actions), old(clock.time)) ==> Meddled(old(actions), actions, clock.time)
    {
      hide Sound, Meddled, Apply;
      ghost var before := actions;
      ghost var sound := Sound(actions, clock.time);
      var calls: seq<Op> := *;
      var i := 0;
      if sound { MeddledNone(before, clock.time); }
      while i < |calls|
        invariant old(clock.time) <= clock.time && runs == old(runs)
        invariant sound ==> Meddled(before, actions, clock.time) && Sound(actions, clock.time)
      {
        ghost var was, since := actions, clock.time;
        if calls[i].Schedule? {
          var _ := ScheduleAction(calls[i].key, calls[i].actionType, calls[i].runAtMs, calls[i].expiresAtMs);
        } else if calls[i].Cancel? {
          var _ := CancelAction(calls[i].key);
        }
        if sound {
          if calls[i].Schedule? || calls[i].Cancel? {
            MeddleOnce(was, calls[i], since, clock.time, maxAttempts);
            MeddledTwice(before, was, actions, since, clock.time);
          }
        }
        i := i + 1;
      }
      succeeded := *;
      runs := runs[key := Verdicts(runs, key) + [succeeded]];
    }

    /** Completed, or failed with the next attempt after the backoff, if any is left. */
    method Report(key: string, attempts: nat, ok: bool) returns (ghost report: Op)
      modifies this`actions, clock
      ensures old(clock.time) <= clock.time
      ensures actions == Apply(old(actions), report, clock.time, maxAttempts)
      ensures ok ==> report == Complete(key)
      ensures !ok ==> report.Fail? && report.key == key && (report.nextAttemptAtMs.None? <==> attempts >= maxAttempts)
      ensures !ok && report.nextAttemptAtMs.Some? ==>
                old(clock.time) <= report.nextAttemptAtMs.value - Backoff(backoffMs, attempts) <= clock.time
    {
      hide Backoff, Apply;
      if ok {
        CompleteAction(key);
        report := Complete(key);
      } else {
        var now := clock.Now();
        var next := if attempts >= maxAttempts then None else Some(now + Backoff(backoffMs, attempts));
        FailAction(key, next);
        report := Fail(key, next);
      }
    }

    /** One candidate: claim it, run its handler, report. */
    method Process(key: string) returns (start: Option<Start>, ghost succeeded: bool)
      requires Valid()
      modifies this, clock
      ensures Valid() && old(clock.time) <= clock.time
      ensures Kept(old(actions), actions)
      ensures start.None? ==> actions == old(actions) && runs == old(runs)
      ensures start.Some? ==>
                && key in old(actions) && !Terminal(old(actions)[key].state)
                && start.value.key == key
                && start.value.claimed == Taken(old(actions)[key], start.value.at)
                && old(clock.time) <= start.value.at
                && start.value.claimed.runAtMs <= start.value.at
                && 1 <= start.value.claimed.attempts <= maxAttempts
      ensures start.Some? ==>
                && key in actions && actions[key].state == (if succeeded then Completed else Failed)
                && (actions[key].state.Failed? && actions[key].nextAttemptAtMs.Some? ==>
                      start.value.at <= actions[key].nextAttemptAtMs.value - Backoff(backoffMs, actions[key].attempts)
                        <= actions[key].updatedAtMs <= clock.time)
      ensures start.Some? && start.value.claimed.actionType in handlers ==>
                runs == old(runs)[key := Verdicts(old(runs), key) + [succeeded]]
      ensures start.Some? && start.value.claimed.actionType !in handlers ==> runs == old(runs) && !succeeded
      ensures Starts(old(actions), Claim(key), old(clock.time), maxAttempts) ==> start.Some?
      ensures Aside(old(actions), actions, key)
    {
      hide AllAtRest, Accounted, Kept, Meddled, Sound, Aside, Backoff;
      succeeded := false;
      ghost var before, since, ran := actions, clock.time, runs;
      RestAt(before, key, since, maxAttempts);
      var claim := ClaimAction(key);
      if claim.None? {
        KeptNone(before, since, clock.time);
        AsideNone(before, key);
        start := None;
        return;
      }
      var at := clock.time;
      start := Some(Start(key, claim.value, at));
      SoundClaim(before, key, since, at, maxAttempts);
      ghost var claimed := actions;
      var ok := false;
      if claim.value.actionType in handlers {
        ok := Handle(key);
      } else {
        MeddledNone(actions, at);
      }
      ghost var handled := actions;
      ghost var handledAt := clock.time;
      assert Meddled(claimed, handled, handledAt);
      MeddledAt(claimed, handled, key, handledAt);
      succeeded := ok;
      ghost var report := Report(key, claim.value.attempts, ok);
      ReportedIsWorked(before, claimed, handled, actions, key, at, handledAt, report, clock.time, maxAttempts);
      WorkedKeeps(before, actions, key, since, clock.time, maxAttempts, ran, runs, handlers, ok);
      WorkedAside(before, actions, key, clock.time, maxAttempts);
    }

    /** The candidates in turn; `swept` and `now` are when the sweep and the listing read the clock. */
    method ExecuteAll(candidates: seq<string>, swept: int, now: int) returns (starts: seq<Start>)
      requires Valid() && swept <= now <= clock.time
      requires forall i, j | 0 <= i < j < |candidates| :: candidates[i] != candidates[j]
      requires forall key | key in candidates :: key in actions && ClaimableNow(actions[key], now, maxAttempts)
      requires forall key | key in actions :: Terminal(actions[key].state) || !Overdue(actions[key], swept)
      modifies this, clock
      ensures Valid() && old(clock.time) <= clock.time
      ensures Kept(old(actions), actions)
      ensures forall i | 0 <= i < |starts| :: InTime(starts[i], swept, maxAttempts) && swept <= starts[i].at
      ensures forall i, j | 0 <= i < j < |starts| :: starts[i].key != starts[j].key
      ensures forall j | 0 <= j < |candidates| :: Served(actions, starts, candidates[j])
      ensures forall key :: Told(old(runs), runs, old(actions), actions, starts, handlers, key)
    {
      hide AllAtRest, Accounted, Kept, Meddled, Sound, Worked, Apply, ClaimableNow, Aside, Served, Starts, Waiting,
           InTime, Overdue, Terminal;
      ghost var atSweep := actions;
      KeptSame(atSweep);
      WaitingAll(atSweep, candidates);
      starts := [];
      var i := 0;
      while i < |candidates|
        invariant 0 <= i <= |candidates|
        invariant Valid() && old(clock.time) <= clock.time
        invariant Kept(atSweep, actions) && Waiting(atSweep, actions, candidates, i)
        invariant forall j | 0 <= j < i :: Served(actions, starts, candidates[j])
        invariant forall k | 0 <= k < |starts| :: InTime(starts[k], swept, maxAttempts) && swept <= starts[k].at
        invariant forall k | 0 <= k < |starts| :: starts[k].key in candidates[..i]
        invariant forall k, j | 0 <= k < j < |starts| :: starts[k].key != starts[j].key
        invariant forall key :: Told(old(runs), runs, atSweep, actions, starts, handlers, key)
      {
        ghost var was, time, started, ran := actions, clock.time, starts, runs;
        assert candidates[i] in candidates;
        var start;
        ghost var succeeded;
        start, succeeded := Process(candidates[i]);
        KeptTwice(atSweep, was, actions);
        WaitingFor(atSweep, was, candidates, i);
        WaitingOn(atSweep, was, actions, candidates, i);
        if start.Some? {
          KeptAt(atSweep, was, candidates[i]);
          StartInTime(atSweep, was, start.value, swept, maxAttempts);
          assert forall k | 0 <= k < |starts| :: starts[k].key != candidates[i];
          starts := starts + [start.value];
        }
        assert start.None? ==> starts == started;
        forall key ensures Told(old(runs), runs, atSweep, actions, starts, handlers, key) {
          ToldOn(old(runs), ran, runs, atSweep, was, actions, started, start, handlers, key, candidates[i], succeeded);
        }
        ServedOn(was, actions, started, starts, candidates, i);
        ServedNow(atSweep, was, actions, starts, candidates[i], now, time, start, maxAttempts);
        assert candidates[..i + 1] == candidates[..i] + [candidates[i]];
        i := i + 1;
      }
    }

    /**
     * Expire the worthless, claim the due, run their handlers, retry with bounded backoff. `starts` lists the handlers
     * started, in order: none before its time, none overdue at the sweep, none more than once.
     */
    method Drain() returns (swept: int, starts: seq<Start>, ghost listed: seq<string>)
      requires Valid()
      modifies this, clock
      ensures Valid() && old(clock.time) <= swept <= clock.time
      ensures Kept(old(actions), actions)
      ensures forall i | 0 <= i < |starts| :: InTime(starts[i], swept, maxAttempts) && swept <= starts[i].at
      ensures forall i, j | 0 <= i < j < |starts| :: starts[i].key != starts[j].key
      ensures forall i | 0 <= i < |starts| :: Overdue(starts[i].claimed, starts[i].at)
                <==> starts[i].claimed.expiresAtMs.Some? && swept < starts[i].claimed.expiresAtMs.value <= starts[i].at
      ensures forall key :: |Verdicts(runs, key)| <= maxAttempts
      ensures forall key :: Told(old(runs), runs, old(actions), actions, starts, handlers, key)
      ensures forall key | key in listed :: key in old(actions) && Served(actions, starts, key)
      ensures forall key | key in old(actions)
              && ((old(actions)[key].state.Pending? && old(actions)[key].runAtMs <= swept)
                  || (old(actions)[key].state.Failed? && old(actions)[key].nextAttemptAtMs.Some?
                      && old(actions)[key].nextAttemptAtMs.value <= swept))
              && (old(actions)[key].expiresAtMs.None? || swept < old(actions)[key].expiresAtMs.value) ::
                key in listed
                || (|listed| == CANDIDATE_LIMIT && forall k | k in listed ::
                      old(actions)[k].runAtMs <= old(actions)[key].runAtMs)
    {
      hide AllAtRest, Accounted, Kept, Meddled, Sound, Worked, Apply, ClaimableNow, Aside, Served, Starts, Waiting,
           InTime, Overdue, Terminal;
      swept := clock.Now();
      ghost var before := actions;
      SweepKeeps(actions, swept, old(clock.time), maxAttempts, runs, handlers);
      DueAtRest(actions, swept, maxAttempts);
      var _ := ExpireDue(swept);
      var now := clock.Now();
      SoundLater(actions, swept, now);
      var candidates := ListClaimable(now, CANDIDATE_LIMIT);
      ghost var atSweep := actions;
      listed := candidates;
      SweptKeys(before, swept, maxAttempts);
      forall key | key in before && ClaimableNow(before[key], swept, maxAttempts) && !Overdue(before[key], swept)
        ensures key in listed
                || (|listed| == CANDIDATE_LIMIT && forall k | k in listed :: before[k].runAtMs <= before[key].runAtMs)
      {
        DueIsListed(before, swept, now, candidates, key, CANDIDATE_LIMIT, maxAttempts);
      }
      starts := ExecuteAll(candidates, swept, now);
      assert forall j | 0 <= j < |candidates| :: candidates[j] in candidates;
      KeptTwice(before, atSweep, actions);
      RunsAreBounded(runs, actions, maxAttempts, handlers);
      forall key ensures Told(old(runs), runs, before, actions, starts, handlers, key) {
        ToldFromSweep(old(runs), runs, before, swept, actions, starts, handlers, key, maxAttempts);
      }
      LateStarts(starts, swept, maxAttempts);
    }
  }

  // ── Steps of the drain's proof ─────────────────────────────────────────────

  lemma StartInTime(atSweep: Actions, was: Actions, start: Start, swept: int, maxAttempts: nat)
    requires start.key in atSweep && (Terminal(atSweep[start.key].state) || !Overdue(atSweep[start.key], swept))
    requires Kept(atSweep, was) && start.key in was && !Terminal(was[start.key].state)
    requires start.claimed == Taken(was[start.key], start.at)
    requires start.claimed.runAtMs <= start.at && 1 <= start.claimed.attempts <= maxAttempts
    ensures InTime(start, swept, maxAttempts)
  {
  }

  lemma LateStarts(starts: seq<Start>, swept: int, maxAttempts: nat)
    requires forall i | 0 <= i < |starts| :: InTime(starts[i], swept, maxAttempts)
    ensures forall i | 0 <= i < |starts| :: Overdue(starts[i].claimed, starts[i].at)
              <==> starts[i].claimed.expiresAtMs.Some? && swept < starts[i].claimed.expiresAtMs.value <= starts[i].at
  {
  }

  lemma DueAtRest(s: Actions, now: int, maxAttempts: nat)
    requires AllAtRest(s, maxAttempts)
    ensures forall key | key in s
              && ((s[key].state.Pending? && s[key].runAtMs <= now)
                  || (s[key].state.Failed? && s[key].nextAttemptAtMs.Some? && s[key].nextAttemptAtMs.value <= now))
              && (s[key].expiresAtMs.None? || now < s[key].expiresAtMs.value) ::
              ClaimableNow(s[key], now, maxAttempts) && !Overdue(s[key], now)
  {
    forall key | key in s ensures AtRest(s[key], maxAttempts) {}
  }

  lemma WaitingAll(s: Actions, keys: seq<string>)
    requires forall k | k in keys :: k in s
    ensures Waiting(s, s, keys, 0)
  {
  }

  lemma WaitingFor(atSweep: Actions, s: Actions, keys: seq<string>, i: nat)
    requires i < |keys| && Waiting(atSweep, s, keys, i)
    ensures keys[i] in s && (s[keys[i]] == atSweep[keys[i]] || Terminal(s[keys[i]].state))
  {
  }

  lemma SweptKeys(s: Actions, now: int, maxAttempts: nat)
    ensures Apply(s, Sweep, now, maxAttempts).Keys == s.Keys
  {
  }

  lemma ServedNow(atSweep: Actions, was: Actions, t: Actions, starts: seq<Start>, key: string, now: int, time: int,
                  start: Option<Start>, maxAttempts: nat)
    requires key in atSweep && key in was && (was[key] == atSweep[key] || Terminal(was[key].state))
    requires ClaimableNow(atSweep[key], now, maxAttempts) && now <= time && Kept(was, t)
    requires Starts(was, Claim(key), time, maxAttempts) ==> start.Some?
    requires start.Some? ==> starts != [] && starts[|starts| - 1] == start.value && start.value.key == key
    ensures Served(t, starts, key)
  {
    if start.Some? {
      assert starts[|starts| - 1].key == key;
    } else if was[key] == atSweep[key] {
      StillDue(was, key, now, time, maxAttempts);
    }
  }

  lemma MeddledNone(s: Actions, now: int)
    requires Sound(s, now)
    ensures Meddled(s, s, now)
  {
  }

  lemma MeddleOnce(s: Actions, call: Op, since: int, now: int, maxAttempts: nat)
    requires Sound(s, since) && since <= now && (call.Schedule? || call.Cancel?)
    ensures Meddled(s, Apply(s, call, now, maxAttempts), now) && Sound(Apply(s, call, now, maxAttempts), now)
  {
    StepIsSound(s, call, since, now, maxAttempts);
  }

  lemma RestAt(s: Actions, key: string, since: int, maxAttempts: nat)
    requires AllAtRest(s, maxAttempts) && Sound(s, since)
    ensures key in s ==> AtRest(s[key], maxAttempts) && s[key].updatedAtMs <= since
                         && (s[key].attempts > 0 ==> s[key].runAtMs <= s[key].updatedAtMs)
                         && (s[key].state.Failed? ==> s[key].attempts > 0)
  {
  }

  lemma KeptSame(s: Actions)
    ensures Kept(s, s)
  {
  }

  lemma SoundLater(s: Actions, since: int, now: int)
    requires Sound(s, since) && since <= now
    ensures Sound(s, now)
  {
  }

  lemma KeptNone(s: Actions, since: int, now: int)
    requires Sound(s, since) && since <= now
    ensures Kept(s, s) && Sound(s, now)
  {
  }

  lemma KeptAt(s: Actions, t: Actions, key: string)
    requires Kept(s, t) && key in s
    ensures key in t && t[key].expiresAtMs == s[key].expiresAtMs && (Terminal(s[key].state) ==> Terminal(t[key].state))
  {
  }

  lemma SoundClaim(s: Actions, key: string, since: int, now: int, maxAttempts: nat)
    requires Sound(s, since) && since <= now && Starts(s, Claim(key), now, maxAttempts)
    ensures Sound(Apply(s, Claim(key), now, maxAttempts), now)
  {
    StepIsSound(s, Claim(key), since, now, maxAttempts);
  }

  lemma MeddledAt(s: Actions, t: Actions, key: string, now: int)
    requires Meddled(s, t, now) && key in s && s[key].state.Processing?
    ensures key in t
    ensures t[key] == s[key].(state := t[key].state, updatedAtMs := t[key].updatedAtMs)
            && s[key].updatedAtMs <= t[key].updatedAtMs
  {
  }

  lemma ReportedIsWorked(before: Actions, claimed: Actions, handled: Actions, after: Actions, key: string, at: int,
                         handledAt: int, report: Op, now: int, maxAttempts: nat)
    requires key in before && AtRest(before[key], maxAttempts) && ClaimableNow(before[key], at, maxAttempts)
    requires before[key].runAtMs <= at && before[key].updatedAtMs <= at <= handledAt <= now
    requires before[key].attempts < maxAttempts
    requires claimed == before[key := Taken(before[key], at)] && Meddled(claimed, handled, handledAt) && key in handled
    requires after == Apply(handled, report, now, maxAttempts)
    requires report == Complete(key) || (report.Fail? && report.key == key
               && (report.nextAttemptAtMs.None? <==> claimed[key].attempts >= maxAttempts))
    ensures Worked(before, after, key, now, maxAttempts)
  {
    var mid := before[key := after[key]];
    forall k | k in mid && k != key
      ensures k in after && k in handled && k in claimed && after[k] == handled[k] && claimed[k] == before[k]
    {
    }
    assert Meddled(mid, after, now);
  }

  lemma ToldFromSweep(before: Runs, after: Runs, s: Actions, swept: int, t: Actions, starts: seq<Start>,
                      handlers: set<string>, key: string, maxAttempts: nat)
    requires Told(before, after, Apply(s, Sweep, swept, maxAttempts), t, starts, handlers, key)
    ensures Told(before, after, s, t, starts, handlers, key)
  {
  }

  /** No action's handler runs more often than its attempts allow. */
  lemma RunsAreBounded(runs: Runs, s: Actions, maxAttempts: nat, handlers: set<string>)
    requires Accounted(runs, s, handlers) && AllAtRest(s, maxAttempts)
    ensures forall key :: |Verdicts(runs, key)| <= maxAttempts
  {
    forall key ensures |Verdicts(runs, key)| <= maxAttempts {
      assert key in s ==> AtRest(s[key], maxAttempts) && Accounts(Verdicts(runs, key), s[key], handlers);
    }
  }
}
