/**
 * Delivering one session's consultation summary: the workflow claim on the session row over the
 * notification claim on the key, with inline reports, duplicates and outbox recovery interleaved.
 *
 * A process is a program counter. Every step of the machine is one stretch of code between two
 * suspension points; a process may die between any two of them, and the session may be purged. The
 * only timing assumption is the lease on the notification claim.
 */
module SummaryDelivery {
  import opened Options
  import opened DeliveryClaims
  import Handoff = HandoffSessions
  import HandoffStore

  /** Where a delivery process is. `Holding` and `Delivered` hold the notification claim taken then. */
  datatype Pc =
    | Starting                                     // about to claim the session row
    | Building                                     // row claimed: build the model, claim the key
    | HoldingKey(claimedAtMs: int)                 // key claimed, provider not yet asked
    | Delivered(status: DeliveryStatus, claimedAtMs: int)  // provider answered, not yet recorded
    | Reporting(status: DeliveryStatus)            // result known, row not yet updated

  /** `sent` counts provider deliveries reported sent; `lost` those whose process died before recording. */
  datatype Workflow = Workflow(
    session: Option<Handoff.Session>, records: Records, procs: map<nat, Pc>, sent: nat, lost: nat)

  datatype Act =
    | Report(pid: nat)              // an inline outcome report, first or duplicate
    | Recover(pid: nat)             // the outbox consumer looks at the session
    | ClaimRow(pid: nat)
    | BuildFails(pid: nat)
    | ClaimKey(pid: nat)
    | ResolveFails(pid: nat)
    | ProviderAnswers(pid: nat, status: DeliveryStatus)
    | RecordKey(pid: nat)
    | RecordRow(pid: nat)
    | Die(pid: nat)
    | Vanish

  function At(w: Workflow, pid: nat, pc: Pc): Workflow {
    w.(procs := w.procs[pid := pc])
  }

  function Gone(w: Workflow, pid: nat): Workflow {
    w.(procs := w.procs - {pid})
  }

  /** The status a suppressed notification is reported as. */
  function Suppressed(settled: DeliveryStatus): DeliveryStatus {
    if settled.Sent? then Sent else Failed
  }

  predicate IsAt(w: Workflow, pid: nat, starting: bool, building: bool) {
    pid in w.procs && ((starting && w.procs[pid].Starting?) || (building && w.procs[pid].Building?))
  }

  function Next(w: Workflow, key: string, act: Act, now: int): Workflow {
    match act
    case Report(pid) =>
      if pid in w.procs || w.session.None? || !Handoff.Terminal(w.session.value.status) then w else At(w, pid, Starting)
    case Recover(pid) =>
      if pid in w.procs || w.session.None? then w
      else if w.session.value.summaryDelivery.Some? && !w.session.value.summaryDelivery.value.Pending? then w
      else At(w, pid, Starting)
    case ClaimRow(pid) =>
      if !IsAt(w, pid, true, false) then w
      else if w.session.None? || !Handoff.SummaryClaimable(w.session.value, now) then Gone(w, pid)
      else At(w.(session := Some(Handoff.Claimed(w.session.value, now))), pid, Building)
    case BuildFails(pid) =>
      if !IsAt(w, pid, false, true) then w else At(w, pid, Reporting(Failed))
    case ClaimKey(pid) =>
      if !IsAt(w, pid, false, true) then w
      else if Claimable(w.records, key, now) then At(w.(records := Taken(w.records, key, now)), pid, HoldingKey(now))
      else At(w, pid, Reporting(Suppressed(w.records[key].status)))
    case ResolveFails(pid) =>
      if pid !in w.procs || !w.procs[pid].HoldingKey? then w
      else At(w.(records := Overwritten(w.records, key, Failed)), pid, Reporting(Failed))
    case ProviderAnswers(pid, status) =>
      if pid !in w.procs || !w.procs[pid].HoldingKey? || status.Pending? then w
      else At(w.(sent := w.sent + if status.Sent? then 1 else 0), pid, Delivered(status, w.procs[pid].claimedAtMs))
    case RecordKey(pid) =>
      if pid !in w.procs || !w.procs[pid].Delivered? then w
      else At(w.(records := Overwritten(w.records, key, w.procs[pid].status)), pid, Reporting(w.procs[pid].status))
    case RecordRow(pid) =>
      if pid !in w.procs || !w.procs[pid].Reporting? then w
      else if w.session.None? then Gone(w, pid)
      else Gone(w.(session := Some(w.session.value.(summaryDelivery := Some(w.procs[pid].status)))), pid)
    case Die(pid) =>
      if pid !in w.procs then w
      else Gone(w.(lost := w.lost + if w.procs[pid].Delivered? && w.procs[pid].status.Sent? then 1 else 0), pid)
    case Vanish => w.(session := None)
  }

  // ── Invariant ──────────────────────────────────────────────────────────────

  predicate HoldsKey(pc: Pc) {
    pc.HoldingKey? || pc.Delivered?
  }

  /** The lease on the notification claim. */
  ghost predicate Leased(w: Workflow, now: int) {
    forall pid | pid in w.procs && HoldsKey(w.procs[pid]) :: now - w.procs[pid].claimedAtMs < STALE_CLAIM_MS
  }

  predicate KeySent(w: Workflow, key: string) {
    key in w.records && w.records[key].status.Sent?
  }

  predicate Sends(pc: Pc) {
    pc.Delivered? && pc.status.Sent?
  }

  /** Some process has a reported send it has not recorded yet. */
  predicate InFlight(w: Workflow) {
    exists pid | pid in w.procs :: Sends(w.procs[pid])
  }

  ghost predicate OneHolder(w: Workflow, key: string) {
    && (forall i | i in w.procs && HoldsKey(w.procs[i]) ::
          key in w.records && w.records[key] == ClaimRecord(Pending, Some(w.procs[i].claimedAtMs)))
    && (forall i, j | i in w.procs && j in w.procs && HoldsKey(w.procs[i]) && HoldsKey(w.procs[j]) :: i == j)
  }

  /** Whoever reports 'sent' for the row has seen the key sent, and so has the row's own mirror. */
  ghost predicate MirrorsKey(w: Workflow, key: string) {
    && (forall i | i in w.procs && w.procs[i] == Reporting(Sent) :: KeySent(w, key))
    && (w.session.Some? && w.session.value.summaryDelivery == Some(Sent) ==> KeySent(w, key))
  }

  /** Every reported send is recorded, in flight, or lost with its process. */
  ghost predicate Balanced(w: Workflow, key: string) {
    w.sent == w.lost + (if InFlight(w) then 1 else 0) + (if KeySent(w, key) then 1 else 0)
  }

  ghost predicate Sound(w: Workflow, key: string) {
    OneHolder(w, key) && MirrorsKey(w, key) && Balanced(w, key)
  }

  /** The moving process is the only one that can have a send in flight, before or after. */
  lemma OnlyMoverSends(w: Workflow, w': Workflow, key: string, pid: nat)
    requires OneHolder(w, key) && OneHolder(w', key)
    requires forall i | i != pid :: (i in w.procs <==> i in w'.procs) && (i in w.procs ==> w'.procs[i] == w.procs[i])
    ensures pid in w.procs && HoldsKey(w.procs[pid]) ==>
              && (InFlight(w) <==> Sends(w.procs[pid]))
              && (InFlight(w') <==> pid in w'.procs && Sends(w'.procs[pid]))
    ensures !(pid in w.procs && Sends(w.procs[pid])) && !(pid in w'.procs && Sends(w'.procs[pid])) ==>
              (InFlight(w) <==> InFlight(w'))
  {
    if InFlight(w) {
      var i :| i in w.procs && Sends(w.procs[i]);
      if i != pid { assert Sends(w'.procs[i]); }
    }
    if InFlight(w') {
      var i :| i in w'.procs && Sends(w'.procs[i]);
      if i != pid { assert Sends(w.procs[i]); }
    }
    if pid in w.procs && Sends(w.procs[pid]) { assert InFlight(w); }
    if pid in w'.procs && Sends(w'.procs[pid]) { assert InFlight(w'); }
  }

  lemma HolderStep(w: Workflow, key: string, act: Act, now: int)
    requires Sound(w, key) && Leased(w, now)
    ensures OneHolder(Next(w, key, act, now), key)
  {
    hide Balanced, MirrorsKey;
    if act.ClaimKey? && Claimable(w.records, key, now) {
      assert forall i | i in w.procs && HoldsKey(w.procs[i]) :: now - w.procs[i].claimedAtMs < STALE_CLAIM_MS;
    }
  }

  /** A sent key stays sent: nobody who holds the key is left to overwrite it. */
  lemma SentStays(w: Workflow, key: string, act: Act, now: int)
    requires OneHolder(w, key) && KeySent(w, key)
    ensures KeySent(Next(w, key, act, now), key)
  {
  }

  lemma MirrorStep(w: Workflow, key: string, act: Act, now: int)
    requires OneHolder(w, key) && MirrorsKey(w, key)
    ensures MirrorsKey(Next(w, key, act, now), key)
  {
    if KeySent(w, key) { SentStays(w, key, act, now); }
  }

  lemma BalanceStep(w: Workflow, key: string, act: Act, now: int)
    requires OneHolder(w, key) && Balanced(w, key) && OneHolder(Next(w, key, act, now), key)
    ensures Balanced(Next(w, key, act, now), key)
  {
    hide InFlight, OneHolder;
    var w' := Next(w, key, act, now);
    OnlyMoverSends(w, w', key, if act.Vanish? then 0 else act.pid);
    NobodyHoldsASentKey(w, key);
    NobodyHoldsASentKey(w', key);
    HolderKey(w, key, if act.Vanish? then 0 else act.pid);
  }

  lemma HolderKey(w: Workflow, key: string, pid: nat)
    requires OneHolder(w, key)
    ensures pid in w.procs && HoldsKey(w.procs[pid]) ==>
              !KeySent(w, key) && key in w.records && w.records[key].status.Pending?
  {
  }

  lemma NobodyHoldsASentKey(w: Workflow, key: string)
    requires OneHolder(w, key)
    ensures KeySent(w, key) ==> !InFlight(w)
  {
  }

  datatype Timed = Timed(act: Act, now: int)

  function Run(w: Workflow, key: string, run: seq<Timed>): Workflow
    decreases |run|
  {
    if run == [] then w else Run(Next(w, key, run[0].act, run[0].now), key, run[1..])
  }

  ghost predicate LeasedRun(w: Workflow, key: string, run: seq<Timed>)
    decreases |run|
  {
    run == [] || (Leased(w, run[0].now) && LeasedRun(Next(w, key, run[0].act, run[0].now), key, run[1..]))
  }

  lemma {:induction false} RunIsSound(w: Workflow, key: string, run: seq<Timed>)
    requires Sound(w, key) && LeasedRun(w, key, run)
    ensures Sound(Run(w, key, run), key)
    decreases |run|
  {
    hide Next, OneHolder, MirrorsKey, Balanced, Leased;
    if run != [] {
      HolderStep(w, key, run[0].act, run[0].now);
      MirrorStep(w, key, run[0].act, run[0].now);
      BalanceStep(w, key, run[0].act, run[0].now);
      RunIsSound(Next(w, key, run[0].act, run[0].now), key, run[1..]);
    }
  }

  /**
   * Any interleaving of reports, duplicates, recoveries, deaths and purges sends a summary at most once, plus once for
   * each process that died between sending and recording; and the session says 'sent' only if the notification was
   * recorded sent.
   */
  lemma AtMostOneSendPlusLosses(session: Handoff.Session, key: string, run: seq<Timed>)
    requires session.summaryDelivery != Some(Sent)
    requires LeasedRun(Workflow(Some(session), map[], map[], 0, 0), key, run)
    ensures var w := Run(Workflow(Some(session), map[], map[], 0, 0), key, run);
            && w.sent <= 1 + w.lost
            && (w.session.Some? && w.session.value.summaryDelivery == Some(Sent) ==> KeySent(w, key))
            && (KeySent(w, key) ==> w.sent == 1 + w.lost)
  {
    var start := Workflow(Some(session), map[], map[], 0, 0);
    RunIsSound(start, key, run);
    NobodyHoldsASentKey(Run(start, key, run), key);
  }

  // ── The code as it runs, uninterrupted ─────────────────────────────────────

  /** What the parts a delivery depends on will do: build the model, resolve the provider, answer. */
  datatype Env = Env(builds: bool, resolves: bool, answer: DeliveryStatus)

  /** A provider that returns nonsense fails closed. */
  function Answer(env: Env): DeliveryStatus {
    if env.answer.Pending? then Failed else env.answer
  }

  /** The steps of one undisturbed process after its start; a step that is not its turn does nothing. */
  function Path(pid: nat, env: Env): seq<Act> {
    [ClaimRow(pid)] + (if env.builds then [] else [BuildFails(pid)]) + [ClaimKey(pid)]
    + (if env.resolves then [] else [ResolveFails(pid)])
    + [ProviderAnswers(pid, Answer(env)), RecordKey(pid), RecordRow(pid)]
  }

  function Walk(w: Workflow, key: string, acts: seq<Act>, now: int): Workflow
    decreases |acts|
  {
    if acts == [] then w else Walk(Next(w, key, acts[0], now), key, acts[1..], now)
  }

  /** What one undisturbed delivery leaves on the row and in the claim records. */
  function Undisturbed(session: Handoff.Session, records: Records, key: string, env: Env, now: int): (Handoff.Session,
      Records) {
    if !Handoff.SummaryClaimable(session, now) then (session, records)
    else
      var row := Handoff.Claimed(session, now);
      if !env.builds then (row.(summaryDelivery := Some(Failed)), records)
      else if !Claimable(records, key, now)
        then (row.(summaryDelivery := Some(Suppressed(records[key].status))), records)
      else
        var result := if env.resolves then Answer(env) else Failed;
        (row.(summaryDelivery := Some(result)), Overwritten(Taken(records, key, now), key, result))
  }

  /** The undisturbed delivery is the machine walking one process along its path. */
  lemma UndisturbedIsAPath(session: Handoff.Session, records: Records, key: string, env: Env, now: int)
    ensures var w := Walk(Workflow(Some(session), records, map[0 := Starting], 0, 0), key, Path(0, env), now);
            && w.session == Some(Undisturbed(session, records, key, env, now).0)
            && w.records == Undisturbed(session, records, key, env, now).1
            && w.procs == map[] && w.lost == 0
            && w.sent == if Handoff.SummaryClaimable(session, now) && env.builds && Claimable(records, key, now)
                            && env.resolves && Answer(env).Sent? then 1 else 0
  {
    hide Handoff.SummaryClaimable, Claimable, Taken, Overwritten, Walk, Path;
    var w0 := Workflow(Some(session), records, map[0 := Starting], 0, 0);
    PathWalk(w0, key, env, now);
    var w1 := Next(w0, key, ClaimRow(0), now);
    if !Handoff.SummaryClaimable(session, now) {
      assert w1.procs == map[];
    } else {
      assert w1.procs == map[0 := Building];
      var row := Handoff.Claimed(session, now);
      if env.builds {
        KeyPath(row, records, key, env, now);
      } else {
        var w2 := Next(w1, key, BuildFails(0), now);
        assert w2 == Workflow(Some(row), records, map[0 := Reporting(Failed)], 0, 0);
      }
    }
  }

  /**
   * From the entry on: a report enters only on a session whose conversation has ended, a recovery only where no attempt
   * was recorded or one is pending, and then each goes the whole way; otherwise all its steps do nothing.
   */
  lemma EnteredOrNothing(
    session: Handoff.Session, records: Records, key: string, env: Env, now: int, recovering: bool)
    ensures var start := Workflow(Some(session), records, map[], 0, 0);
            var w := Walk(start, key, [if recovering then Recover(0) else Report(0)] + Path(0, env), now);
            var (row, after) := Undisturbed(session, records, key, env, now);
            if if recovering then session.summaryDelivery.None? || session.summaryDelivery.value.Pending?
               else session.status.Booked? || session.status.Failed? || session.status.Escalated?
            then w.session == Some(row) && w.records == after && w.procs == map[] && w.lost == 0
            else w == start
  {
    hide Undisturbed, Walk;
    var start := Workflow(Some(session), records, map[], 0, 0);
    var enter := if recovering then Recover(0) else Report(0);
    WalkAppend(start, key, [enter], Path(0, env), now);
    WalkOne(start, key, enter, now);
    var entered := Next(start, key, enter, now);
    if entered == start {
      PathWalk(start, key, env, now);
      forall act: Act | !act.Report? && !act.Recover? && !act.Vanish? ensures Next(start, key, act, now) == start {
        NobodyMoves(start, key, act, now);
      }
    } else {
      assert entered == Workflow(Some(session), records, map[0 := Starting], 0, 0);
      UndisturbedIsAPath(session, records, key, env, now);
    }
  }

  lemma NobodyMoves(w: Workflow, key: string, act: Act, now: int)
    requires w.procs == map[] && !act.Report? && !act.Recover? && !act.Vanish?
    ensures Next(w, key, act, now) == w
  {
  }

  /** A session that is purged, however early in the run, stays gone: no late report brings its row back. */
  lemma {:induction false} PurgedStaysGone(w: Workflow, key: string, run: seq<Timed>)
    requires w.session.None? || exists i | 0 <= i < |run| :: run[i].act.Vanish?
    ensures Run(w, key, run).session.None?
    decreases |run|
  {
    if run != [] {
      if w.session.Some? && !run[0].act.Vanish? {
        var i :| 0 <= i < |run| && run[i].act.Vanish?;
        assert run[1..][i - 1].act.Vanish?;
      }
      PurgedStaysGone(Next(w, key, run[0].act, run[0].now), key, run[1..]);
    }
  }

  /** The part of the path that holds the key. */
  lemma KeyPath(row: Handoff.Session, records: Records, key: string, env: Env, now: int)
    ensures var w2 := Workflow(Some(row), records, map[0 := Building], 0, 0);
            var w3 := Next(w2, key, ClaimKey(0), now);
            var w4 := if env.resolves then w3 else Next(w3, key, ResolveFails(0), now);
            var w7 := Next(Next(Next(w4, key, ProviderAnswers(0, Answer(env)), now), key, RecordKey(0), now), key,
                           RecordRow(0), now);
            var result := if !Claimable(records, key, now) then Suppressed(records[key].status)
                          else if env.resolves then Answer(env) else Failed;
            w7 == Workflow(Some(row.(summaryDelivery := Some(result))),
                           if Claimable(records, key, now) then Overwritten(Taken(records, key, now), key, result)
                           else records,
                           map[], if Claimable(records, key, now) && env.resolves && result.Sent? then 1 else 0, 0)
  {
    hide Claimable, Taken, Overwritten;
    var w2 := Workflow(Some(row), records, map[0 := Building], 0, 0);
    var w3 := Next(w2, key, ClaimKey(0), now);
    if !Claimable(records, key, now) {
      assert w3.procs == map[0 := w3.procs[0]];
    } else if env.resolves {
      assert w3.procs == map[0 := HoldingKey(now)];
      var w5 := Next(w3, key, ProviderAnswers(0, Answer(env)), now);
      assert w5.procs == map[0 := Delivered(Answer(env), now)];
      var w6 := Next(w5, key, RecordKey(0), now);
      assert w6.procs == map[0 := Reporting(Answer(env))];
    } else {
      var w4 := Next(w3, key, ResolveFails(0), now);
      assert w4.procs == map[0 := Reporting(Failed)];
    }
  }

  lemma {:induction false} WalkAppend(w: Workflow, key: string, a: seq<Act>, b: seq<Act>, now: int)
    ensures Walk(w, key, a + b, now) == Walk(Walk(w, key, a, now), key, b, now)
    decreases |a|
  {
    hide Next;
    if a == [] {
      assert a + b == b;
    } else {
      assert (a + b)[1..] == a[1..] + b;
      WalkAppend(Next(w, key, a[0], now), key, a[1..], b, now);
    }
  }

  lemma WalkOne(w: Workflow, key: string, act: Act, now: int)
    ensures Walk(w, key, [act], now) == Next(w, key, act, now) && Walk(w, key, [], now) == w
  {
    hide Next;
  }

  lemma PathWalk(w: Workflow, key: string, env: Env, now: int)
    ensures var w1 := Next(w, key, ClaimRow(0), now);
            var w2 := if env.builds then w1 else Next(w1, key, BuildFails(0), now);
            var w3 := Next(w2, key, ClaimKey(0), now);
            var w4 := if env.resolves then w3 else Next(w3, key, ResolveFails(0), now);
            Walk(w, key, Path(0, env), now)
            == Next(Next(Next(w4, key, ProviderAnswers(0, Answer(env)), now), key, RecordKey(0), now), key,
                    RecordRow(0), now)
  {
    hide Next;
    var build := if env.builds then [] else [BuildFails(0)];
    var resolve := if env.resolves then [] else [ResolveFails(0)];
    var w1 := Next(w, key, ClaimRow(0), now);
    var w2 := if env.builds then w1 else Next(w1, key, BuildFails(0), now);
    var w3 := Next(w2, key, ClaimKey(0), now);
    var w4 := if env.resolves then w3 else Next(w3, key, ResolveFails(0), now);
    var w5 := Next(w4, key, ProviderAnswers(0, Answer(env)), now);
    var w6 := Next(w5, key, RecordKey(0), now);
    var tail := [ProviderAnswers(0, Answer(env)), RecordKey(0), RecordRow(0)];
    WalkAppend(w, key, [ClaimRow(0)] + build + [ClaimKey(0)] + resolve, tail, now);
    WalkAppend(w, key, [ClaimRow(0)] + build + [ClaimKey(0)], resolve, now);
    WalkAppend(w, key, [ClaimRow(0)] + build, [ClaimKey(0)], now);
    WalkAppend(w, key, [ClaimRow(0)], build, now);
    WalkOne(w, key, ClaimRow(0), now);
    WalkOne(w1, key, BuildFails(0), now);
    WalkOne(w2, key, ClaimKey(0), now);
    WalkOne(w3, key, ResolveFails(0), now);
    WalkAppend(w4, key, [ProviderAnswers(0, Answer(env))], [RecordKey(0), RecordRow(0)], now);
    assert tail == [ProviderAnswers(0, Answer(env))] + [RecordKey(0), RecordRow(0)];
    WalkOne(w4, key, ProviderAnswers(0, Answer(env)), now);
    WalkAppend(w5, key, [RecordKey(0)], [RecordRow(0)], now);
    assert [RecordKey(0), RecordRow(0)] == [RecordKey(0)] + [RecordRow(0)];
    WalkOne(w5, key, RecordKey(0), now);
    WalkOne(w6, key, RecordRow(0), now);
  }

  datatype SendResult = Settled(status: DeliveryStatus) | SuppressedBy(status: DeliveryStatus)

  /** One notification: claim the key first, resolve the provider, deliver, record. */
  method Send(core: ClaimCore, key: string, env: Env, now: int) returns (result: SendResult)
    modifies core
    ensures !Claimable(old(core.records), key, now) ==>
              core.records == old(core.records) && result == SuppressedBy(old(core.records)[key].status)
    ensures Claimable(old(core.records), key, now) ==>
              && result == Settled(if env.resolves then Answer(env) else Failed)
              && core.records == Overwritten(Taken(old(core.records), key, now), key, result.status)
  {
    var claimed, status := core.Claim(key, now);
    if !claimed { return SuppressedBy(status); }
    if !env.resolves {
      core.Record(key, Failed);
      return Settled(Failed);
    }
    var answer := if env.answer in {Sent, Failed, NotConfigured} then env.answer else Failed;
    core.Record(key, answer);
    result := Settled(answer);
  }

  /** The workflow's view of delivery: build the model, send, read a suppression as its settled status. */
  method Deliver(core: ClaimCore, key: string, env: Env, now: int) returns (status: DeliveryStatus)
    modifies core
    ensures !env.builds ==> status == Failed && core.records == old(core.records)
    ensures env.builds && !Claimable(old(core.records), key, now) ==>
              status == Suppressed(old(core.records)[key].status) && core.records == old(core.records)
    ensures env.builds && Claimable(old(core.records), key, now) ==>
              && status == (if env.resolves then Answer(env) else Failed)
              && core.records == Overwritten(Taken(old(core.records), key, now), key, status)
  {
    if !env.builds { return Failed; }
    var result := Send(core, key, env, now);
    if result.SuppressedBy? {
      return if result.status.Sent? then Sent else Failed;
    }
    status := result.status;
  }

  /** An inline outcome report: record the outcome, claim the row, deliver, mirror the result. */
  method RecordOutcomeAndDeliver(
    store: HandoffStore.MemoryStore, core: ClaimCore, id: string, key: string, outcome: Handoff.Outcome, env: Env,
      now: int)
    returns (reply: Handoff.Reply)
    modifies store, core
    ensures var applied := Handoff.Lazy(old(store.State()), Handoff.ApplyOutcome(id, outcome), now);
            && reply == applied.reply
            && (!reply.Applied? ==> store.State() == applied.store && core.records == old(core.records))
            && (reply.Applied? ==>
                  && id in applied.store.byId
                  && var (row, records) := Undisturbed(applied.store.byId[id], old(core.records), key, env, now);
                     store.State() == Handoff.Put(applied.store, id, row) && core.records == records)
  {
    hide Handoff.SummaryClaimable, Claimable, Taken, Overwritten;
    reply := store.ApplyOutcome(id, outcome, now);
    if !reply.Applied? { return reply; }
    ghost var applied := store.State();
    assert id in store.sessionsById && applied.byId[id := applied.byId[id]] == applied.byId;
    var claim := store.ClaimSummaryDelivery(id, now);
    if claim.claimed {
      var status := Deliver(core, key, env, now);
      ghost var row := Handoff.Claimed(applied.byId[id], now).(summaryDelivery := Some(status));
      assert applied.byId[id := Handoff.Claimed(applied.byId[id], now)][id := row] == applied.byId[id := row];
      var recorded := store.RecordSummaryDelivery(id, status, now);
    }
  }

  /**
   * The outbox consumer: acts only when no attempt was ever recorded, or one is pending; asks for a retry while another
   * attempt is in flight.
   */
  method RecoverSummary(store: HandoffStore.MemoryStore, core: ClaimCore, id: string, key: string, env: Env, now: int)
    returns (retry: bool)
    modifies store, core
    ensures var looked := Handoff.Lazy(old(store.State()), Handoff.Get(id), now).store;
            if id !in looked.byId then store.State() == looked && core.records == old(core.records) && !retry
            else
              var session := looked.byId[id];
              var settled := session.summaryDelivery.Some? && !session.summaryDelivery.value.Pending?;
              var (row, records) := Undisturbed(session, old(core.records), key, env, now);
              if settled then store.State() == looked && core.records == old(core.records) && !retry
              else
                && store.State() == Handoff.Put(looked, id, row) && core.records == records
                && (retry <==> !Handoff.SummaryClaimable(session, now))
  {
    hide Claimable, Taken, Overwritten;
    retry := false;
    var session := store.Get(id, now);
    if session.Missing? { return false; }
    ghost var looked := store.State();
    var delivery := session.session.summaryDelivery;
    if delivery.Some? && !delivery.value.Pending? { return false; }
    assert looked.byId[id := looked.byId[id]] == looked.byId;
    var claim := store.ClaimSummaryDelivery(id, now);
    if !claim.claimed {
      return claim.delivery == Some(Pending);
    }
    var status := Deliver(core, key, env, now);
    ghost var row := Handoff.Claimed(looked.byId[id], now).(summaryDelivery := Some(status));
    assert looked.byId[id := Handoff.Claimed(looked.byId[id], now)][id := row] == looked.byId[id := row];
    var recorded := store.RecordSummaryDelivery(id, status, now);
  }
}
