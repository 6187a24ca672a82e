/**
 * The reconciliation pass with other requests running at each of its awaits: while a provider is asked, between a
 * context's resolution and the look at its original, and before the original's own resolution.
 *
 * The pass still works from its one reading of the queue, and a provider's answers may change from turn to turn.
 */
module ReconcilerInterleaved {
  import opened Options
  import opened BookingContexts
  import opened BookingReconciler

  /** What happens around one queued context: other requests, and when the pass's own writes take place. */
  datatype Turn = Turn(
    asked: seq<Timed>, env: Env, now: int, resolved: seq<Timed>, lookedAt: int, looked: seq<Timed>, pairedAt: int)

  function OwnOp(c: Row, d: Resolution): Op {
    ResolveOp(c.offer.id, d.status, d.providerEventId, d.reason)
  }

  function OriginalsOp(also: Also): Op {
    ResolveOp(also.id, also.status, None, also.reason)
  }

  /** One queued context, up to its own resolution. */
  function Asked(s: Store, c: Row, t: Turn): Store {
    var s1 := Run(s, t.asked);
    var d := Decided(c, t.env);
    if d.None? then s1 else Apply(s1, OwnOp(c, d.value), t.now)
  }

  /** Whether its original is looked up: its own resolution was applied, and names one. */
  predicate LooksUp(s: Store, c: Row, t: Turn) {
    var d := Decided(c, t.env);
    d.Some? && d.value.also.Some? && Decide(Run(s, t.asked), OwnOp(c, d.value), t.now).reply.Context?
  }

  /** The look at the original, whose reply decides. */
  function Looked(s: Store, c: Row, t: Turn): (Store, bool)
    requires LooksUp(s, c, t)
  {
    var also := Decided(c, t.env).value.also.value;
    var s1 := Run(Asked(s, c, t), t.resolved);
    var reply := Decide(s1, Op.Get(also.id), t.lookedAt).reply;
    (Apply(s1, Op.Get(also.id), t.lookedAt), reply.Context? && reply.row.status.VerificationRequired?)
  }

  function Round(s: Store, c: Row, t: Turn): Store {
    if !LooksUp(s, c, t) then Asked(s, c, t)
    else
      var (s1, queued) := Looked(s, c, t);
      if !queued then s1
      else Apply(Run(s1, t.looked), OriginalsOp(Decided(c, t.env).value.also.value), t.pairedAt)
  }

  function Pass(s: Store, queue: seq<Row>, turns: seq<Turn>): Store
    requires |turns| == |queue|
  {
    if queue == [] then s
    else
      var n := |queue| - 1;
      Round(Pass(s, queue[..n], turns[..n]), queue[n], turns[n])
  }

  // ── The pass is a run of the store ─────────────────────────────────────────

  function RoundTrace(s: Store, c: Row, t: Turn): seq<Timed> {
    var d := Decided(c, t.env);
    if d.None? then t.asked
    else if !LooksUp(s, c, t) then t.asked + [Timed(OwnOp(c, d.value), t.now)]
    else
      var also := d.value.also.value;
      t.asked + [Timed(OwnOp(c, d.value), t.now)] + t.resolved + [Timed(Op.Get(also.id), t.lookedAt)]
      + if Looked(s, c, t).1 then t.looked + [Timed(OriginalsOp(also), t.pairedAt)] else []
  }

  function Trace(s: Store, queue: seq<Row>, turns: seq<Turn>): seq<Timed>
    requires |turns| == |queue|
  {
    if queue == [] then []
    else
      var n := |queue| - 1;
      Trace(s, queue[..n], turns[..n]) + RoundTrace(Pass(s, queue[..n], turns[..n]), queue[n], turns[n])
  }

  lemma {:induction false} RunInTwo(s: Store, a: seq<Timed>, b: seq<Timed>)
    ensures Run(s, a + b) == Run(Run(s, a), b)
    decreases |a|
  {
    hide Apply;
    if a == [] {
      assert a + b == b;
    } else {
      assert (a + b)[1..] == a[1..] + b;
      RunInTwo(Apply(s, a[0].op, a[0].now), a[1..], b);
    }
  }

  lemma RunOne(s: Store, op: Op, now: int)
    ensures Run(s, [Timed(op, now)]) == Apply(s, op, now)
  {
    hide Apply;
    assert [Timed(op, now)][1..] == [];
    assert Run(Apply(s, op, now), []) == Apply(s, op, now);
  }

  lemma RunThen(s: Store, run: seq<Timed>, op: Op, now: int)
    ensures Run(s, run + [Timed(op, now)]) == Apply(Run(s, run), op, now)
  {
    hide Apply, Run;
    RunInTwo(s, run, [Timed(op, now)]);
    RunOne(Run(s, run), op, now);
  }

  lemma RoundIsARun(s: Store, c: Row, t: Turn)
    ensures Run(s, RoundTrace(s, c, t)) == Round(s, c, t)
  {
    hide Run, Apply, Decide, Decided, ResolveOp;
    var d := Decided(c, t.env);
    if d.Some? {
      var own := t.asked + [Timed(OwnOp(c, d.value), t.now)];
      RunThen(s, t.asked, OwnOp(c, d.value), t.now);
      if LooksUp(s, c, t) {
        var also := d.value.also.value;
        RunInTwo(s, own, t.resolved);
        RunThen(s, own + t.resolved, Op.Get(also.id), t.lookedAt);
        var look := own + t.resolved + [Timed(Op.Get(also.id), t.lookedAt)];
        RunInTwo(s, look, t.looked);
        RunThen(s, look + t.looked, OriginalsOp(also), t.pairedAt);
        assert look + t.looked + [Timed(OriginalsOp(also), t.pairedAt)]
            == look + (t.looked + [Timed(OriginalsOp(also), t.pairedAt)]);
        assert look + [] == look;
      }
    }
  }

  /** Whatever the interleaving, the whole is one run of the store's operations; every run result applies to it. */
  lemma {:induction false} PassIsARun(s: Store, queue: seq<Row>, turns: seq<Turn>)
    requires |turns| == |queue|
    ensures Run(s, Trace(s, queue, turns)) == Pass(s, queue, turns)
  {
    hide Run, Round, RoundTrace;
    if queue == [] {
      RunNothing(s);
    } else {
      var n := |queue| - 1;
      var t := Pass(s, queue[..n], turns[..n]);
      PassIsARun(s, queue[..n], turns[..n]);
      RoundIsARun(t, queue[n], turns[n]);
      RunInTwo(s, Trace(s, queue[..n], turns[..n]), RoundTrace(t, queue[n], turns[n]));
    }
  }

  lemma RunNothing(s: Store)
    ensures Run(s, []) == s
  {
  }

  // ── Only evidence resolves ─────────────────────────────────────────────────

  /** What a resolution says of a context: of the one it is about, or of its original. */
  predicate Says(c: Row, d: Resolution, id: string, status: Status) {
    || (id == c.offer.id && status == d.status)
    || (d.also.Some? && id == d.also.value.id && status == d.also.value.status)
  }

  /** The answer to some queued context, at its own turn, gives `id` this status by the evidence table. */
  ghost predicate Evidenced(queue: seq<Row>, turns: seq<Turn>, id: string, status: Status)
    requires |turns| == |queue|
  {
    exists i :: 0 <= i < |queue| && Decided(queue[i], turns[i].env).Some?
                && Says(queue[i], Decided(queue[i], turns[i].env).value, id, status)
  }

  /** Another request that resolves `id` to this status, as an operator may. */
  ghost predicate Ordered(turns: seq<Turn>, id: string, status: Status) {
    exists i, x :: 0 <= i < |turns| && x in turns[i].asked + turns[i].resolved + turns[i].looked
                   && Resolves(x.op, id, status)
  }

  predicate Resolves(op: Op, id: string, status: Status) {
    op.ResolveVerification? && op.id == id && op.status == status
  }

  lemma RoundResolves(s: Store, c: Row, t: Turn, x: Timed, id: string, status: Status)
    requires x in RoundTrace(s, c, t) && Resolves(x.op, id, status)
    ensures x in t.asked + t.resolved + t.looked
            || (Decided(c, t.env).Some? && Says(c, Decided(c, t.env).value, id, status))
  {
    hide Decided, Decide, Run, Apply;
  }

  lemma {:induction false} TraceResolves(s: Store, queue: seq<Row>, turns: seq<Turn>, x: Timed, id: string,
                                         status: Status)
    requires |turns| == |queue| && x in Trace(s, queue, turns) && Resolves(x.op, id, status)
    ensures Ordered(turns, id, status) || Evidenced(queue, turns, id, status)
  {
    hide Decided, RoundTrace, Says, Run, Round;
    var n := |queue| - 1;
    if x in Trace(s, queue[..n], turns[..n]) {
      TraceResolves(s, queue[..n], turns[..n], x, id, status);
      assert forall i | 0 <= i < n :: queue[..n][i] == queue[i] && turns[..n][i] == turns[i];
    } else {
      RoundResolves(Pass(s, queue[..n], turns[..n]), queue[n], turns[n], x, id, status);
    }
  }

  /** A record of a resolution is written by the operation that resolves. */
  lemma StepRecords(s: Store, op: Op, now: int)
    requires Faithful(s)
    ensures var t := Apply(s, op, now);
            && s.audit <= t.audit && |t.audit| <= |s.audit| + 1
            && (|t.audit| > |s.audit| && t.audit[|s.audit|].action.VerificationResolved? ==>
                  Resolves(op, t.audit[|s.audit|].bookingContextId, t.audit[|s.audit|].action.status))
  {
    hide RouteProblemOf, BoundCalendar, GuardRefuses, Replay, History, TracedStatus;
    KeyedRows(s);
  }

  lemma {:induction false} RunRecords(s: Store, run: seq<Timed>, k: nat)
    requires Faithful(s) && |s.audit| <= k < |Run(s, run).audit| && Run(s, run).audit[k].action.VerificationResolved?
    ensures s.audit <= Run(s, run).audit
    ensures var r := Run(s, run).audit[k];
            exists x :: x in run && Resolves(x.op, r.bookingContextId, r.action.status)
    decreases |run|
  {
    hide Apply, Faithful, Resolves;
    var x := run[0];
    var t := Apply(s, x.op, x.now);
    StepRecords(s, x.op, x.now);
    StepIsFaithful(s, x.op, x.now);
    RunExtends(t, run[1..]);
    if k < |t.audit| {
      assert Run(s, run).audit[k] == t.audit[k];
      assert x in run;
    } else {
      RunRecords(t, run[1..], k);
      var y :| y in run[1..]
        && Resolves(y.op, Run(s, run).audit[k].bookingContextId, Run(s, run).audit[k].action.status);
      assert y in run;
    }
  }

  lemma {:induction false} RunExtends(s: Store, run: seq<Timed>)
    requires Faithful(s)
    ensures Faithful(Run(s, run)) && s.audit <= Run(s, run).audit
    decreases |run|
  {
    hide Apply, Faithful;
    if run != [] {
      StepRecords(s, run[0].op, run[0].now);
      StepIsFaithful(s, run[0].op, run[0].now);
      RunExtends(Apply(s, run[0].op, run[0].now), run[1..]);
    }
  }

  /**
   * In every interleaving with other requests, the audit trail stays faithful and each resolution it gains during the
   * pass was ordered by another request or is what the evidence table gives for an answer received during the pass.
   * Resolutions are the only way out of verification_required.
   */
  lemma OnlyEvidenceResolvesInterleaved(s: Store, queue: seq<Row>, turns: seq<Turn>)
    requires Faithful(s) && |turns| == |queue|
    ensures var t := Pass(s, queue, turns);
            && Faithful(t) && s.audit <= t.audit
            && forall k | |s.audit| <= k < |t.audit| && t.audit[k].action.VerificationResolved? ::
                 Ordered(turns, t.audit[k].bookingContextId, t.audit[k].action.status)
                 || Evidenced(queue, turns, t.audit[k].bookingContextId, t.audit[k].action.status)
  {
    hide Pass, Trace, Run, Faithful, Ordered, Evidenced, Resolves;
    var t, run := Pass(s, queue, turns), Trace(s, queue, turns);
    PassIsARun(s, queue, turns);
    RunExtends(s, run);
    forall k | |s.audit| <= k < |t.audit| && t.audit[k].action.VerificationResolved?
      ensures Ordered(turns, t.audit[k].bookingContextId, t.audit[k].action.status)
              || Evidenced(queue, turns, t.audit[k].bookingContextId, t.audit[k].action.status)
    {
      RunRecords(s, run, k);
      var x :| x in run && Resolves(x.op, t.audit[k].bookingContextId, t.audit[k].action.status);
      TraceResolves(s, queue, turns, x, t.audit[k].bookingContextId, t.audit[k].action.status);
    }
  }
}
