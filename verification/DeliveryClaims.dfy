/**
 * The delivery-claim core: one record per key, claimed before a delivery and recorded after it, with a
 * lease that lets a claim abandoned by a crash be taken over.
 */
module DeliveryClaims {
  import opened Options

  /** A claim pending this long is presumed abandoned. */
  const STALE_CLAIM_MS := 300_000

  datatype DeliveryStatus = Pending | Failed | Sent | NotConfigured

  datatype ClaimRecord = ClaimRecord(status: DeliveryStatus, claimedAtMs: Option<int>)

  type Records = map<string, ClaimRecord>

  predicate Abandoned(r: ClaimRecord, now: int) {
    r.status.Pending? && r.claimedAtMs.Some? && now - r.claimedAtMs.value >= STALE_CLAIM_MS
  }

  predicate Claimable(records: Records, key: string, now: int) {
    key !in records || records[key].status.Failed? || Abandoned(records[key], now)
  }

  function Taken(records: Records, key: string, now: int): Records {
    if Claimable(records, key, now) then records[key := ClaimRecord(Pending, Some(now))] else records
  }

  function Overwritten(records: Records, key: string, status: DeliveryStatus): Records {
    records[key := ClaimRecord(status, if key in records then records[key].claimedAtMs else None)]
  }

  /** The core as it runs: one map, overwritten by claim and record. */
  class ClaimCore {
    var records: Records

    constructor ()
      ensures records == map[]
    {
      records := map[];
    }

    method Claim(key: string, now: int) returns (claimed: bool, status: DeliveryStatus)
      modifies this
      ensures records == Taken(old(records), key, now)
      ensures claimed <==> Claimable(old(records), key, now)
      ensures status == if claimed then Pending else old(records)[key].status
    {
      if key in records {
        var existing := records[key];
        var stale := existing.status.Pending? && existing.claimedAtMs.Some?
          && now - existing.claimedAtMs.value >= STALE_CLAIM_MS;
        if !existing.status.Failed? && !stale {
          return false, existing.status;
        }
      }
      records := records[key := ClaimRecord(Pending, Some(now))];
      return true, Pending;
    }

    method Record(key: string, status: DeliveryStatus)
      modifies this
      ensures records == Overwritten(old(records), key, status)
    {
      var claimedAt := None;
      if key in records { claimedAt := records[key].claimedAtMs; }
      records := records[key := ClaimRecord(status, claimedAt)];
    }
  }

  // ── Claimants as interleaved steps ─────────────────────────────────────────

  /** A live claimant: what it claimed, and when. */
  datatype Holding = Holding(key: string, claimedAtMs: int)

  datatype World = World(records: Records, live: map<nat, Holding>)

  /** A claim attempt, a recorded result, or a claimant's death. */
  datatype Act = Take(worker: nat, key: string) | Finish(worker: nat, status: DeliveryStatus) | Crash(worker: nat)

  function Next(w: World, act: Act, now: int): World {
    match act
    case Take(worker, key) =>
      if worker in w.live || !Claimable(w.records, key, now) then w
      else World(Taken(w.records, key, now), w.live[worker := Holding(key, now)])
    case Finish(worker, status) =>
      if worker !in w.live then w
      else World(Overwritten(w.records, w.live[worker].key, status), w.live - {worker})
    case Crash(worker) => w.(live := w.live - {worker})
  }

  /** Every live claimant is still within its lease. */
  ghost predicate Leased(w: World, now: int) {
    forall worker | worker in w.live :: now - w.live[worker].claimedAtMs < STALE_CLAIM_MS
  }

  /** A result that is a result: nobody records 'pending'. */
  predicate Reports(act: Act) {
    act.Finish? ==> !act.status.Pending?
  }

  datatype Timed = Timed(act: Act, now: int)

  function Run(w: World, run: seq<Timed>): World
    decreases |run|
  {
    if run == [] then w else Run(Next(w, run[0].act, run[0].now), run[1..])
  }

  ghost predicate LeasedRun(w: World, run: seq<Timed>)
    decreases |run|
  {
    run == []
    || (Leased(w, run[0].now) && Reports(run[0].act) && LeasedRun(Next(w, run[0].act, run[0].now), run[1..]))
  }

  /**
   * Each live claimant's record is pending since its own claim, no key has two of them, and every pending record says
   * since when.
   */
  ghost predicate Exclusive(w: World) {
    && (forall i | i in w.live :: w.live[i].key in w.records
                                  && w.records[w.live[i].key] == ClaimRecord(Pending, Some(w.live[i].claimedAtMs)))
    && (forall i, j | i in w.live && j in w.live && w.live[i].key == w.live[j].key :: i == j)
    && (forall key | key in w.records && w.records[key].status.Pending? :: w.records[key].claimedAtMs.Some?)
  }

  lemma StepIsExclusive(w: World, act: Act, now: int)
    requires Exclusive(w) && Leased(w, now) && Reports(act)
    ensures Exclusive(Next(w, act, now))
  {
    if act.Take? && Claimable(w.records, act.key, now) {
      forall i | i in w.live ensures w.live[i].key != act.key {
        assert now - w.live[i].claimedAtMs < STALE_CLAIM_MS;
      }
    }
  }

  /** Under the lease no key ever has two live claimants. */
  lemma {:induction false} LeaseExcludesSecondClaimant(w: World, run: seq<Timed>)
    requires Exclusive(w) && LeasedRun(w, run)
    ensures Exclusive(Run(w, run))
    decreases |run|
  {
    if run != [] {
      StepIsExclusive(w, run[0].act, run[0].now);
      LeaseExcludesSecondClaimant(Next(w, run[0].act, run[0].now), run[1..]);
    }
  }

  /** A recorded status other than failed. */
  predicate Settled(records: Records, key: string) {
    key in records && !records[key].status.Pending? && !records[key].status.Failed?
  }

  ghost predicate Unheld(w: World, key: string) {
    forall i | i in w.live :: w.live[i].key != key
  }

  /** Whatever the clock and the claimants do: no lease is asked for. */
  ghost predicate Reporting(run: seq<Timed>) {
    forall i | 0 <= i < |run| :: Reports(run[i].act)
  }

  lemma {:induction false} UnheldStays(w: World, run: seq<Timed>, key: string)
    requires Settled(w.records, key) && Unheld(w, key)
    ensures key in Run(w, run).records && Run(w, run).records[key] == w.records[key] && Unheld(Run(w, run), key)
    decreases |run|
  {
    if run != [] { UnheldStays(Next(w, run[0].act, run[0].now), run[1..], key); }
  }

  /** A settled record stays as it is in every run if and only if no live claimant holds its key. */
  lemma FinalExactlyWhenUnheld(w: World, key: string)
    requires Settled(w.records, key)
    ensures (forall run | Reporting(run) :: key in Run(w, run).records && Run(w, run).records[key] == w.records[key])
            <==> Unheld(w, key)
  {
    if Unheld(w, key) {
      forall run | Reporting(run)
        ensures key in Run(w, run).records && Run(w, run).records[key] == w.records[key]
      {
        UnheldStays(w, run, key);
      }
    } else {
      var i :| i in w.live && w.live[i].key == key;
      var run := [Timed(Finish(i, Failed), 0)];
      assert Reporting(run);
      assert run[1..] == [] && Run(w, run) == Next(w, Finish(i, Failed), 0);
    }
  }

  /**
   * A lease kept up to here is such a case: what was recorded under it is final from then on, whatever follows, and
   * never claimed again.
   */
  lemma FinalStatusIsFinal(w: World, leased: seq<Timed>, run: seq<Timed>, key: string)
    requires Exclusive(w) && LeasedRun(w, leased) && Settled(Run(w, leased).records, key) && Reporting(run)
    ensures var t := Run(w, leased); var u := Run(t, run);
            key in u.records && u.records[key] == t.records[key] && forall now :: !Claimable(u.records, key, now)
  {
    LeaseExcludesSecondClaimant(w, leased);
    FinalExactlyWhenUnheld(Run(w, leased), key);
  }

  /**
   * In a leased world a key may be claimed exactly when it is not settled and nobody alive holds it within the window:
   * failed at once, an abandoned claim once its window has passed.
   */
  lemma ClaimableExactlyWhen(w: World, key: string, now: int)
    requires Exclusive(w) && Leased(w, now)
    ensures Claimable(w.records, key, now) <==>
              || key !in w.records
              || w.records[key].status.Failed?
              || (w.records[key].status.Pending? && w.records[key].claimedAtMs.value + STALE_CLAIM_MS <= now)
    ensures Claimable(w.records, key, now) ==> forall i | i in w.live :: w.live[i].key != key
  {
    forall i | i in w.live && w.live[i].key == key ensures !Claimable(w.records, key, now) {
      assert now - w.live[i].claimedAtMs < STALE_CLAIM_MS;
    }
  }

  /**
   * A key settled while held, reached without the lease: a claimant that outlives its window records 'failed' over
   * another's 'sent', and the key is open again.
   */
  lemma LateRecordReopensAKey(key: string, t: int)
    ensures var w := Run(World(map[], map[]), [
                Timed(Take(0, key), t), Timed(Take(1, key), t + STALE_CLAIM_MS),
                Timed(Finish(1, Sent), t + STALE_CLAIM_MS), Timed(Finish(0, Failed), t + STALE_CLAIM_MS)]);
            Claimable(w.records, key, t + STALE_CLAIM_MS)
  {
    var late := t + STALE_CLAIM_MS;
    var w1 := Next(World(map[], map[]), Take(0, key), t);
    var w2 := Next(w1, Take(1, key), late);
    var w3 := Next(w2, Finish(1, Sent), late);
    var w4 := Next(w3, Finish(0, Failed), late);
    RunOfFour(World(map[], map[]), Timed(Take(0, key), t), Timed(Take(1, key), late),
              Timed(Finish(1, Sent), late), Timed(Finish(0, Failed), late));
  }

  lemma RunOfFour(w: World, a: Timed, b: Timed, c: Timed, d: Timed)
    ensures Run(w, [a, b, c, d]) == Next(Next(Next(Next(w, a.act, a.now), b.act, b.now), c.act, c.now), d.act, d.now)
  {
    hide Next;
    var w1 := Next(w, a.act, a.now);
    var w2 := Next(w1, b.act, b.now);
    var w3 := Next(w2, c.act, c.now);
    assert [a, b, c, d][1..] == [b, c, d] && [b, c, d][1..] == [c, d] && [c, d][1..] == [d] && [d][1..] == [];
    assert Run(w3, [d]) == Next(w3, d.act, d.now);
    assert Run(w2, [c, d]) == Run(w3, [d]);
    assert Run(w1, [b, c, d]) == Run(w2, [c, d]);
  }
}
