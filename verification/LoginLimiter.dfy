/**
 * The login limiter: a fixed window per client, kept in a map that is pruned of past windows once it is not small,
 * with a hard cap as a backstop. Its specification is plain counting over the whole history.
 */
module LoginLimiter {
  const PRUNE_AT := 1024
  const MAX_ENTRIES := 50_000

  datatype Entry = Entry(bucket: int, count: nat)
  type Attempts = map<string, Entry>

  /** What the limiter was asked and said; `counted` is false where the backstop refused without recording. */
  datatype Event = Event(client: string, now: int, counted: bool, allowed: bool)
  type Log = seq<Event>

  function Bucket(now: int, windowMs: int): int
    requires windowMs > 0
  {
    now / windowMs
  }

  // ── The limiter ────────────────────────────────────────────────────────────

  function Pruned(m: Attempts, bucket: int): Attempts {
    if |m| >= PRUNE_AT then map c | c in m && m[c].bucket >= bucket :: m[c] else m
  }

  function Next(m: Attempts, client: string, bucket: int): Entry {
    if client in m && m[client].bucket == bucket then Entry(bucket, m[client].count + 1) else Entry(bucket, 1)
  }

  function Attempt(m: Attempts, client: string, bucket: int, maxAttempts: nat): (Attempts, bool) {
    var pruned := Pruned(m, bucket);
    if |pruned| > MAX_ENTRIES then (pruned, false)
    else
      var next := Next(pruned, client, bucket);
      (pruned[client := next], next.count <= maxAttempts)
  }

  datatype Asked = Asked(client: string, now: int)

  predicate Clocked(run: seq<Asked>) {
    forall i, j | 0 <= i < j < |run| :: run[i].now <= run[j].now
  }

  /** The limiter's map and everything it said, after a run from a fresh limiter. */
  function After(run: seq<Asked>, windowMs: int, maxAttempts: nat): (Attempts, Log)
    requires windowMs > 0
  {
    if run == [] then (map[], [])
    else
      var (m, log) := After(run[..|run| - 1], windowMs, maxAttempts);
      var x := run[|run| - 1];
      var bucket := Bucket(x.now, windowMs);
      var (next, allowed) := Attempt(m, x.client, bucket, maxAttempts);
      (next, log + [Event(x.client, x.now, |Pruned(m, bucket)| <= MAX_ENTRIES, allowed)])
  }

  // ── Plain counting ─────────────────────────────────────────────────────────

  /** The counted attempts of a client in one bucket. */
  function Count(log: Log, client: string, bucket: int, windowMs: int): nat
    requires windowMs > 0
  {
    if log == [] then 0
    else
      var x := log[|log| - 1];
      Count(log[..|log| - 1], client, bucket, windowMs)
        + if x.counted && x.client == client && Bucket(x.now, windowMs) == bucket then 1 else 0
  }

  /** The clients that were counted in one bucket. */
  function ClientsIn(log: Log, bucket: int, windowMs: int): set<string>
    requires windowMs > 0
  {
    set i | 0 <= i < |log| && log[i].counted && Bucket(log[i].now, windowMs) == bucket :: log[i].client
  }

  lemma {:induction false} CountedClients(log: Log, client: string, bucket: int, windowMs: int)
    requires windowMs > 0
    ensures Count(log, client, bucket, windowMs) > 0 <==> client in ClientsIn(log, bucket, windowMs)
  {
    hide Bucket;
    if log != [] {
      var n := |log| - 1;
      CountedClients(log[..n], client, bucket, windowMs);
      if client in ClientsIn(log[..n], bucket, windowMs) {
        var i :| 0 <= i < n && log[..n][i].counted && Bucket(log[..n][i].now, windowMs) == bucket
          && log[..n][i].client == client;
        assert log[i] == log[..n][i];
      }
      if i :| 0 <= i < |log| && log[i].counted && Bucket(log[i].now, windowMs) == bucket && log[i].client == client {
        if i < n { assert log[..n][i] == log[i]; }
      }
    }
  }

  /**
   * The map tells the truth as of bucket `latest`: a live entry is the client's whole count there, and a client
   * without a live entry has none.
   */
  ghost predicate Truthful(m: Attempts, log: Log, latest: int, windowMs: int)
    requires windowMs > 0
  {
    && (forall i | 0 <= i < |log| :: Bucket(log[i].now, windowMs) <= latest)
    && (forall c | c in m ::
          m[c].bucket <= latest && m[c].count > 0 && m[c].count == Count(log, c, m[c].bucket, windowMs))
    && (forall c :: Count(log, c, latest, windowMs) > 0 ==> c in m && m[c].bucket == latest)
  }

  lemma {:induction false} NothingLater(log: Log, client: string, bucket: int, windowMs: int)
    requires windowMs > 0 && forall i | 0 <= i < |log| :: Bucket(log[i].now, windowMs) < bucket
    ensures Count(log, client, bucket, windowMs) == 0
  {
    hide Bucket;
    if log != [] {
      var n := |log| - 1;
      forall i | 0 <= i < n ensures log[..n][i] == log[i] {}
      NothingLater(log[..n], client, bucket, windowMs);
      assert Bucket(log[n].now, windowMs) < bucket;
    }
  }

  /** Time moving on to a later bucket keeps the map truthful: nobody was counted there yet. */
  lemma LaterIsTruthful(m: Attempts, log: Log, latest: int, bucket: int, windowMs: int)
    requires windowMs > 0 && latest <= bucket && Truthful(m, log, latest, windowMs)
    ensures Truthful(m, log, bucket, windowMs)
  {
    hide Bucket, Count;
    if latest < bucket {
      forall c ensures Count(log, c, bucket, windowMs) == 0 { NothingLater(log, c, bucket, windowMs); }
    }
  }

  /** Pruning drops only entries of past buckets, so it resets no live counter. */
  lemma PruningIsTruthful(m: Attempts, log: Log, bucket: int, windowMs: int)
    requires windowMs > 0 && Truthful(m, log, bucket, windowMs)
    ensures Truthful(Pruned(m, bucket), log, bucket, windowMs)
  {
    hide Bucket, Count;
  }

  lemma NextIsTheCount(m: Attempts, log: Log, client: string, bucket: int, windowMs: int)
    requires windowMs > 0 && Truthful(m, log, bucket, windowMs)
    ensures Next(m, client, bucket) == Entry(bucket, Count(log, client, bucket, windowMs) + 1)
  {
    hide Bucket, Count;
  }

  lemma CountNext(log: Log, x: Event, client: string, bucket: int, windowMs: int)
    requires windowMs > 0
    ensures Count(log + [x], client, bucket, windowMs)
              == Count(log, client, bucket, windowMs)
                + if x.counted && x.client == client && Bucket(x.now, windowMs) == bucket then 1 else 0
  {
    hide Bucket;
    assert (log + [x])[..|log|] == log;
  }

  lemma RecordingIsTruthful(m: Attempts, log: Log, x: Event, windowMs: int)
    requires windowMs > 0 && Truthful(m, log, Bucket(x.now, windowMs), windowMs)
    ensures var bucket := Bucket(x.now, windowMs);
            Truthful(if x.counted then m[x.client := Next(m, x.client, bucket)] else m, log + [x], bucket, windowMs)
  {
    hide Bucket, Count, Next;
    var bucket := Bucket(x.now, windowMs);
    var longer := log + [x];
    var after := if x.counted then m[x.client := Next(m, x.client, bucket)] else m;
    NextIsTheCount(m, log, x.client, bucket, windowMs);
    forall i | 0 <= i < |longer| ensures Bucket(longer[i].now, windowMs) <= bucket {
      if i < |log| { assert longer[i] == log[i]; }
    }
    forall c | c in after
      ensures after[c].bucket <= bucket && after[c].count > 0
              && after[c].count == Count(longer, c, after[c].bucket, windowMs)
    {
      CountNext(log, x, c, after[c].bucket, windowMs);
    }
    forall c | Count(longer, c, bucket, windowMs) > 0 ensures c in after && after[c].bucket == bucket {
      CountNext(log, x, c, bucket, windowMs);
    }
  }

  lemma Multiples(p: int, q: int, w: int)
    requires p <= q && w > 0
    ensures p * w <= q * w
  {
  }

  lemma OneMore(p: int, w: int)
    ensures (p + 1) * w == p * w + w
  {
  }

  /** Quotients are ordered as the bounds they lie between. */
  lemma QuotientsOrdered(p: int, r: int, q: int, s: int, w: int)
    requires w > 0 && r < w && 0 <= s && p * w + r >= q * w + s
    ensures p >= q
  {
    if q > p {
      Multiples(p + 1, q, w);
      OneMore(p, w);
    }
  }

  lemma DivisionGrows(a: int, b: int, windowMs: int)
    requires windowMs > 0 && a <= b
    ensures Bucket(a, windowMs) <= Bucket(b, windowMs)
  {
    QuotientsOrdered(b / windowMs, b % windowMs, a / windowMs, a % windowMs, windowMs);
  }

  ghost predicate LogOf(run: seq<Asked>, log: Log) {
    |log| == |run| && forall i | 0 <= i < |run| :: log[i].client == run[i].client && log[i].now == run[i].now
  }

  /** What an unpruned counter of (client, bucket) would say to the i-th attempt. */
  ghost predicate CountedVerdicts(log: Log, windowMs: int, maxAttempts: nat)
    requires windowMs > 0
  {
    forall i | 0 <= i < |log| ::
      log[i].allowed
      <==> log[i].counted && Count(log[..i], log[i].client, Bucket(log[i].now, windowMs), windowMs) + 1 <= maxAttempts
  }

  lemma VerdictsNext(log: Log, x: Event, windowMs: int, maxAttempts: nat)
    requires windowMs > 0 && CountedVerdicts(log, windowMs, maxAttempts)
    requires x.allowed <==> x.counted && Count(log, x.client, Bucket(x.now, windowMs), windowMs) + 1 <= maxAttempts
    ensures CountedVerdicts(log + [x], windowMs, maxAttempts)
  {
    hide Bucket, Count;
    var longer := log + [x];
    forall i | 0 <= i < |longer|
      ensures longer[i].allowed <==>
                longer[i].counted
                && Count(longer[..i], longer[i].client, Bucket(longer[i].now, windowMs), windowMs) + 1 <= maxAttempts
    {
      assert longer[..i] == log[..i];
      if i == |log| { assert log[..i] == log; }
    }
  }

  /** Every verdict the pruned map gives is the verdict of plain counting, but for attempts the backstop refuses. */
  lemma {:induction false} LimiterCounts(run: seq<Asked>, windowMs: int, maxAttempts: nat, latest: int)
    requires windowMs > 0 && Clocked(run) && (run != [] ==> Bucket(run[|run| - 1].now, windowMs) <= latest)
    ensures var (m, log) := After(run, windowMs, maxAttempts);
            LogOf(run, log) && CountedVerdicts(log, windowMs, maxAttempts) && Truthful(m, log, latest, windowMs)
  {
    hide Bucket, Pruned, Next, CountedVerdicts, Truthful;
    if run == [] {
      NoVerdicts(windowMs, maxAttempts, latest);
    } else {
      var n := |run| - 1;
      var x := run[n];
      var bucket := Bucket(x.now, windowMs);
      var (m, log) := After(run[..n], windowMs, maxAttempts);
      if n > 0 { DivisionGrows(run[n - 1].now, x.now, windowMs); }
      LimiterCounts(run[..n], windowMs, maxAttempts, bucket);
      var pruned := Pruned(m, bucket);
      PruningIsTruthful(m, log, bucket, windowMs);
      NextIsTheCount(pruned, log, x.client, bucket, windowMs);
      var (next, allowed) := Attempt(m, x.client, bucket, maxAttempts);
      var e := Event(x.client, x.now, |pruned| <= MAX_ENTRIES, allowed);
      RecordingIsTruthful(pruned, log, e, windowMs);
      VerdictsNext(log, e, windowMs, maxAttempts);
      LaterIsTruthful(next, log + [e], bucket, latest, windowMs);
    }
  }

  lemma NoVerdicts(windowMs: int, maxAttempts: nat, latest: int)
    requires windowMs > 0
    ensures CountedVerdicts([], windowMs, maxAttempts) && Truthful(map[], [], latest, windowMs)
  {
  }

  lemma ClockedPrefix(run: seq<Asked>, x: Asked, windowMs: int)
    requires windowMs > 0 && Clocked(run + [x])
    ensures Clocked(run) && (run != [] ==> Bucket(run[|run| - 1].now, windowMs) <= Bucket(x.now, windowMs))
  {
    forall i, j | 0 <= i < j < |run| ensures run[i].now <= run[j].now {
      assert (run + [x])[i] == run[i] && (run + [x])[j] == run[j];
    }
    if run != [] {
      assert (run + [x])[|run| - 1].now <= (run + [x])[|run|].now;
      DivisionGrows(run[|run| - 1].now, x.now, windowMs);
    }
  }

  /** The backstop refuses exactly when more than 50,000 distinct clients were counted in the bucket at hand. */
  lemma BackstopMeansFlood(run: seq<Asked>, x: Asked, windowMs: int, maxAttempts: nat)
    requires windowMs > 0 && Clocked(run + [x])
    ensures var (m, log) := After(run, windowMs, maxAttempts); var bucket := Bucket(x.now, windowMs);
            |Pruned(m, bucket)| > MAX_ENTRIES <==> |ClientsIn(log, bucket, windowMs)| > MAX_ENTRIES
  {
    hide Bucket, Count, ClientsIn;
    var (m, log) := After(run, windowMs, maxAttempts);
    var bucket := Bucket(x.now, windowMs);
    ClockedPrefix(run, x, windowMs);
    LimiterCounts(run, windowMs, maxAttempts, bucket);
    var pruned := Pruned(m, bucket);
    assert |pruned| == |pruned.Keys|;
    if |pruned| > MAX_ENTRIES {
      forall c | c in pruned ensures c in ClientsIn(log, bucket, windowMs) {
        assert pruned[c].bucket == bucket;
        CountedClients(log, c, bucket, windowMs);
      }
      Subset(pruned.Keys, ClientsIn(log, bucket, windowMs));
    }
    forall c | c in ClientsIn(log, bucket, windowMs) ensures c in pruned.Keys {
      CountedClients(log, c, bucket, windowMs);
    }
    Subset(ClientsIn(log, bucket, windowMs), pruned.Keys);
  }

  /** So every verdict is read off the history alone: the client's own attempts, and how many clients there were. */
  lemma VerdictIsHistory(run: seq<Asked>, x: Asked, windowMs: int, maxAttempts: nat)
    requires windowMs > 0 && Clocked(run + [x])
    ensures var (m, log) := After(run, windowMs, maxAttempts); var bucket := Bucket(x.now, windowMs);
            Attempt(m, x.client, bucket, maxAttempts).1
            <==> |ClientsIn(log, bucket, windowMs)| <= MAX_ENTRIES
                 && Count(log, x.client, bucket, windowMs) + 1 <= maxAttempts
  {
    hide Bucket, Count, ClientsIn, Truthful, Next, Pruned;
    var (m, log) := After(run, windowMs, maxAttempts);
    var bucket := Bucket(x.now, windowMs);
    ClockedPrefix(run, x, windowMs);
    LimiterCounts(run, windowMs, maxAttempts, bucket);
    BackstopMeansFlood(run, x, windowMs, maxAttempts);
    PruningIsTruthful(m, log, bucket, windowMs);
    NextIsTheCount(Pruned(m, bucket), log, x.client, bucket, windowMs);
  }

  lemma {:induction false} Subset(a: set<string>, b: set<string>)
    requires a <= b
    ensures |a| <= |b|
  {
    if a != {} {
      var c :| c in a;
      Subset(a - {c}, b - {c});
    }
  }

  // ── How much is let through ────────────────────────────────────────────────

  /** The attempts of a client allowed in one bucket. */
  function Admitted(log: Log, client: string, bucket: int, windowMs: int): nat
    requires windowMs > 0
  {
    if log == [] then 0
    else
      var x := log[|log| - 1];
      Admitted(log[..|log| - 1], client, bucket, windowMs)
        + if x.allowed && x.client == client && Bucket(x.now, windowMs) == bucket then 1 else 0
  }

  /** The attempts of a client allowed at times in [from, to). */
  function AdmittedBetween(log: Log, client: string, from: int, to: int): nat {
    if log == [] then 0
    else
      var x := log[|log| - 1];
      AdmittedBetween(log[..|log| - 1], client, from, to) + if x.allowed && x.client == client && from <= x.now < to
        then 1 else 0
  }

  lemma VerdictsPrefix(log: Log, windowMs: int, maxAttempts: nat)
    requires windowMs > 0 && log != [] && CountedVerdicts(log, windowMs, maxAttempts)
    ensures CountedVerdicts(log[..|log| - 1], windowMs, maxAttempts)
  {
    hide Bucket, Count;
    var n := |log| - 1;
    forall i | 0 <= i < n ensures log[..n][i] == log[i] && log[..n][..i] == log[..i] {}
  }

  /** Of a client's counted attempts in a bucket, the first maxAttempts are allowed and no others. */
  lemma {:induction false} BucketAdmitsAtMost(log: Log, client: string, bucket: int, windowMs: int, maxAttempts: nat)
    requires windowMs > 0 && CountedVerdicts(log, windowMs, maxAttempts)
    ensures var n := Count(log, client, bucket, windowMs);
            Admitted(log, client, bucket, windowMs) == if n <= maxAttempts then n else maxAttempts
  {
    hide Bucket;
    if log != [] {
      VerdictsPrefix(log, windowMs, maxAttempts);
      BucketAdmitsAtMost(log[..|log| - 1], client, bucket, windowMs, maxAttempts);
    }
  }

  lemma WindowSpansTwoBuckets(from: int, now: int, windowMs: int)
    requires windowMs > 0 && from <= now < from + windowMs
    ensures Bucket(now, windowMs) == Bucket(from, windowMs) || Bucket(now, windowMs) == Bucket(from, windowMs) + 1
  {
    DivisionGrows(from, now, windowMs);
    DivisionGrows(now, from + windowMs, windowMs);
    NextBucket(from, windowMs);
  }

  lemma NextBucket(from: int, windowMs: int)
    requires windowMs > 0
    ensures Bucket(from + windowMs, windowMs) == Bucket(from, windowMs) + 1
  {
    var next := from + windowMs;
    var q, r := from / windowMs, from % windowMs;
    OneMore(q, windowMs);
    QuotientsOrdered(next / windowMs, next % windowMs, q + 1, r, windowMs);
    QuotientsOrdered(q + 1, r, next / windowMs, next % windowMs, windowMs);
  }

  lemma {:induction false} WindowAdmitsBothBuckets(log: Log, client: string, from: int, windowMs: int)
    requires windowMs > 0
    ensures AdmittedBetween(log, client, from, from + windowMs)
              <= Admitted(log, client, Bucket(from, windowMs), windowMs)
                + Admitted(log, client, Bucket(from, windowMs) + 1, windowMs)
  {
    hide Bucket;
    if log != [] {
      var x := log[|log| - 1];
      WindowAdmitsBothBuckets(log[..|log| - 1], client, from, windowMs);
      if from <= x.now < from + windowMs { WindowSpansTwoBuckets(from, x.now, windowMs); }
    }
  }

  ghost function AdmittedAt(log: Log, client: string, from: int, to: int): set<int> {
    set i | 0 <= i < |log| && log[i].allowed && log[i].client == client && from <= log[i].now < to
  }

  lemma {:induction false} AdmittedAreCounted(log: Log, client: string, from: int, to: int)
    ensures AdmittedBetween(log, client, from, to) == |AdmittedAt(log, client, from, to)|
  {
    if log == [] {
      assert AdmittedAt(log, client, from, to) == {};
    } else {
      var n := |log| - 1;
      AdmittedAreCounted(log[..n], client, from, to);
      assert AdmittedAt(log, client, from, to)
          == AdmittedAt(log[..n], client, from, to)
             + if log[n].allowed && log[n].client == client && from <= log[n].now < to then {n} else {};
    }
  }

  /**
   * In any run, one bucket admits at most maxAttempts per client, and any interval of one window's length twice that.
   */
  lemma AnyWindowAdmitsAtMostTwice(run: seq<Asked>, windowMs: int, maxAttempts: nat, client: string, from: int)
    requires windowMs > 0 && Clocked(run)
    ensures var log := After(run, windowMs, maxAttempts).1;
            && Admitted(log, client, Bucket(from, windowMs), windowMs) <= maxAttempts
            && |AdmittedAt(log, client, from, from + windowMs)| <= 2 * maxAttempts
  {
    hide Bucket, After, Truthful, CountedVerdicts, Count;
    var log := After(run, windowMs, maxAttempts).1;
    LimiterCounts(run, windowMs, maxAttempts, if run == [] then 0 else Bucket(run[|run| - 1].now, windowMs));
    BucketAdmitsAtMost(log, client, Bucket(from, windowMs), windowMs, maxAttempts);
    BucketAdmitsAtMost(log, client, Bucket(from, windowMs) + 1, windowMs, maxAttempts);
    WindowAdmitsBothBuckets(log, client, from, windowMs);
    AdmittedAreCounted(log, client, from, from + windowMs);
  }

  // ── The object ─────────────────────────────────────────────────────────────

  class Limiter {
    const windowMs: int
    const maxAttempts: nat
    var attempts: Attempts

    constructor (windowMs: int, maxAttempts: nat)
      ensures this.windowMs == windowMs && this.maxAttempts == maxAttempts && attempts == map[]
    {
      this.windowMs, this.maxAttempts, attempts := windowMs, maxAttempts, map[];
    }

    method Prune(bucket: int)
      modifies this
      ensures attempts == Pruned(old(attempts), bucket)
    {
      if |attempts| < PRUNE_AT { return; }
      ghost var before := attempts;
      var left := attempts.Keys;
      while left != {}
        invariant left <= attempts.Keys <= before.Keys
        invariant forall c | c in before :: c in attempts <==> c in left || before[c].bucket >= bucket
        invariant forall c | c in attempts :: attempts[c] == before[c]
        decreases left
      {
        var c :| c in left;
        left := left - {c};
        if attempts[c].bucket < bucket { attempts := attempts - {c}; }
      }
      assert attempts == Pruned(before, bucket);
    }

    method AttemptBy(client: string, now: int) returns (allowed: bool)
      requires windowMs > 0
      modifies this
      ensures (attempts, allowed) == Attempt(old(attempts), client, Bucket(now, windowMs), maxAttempts)
    {
      hide Pruned;
      var bucket := now / windowMs;
      Prune(bucket);
      if |attempts| > MAX_ENTRIES { return false; }
      var next := if client in attempts && attempts[client].bucket == bucket
        then Entry(bucket, attempts[client].count + 1) else Entry(bucket, 1);
      attempts := attempts[client := next];
      allowed := next.count <= maxAttempts;
    }
  }
}
