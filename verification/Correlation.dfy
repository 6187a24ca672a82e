/**
 * The correlation engine: an ordered list of signals, each narrowing the eligible sessions by one atomic call to the
 * handoff store, and the baseline when none decides.
 *
 * Between two calls other requests run and time passes; a `Turn` is what happens before a call, and when the call
 * reads the clock. Phone normalization is whatever function the caller-phone signal is given.
 */
module Correlation {
  import opened Options
  import opened HandoffSessions
  import HandoffStore
  import ConfigValidation

  datatype Intent = Intent(sessionId: Option<string>, callerPhone: Option<string>)

  datatype Signal = Signal(key: string, authoritative: bool, extract: Intent -> Option<string>,
                           criteria: string -> Criteria)

  const BASELINE := "exactly-one-eligible"

  function SessionIdSignal(): Signal {
    Signal("session-id", true,
           (intent: Intent) =>
             if intent.sessionId.None? || ConfigValidation.Trim(intent.sessionId.value) == "" then None
             else Some(ConfigValidation.Trim(intent.sessionId.value)),
           (value: string) => Criteria(Some(value), None))
  }

  function CallerPhoneSignal(normalizePhone: string -> Option<string>): Signal {
    Signal("caller-phone", false,
           (intent: Intent) => if intent.callerPhone.None? then None else normalizePhone(intent.callerPhone.value),
           (value: string) => Criteria(None, Some(value)))
  }

  function DefaultSignals(normalizePhone: string -> Option<string>): seq<Signal> {
    [SessionIdSignal(), CallerPhoneSignal(normalizePhone)]
  }

  datatype Turn = Turn(others: seq<Timed>, now: int)

  datatype Correlated = Matched(session: Session, matchedBy: string) | Unmatched(error: Error)

  function ToResult(reply: Reply, key: string): Correlated {
    match reply
    case One(session) => Matched(session, key)
    case Refused(error) => Unmatched(error)
    case _ => Unmatched(NoPreparedSession)
  }

  /** The walk over the signals. Absent ones are skipped; each present one takes a turn, and so does the baseline. */
  function Correlate(s: Store, org: string, intent: Intent, signals: seq<Signal>, turns: seq<Turn>): (Store, Correlated)
    requires |turns| > |signals|
    decreases |signals|
  {
    if signals == [] then
      var step := LazyConnect(LazyRun(s, turns[0].others), org, Criteria(None, None), turns[0].now);
      (step.store, ToResult(step.reply, BASELINE))
    else
      var signal := signals[0];
      var value := signal.extract(intent);
      if value.None? then Correlate(s, org, intent, signals[1..], turns)
      else
        var step := LazyConnect(LazyRun(s, turns[0].others), org, signal.criteria(value.value), turns[0].now);
        if step.reply == Refused(NoPreparedSession) && !signal.authoritative then
          Correlate(step.store, org, intent, signals[1..], turns[1..])
        else (step.store, ToResult(step.reply, signal.key))
  }

  // ── The rule ───────────────────────────────────────────────────────────────

  /** A question the engine may ask: a present signal, or the baseline. */
  datatype Question = Question(key: string, criteria: Criteria, last: bool)

  /** The questions an intent gives rise to, in order: an authoritative signal's is the last. */
  function Questions(intent: Intent, signals: seq<Signal>): (qs: seq<Question>)
    ensures qs != [] && |qs| <= |signals| + 1
    ensures qs[|qs| - 1].last && forall i | 0 <= i < |qs| - 1 :: !qs[i].last
  {
    if signals == [] then [Question(BASELINE, Criteria(None, None), true)]
    else
      var value := signals[0].extract(intent);
      if value.None? then Questions(intent, signals[1..])
      else
        var q := Question(signals[0].key, signals[0].criteria(value.value), signals[0].authoritative);
        if q.last then [q] else [q] + Questions(intent, signals[1..])
  }

  /** The sessions other requests alone would have left by the time of the k-th question, expired ones swept. */
  function Meanwhile(s: Store, turns: seq<Turn>, k: nat): Store
    requires k < |turns|
    decreases k
  {
    if k == 0 then Swept(LazyRun(s, turns[0].others), turns[0].now)
    else Meanwhile(LazyRun(s, turns[0].others), turns[1..], k - 1)
  }

  /** The question has an answer: some session is a candidate, or there is nothing left to ask. */
  predicate Decides(s: Store, org: string, q: Question) {
    q.last || Candidates(s.byId, org, q.criteria) != {}
  }

  /** Turns follow one another under a clock that never goes back. */
  ghost predicate OnTime(turns: seq<Turn>, since: int)
    decreases |turns|
  {
    turns != [] ==>
      && Clocked(turns[0].others, since)
      && (var end := if turns[0].others == [] then since else turns[0].others[|turns[0].others| - 1].now;
          end <= turns[0].now)
      && OnTime(turns[1..], turns[0].now)
  }

  /** Runs from stores that agree once swept end in stores that agree once swept. */
  lemma RunsAgree(a: Store, b: Store, run: seq<Timed>, since: int, now: int)
    requires Clocked(run, since) && Swept(a, since) == Swept(b, since)
    requires (if run == [] then since else run[|run| - 1].now) <= now
    ensures Swept(LazyRun(a, run), now) == Swept(LazyRun(b, run), now)
  {
    hide Swept, LazyRun, EagerRun, LazyReplies, EagerReplies;
    LazyExpiryIsUnobservable(a, b, run, since);
    LazyExpiryIsUnobservable(b, b, run, since);
    var end := if run == [] then since else run[|run| - 1].now;
    SweepTwice(LazyRun(a, run), end, now);
    SweepTwice(LazyRun(b, run), end, now);
  }

  /** So a session the engine or anyone else already swept makes no difference to what others leave. */
  lemma {:induction false} MeanwhileAgrees(a: Store, b: Store, turns: seq<Turn>, k: nat, since: int)
    requires k < |turns| && OnTime(turns, since) && Swept(a, since) == Swept(b, since)
    ensures Meanwhile(a, turns, k) == Meanwhile(b, turns, k)
    decreases k
  {
    hide Swept, LazyRun;
    RunsAgree(a, b, turns[0].others, since, turns[0].now);
    if k > 0 {
      MeanwhileAgrees(LazyRun(a, turns[0].others), LazyRun(b, turns[0].others), turns[1..], k - 1, turns[0].now);
    }
  }

  /** One question asked of a store: what an eager store answers at once. */
  function Asked(s: Store, org: string, q: Question, now: int): (Store, Correlated) {
    var step := LazyConnect(s, org, q.criteria, now);
    (step.store, ToResult(step.reply, q.key))
  }

  ghost predicate DecidedAt(s: Store, org: string, qs: seq<Question>, turns: seq<Turn>, k: nat)
    requires |qs| <= |turns|
  {
    && k < |qs| && Decides(Meanwhile(s, turns, k), org, qs[k])
    && forall i | 0 <= i < k :: !Decides(Meanwhile(s, turns, i), org, qs[i])
  }

  lemma SweptIsSettled(s: Store, now: int)
    ensures Swept(Swept(s, now), now) == Swept(s, now)
  {
    SweepTwice(s, now, now);
  }

  /** Asking a swept store or the store itself is the same question. */
  lemma AskedSwept(s: Store, org: string, q: Question, now: int)
    ensures Asked(Swept(s, now), org, q, now) == Asked(s, org, q, now)
  {
    hide Swept, Candidates, Put, Publish;
    SweptIsSettled(s, now);
  }

  lemma NoCandidateNoStep(s: Store, org: string, c: Criteria, now: int)
    ensures var step := LazyConnect(s, org, c, now);
            && (step.reply == Refused(NoPreparedSession) <==> Candidates(Swept(s, now).byId, org, c) == {})
            && (step.reply == Refused(NoPreparedSession) ==> step.store == Swept(s, now))
  {
    hide Swept, Candidates, Put, Publish;
  }

  /**
   * Whatever other requests do in between, the engine's whole effect is one question: the first in order that decides,
   * asked of what the other requests alone left. The earlier ones leave no trace.
   */
  lemma {:induction false} FirstDecidingSignalConnects(s: Store, org: string, intent: Intent, signals: seq<Signal>,
                                                       turns: seq<Turn>, since: int)
    returns (k: nat)
    requires |turns| > |signals| && OnTime(turns, since)
    ensures DecidedAt(s, org, Questions(intent, signals), turns, k)
    ensures Correlate(s, org, intent, signals, turns)
              == Asked(Meanwhile(s, turns, k), org, Questions(intent, signals)[k], turns[k].now)
    decreases |signals|
  {
    hide Swept, LazyRun, LazyConnect, Candidates;
    var qs := Questions(intent, signals);
    var first := LazyRun(s, turns[0].others);
    if signals == [] {
      AskedSwept(first, org, qs[0], turns[0].now);
      return 0;
    }
    var value := signals[0].extract(intent);
    if value.None? {
      k := FirstDecidingSignalConnects(s, org, intent, signals[1..], turns, since);
      return;
    }
    var q := qs[0];
    assert q == Question(signals[0].key, signals[0].criteria(value.value), signals[0].authoritative);
    NoCandidateNoStep(first, org, q.criteria, turns[0].now);
    AskedSwept(first, org, q, turns[0].now);
    if Decides(Meanwhile(s, turns, 0), org, q) {
      return 0;
    }
    var next := Swept(first, turns[0].now);
    SweptIsSettled(first, turns[0].now);
    var j := FirstDecidingSignalConnects(next, org, intent, signals[1..], turns[1..], turns[0].now);
    k := j + 1;
    var rest := Questions(intent, signals[1..]);
    assert qs == [q] + rest;
    forall i | 0 <= i <= j ensures Meanwhile(next, turns[1..], i) == Meanwhile(s, turns, i + 1) {
      MeanwhileAgrees(next, first, turns[1..], i, turns[0].now);
    }
    OneLater(s, next, org, q, rest, turns, j);
  }

  lemma OneLater(s: Store, next: Store, org: string, q: Question, rest: seq<Question>, turns: seq<Turn>, j: nat)
    requires |rest| + 1 <= |turns| && DecidedAt(next, org, rest, turns[1..], j)
    requires !Decides(Meanwhile(s, turns, 0), org, q)
    requires forall i | 0 <= i <= j :: Meanwhile(next, turns[1..], i) == Meanwhile(s, turns, i + 1)
    ensures DecidedAt(s, org, [q] + rest, turns, j + 1)
  {
    hide Decides, Meanwhile;
    var qs := [q] + rest;
    forall i | 0 <= i < j + 1 ensures !Decides(Meanwhile(s, turns, i), org, qs[i]) {
      if i > 0 {
        assert qs[i] == rest[i - 1];
        assert !Decides(Meanwhile(next, turns[1..], i - 1), org, rest[i - 1]);
      }
    }
    assert Decides(Meanwhile(next, turns[1..], j), org, rest[j]);
    assert qs[j + 1] == rest[j];
  }

  // ── What one question does ─────────────────────────────────────────────────

  /** Success moves exactly one session, the only candidate; every error moves none. */
  lemma OneQuestionMovesAtMostOne(s: Store, org: string, q: Question, now: int)
    requires Swept(s, now) == s
    ensures var (t, r) := Asked(s, org, q, now); var found := Candidates(s.byId, org, q.criteria);
            && (r.Matched? <==> |found| == 1)
            && (r.Unmatched? ==> t == s && r.error == if found == {} then NoPreparedSession else AmbiguousSession)
            && (r.Matched? ==>
                  exists id :: found == {id} && s.byId[id].firmId == org && s.byId[id].status.AwaitingTransfer?
                    && t.byId == s.byId[id := s.byId[id].(redeemedAtMs := Some(now), status := Connected)]
                    && t.byToken == s.byToken
                    && t.events == s.events + [Event(ConversationConnected, org, s.byId[id].id)]
                    && r == Matched(t.byId[id], q.key))
  {
    hide Swept;
    var found := Candidates(s.byId, org, q.criteria);
    if |found| == 1 {
      var id := Only(found);
      assert found == {id} && id in found;
    }
  }

  lemma {:induction false} MeanwhileIsSwept(s: Store, turns: seq<Turn>, k: nat)
    requires k < |turns|
    ensures Swept(Meanwhile(s, turns, k), turns[k].now) == Meanwhile(s, turns, k)
    decreases k
  {
    hide Swept, LazyRun;
    if k == 0 {
      SweptIsSettled(LazyRun(s, turns[0].others), turns[0].now);
    } else {
      MeanwhileIsSwept(LazyRun(s, turns[0].others), turns[1..], k - 1);
    }
  }

  /** The rule in full: who is connected, by which signal, or which error, and what the store is afterwards. */
  lemma CorrelationRule(s: Store, org: string, intent: Intent, signals: seq<Signal>, turns: seq<Turn>, since: int)
    returns (k: nat)
    requires |turns| > |signals| && OnTime(turns, since)
    ensures DecidedAt(s, org, Questions(intent, signals), turns, k)
    ensures var q := Questions(intent, signals)[k]; var there := Meanwhile(s, turns, k);
            var found := Candidates(there.byId, org, q.criteria);
            var (t, r) := Correlate(s, org, intent, signals, turns);
            && (r.Matched? <==> |found| == 1)
            && (r.Unmatched? ==> t == there && r.error == if found == {} then NoPreparedSession else AmbiguousSession)
            && (r.Matched? ==> r.matchedBy == q.key && r.session.firmId == org && r.session.status.Connected?
                                 && exists id :: found == {id} && t.byId == there.byId[id := r.session])
  {
    hide Swept, LazyConnect, Correlate, Candidates;
    k := FirstDecidingSignalConnects(s, org, intent, signals, turns, since);
    MeanwhileIsSwept(s, turns, k);
    OneQuestionMovesAtMostOne(Meanwhile(s, turns, k), org, Questions(intent, signals)[k], turns[k].now);
  }

  // ── Whom a connect may connect ─────────────────────────────────────────────

  /** The organization's sessions that await a transfer in time and carry the id and the number asked for, if any. */
  ghost function Waiting(s: Store, org: string, sessionId: Option<string>, phone: Option<string>, now: int): set<string>
  {
    set id | id in s.byId && s.byId[id].firmId == org && s.byId[id].status.AwaitingTransfer?
             && now < s.byId[id].expiresAtMs
             && (sessionId.Some? ==> s.byId[id].id == sessionId.value)
             && (phone.Some? ==> s.byId[id].phone.Some? && s.byId[id].phone.value == phone.value)
  }

  /** Sessions left alone, but for those whose time has run out. */
  ghost predicate LeftAlone(before: Store, after: Store, id: string, now: int)
    requires id in before.byId
  {
    && id in after.byId
    && (after.byId[id] == before.byId[id]
        || (before.byId[id].status.AwaitingTransfer? && before.byId[id].expiresAtMs <= now
            && after.byId[id] == before.byId[id].(status := Expired)))
  }

  /** The one session asked for is redeemed, and announced; no other is touched. */
  ghost predicate Connects(before: Store, after: Store, id: string, now: int)
    requires id in before.byId
  {
    && (forall other | other in before.byId && other != id :: LeftAlone(before, after, other, now))
    && after.byId.Keys == before.byId.Keys && after.byToken == before.byToken
    && after.byId[id] == before.byId[id].(redeemedAtMs := Some(now), status := Connected)
    && after.events == before.events + [Event(ConversationConnected, before.byId[id].firmId, before.byId[id].id)]
  }

  ghost predicate ConnectsNobody(before: Store, after: Store, now: int) {
    && (forall id | id in before.byId :: LeftAlone(before, after, id, now))
    && after.byId.Keys == before.byId.Keys && after.byToken == before.byToken && after.events == before.events
  }

  /** What a connect comes to, in terms of the sessions waiting. */
  ghost predicate ConnectsTheOne(before: Store, after: Store, waiting: set<string>, now: int, r: Correlated,
                                 key: string)
  {
    if |waiting| == 1
    then exists id :: waiting == {id} && id in before.byId && id in after.byId && Connects(before, after, id, now)
                      && r == Matched(after.byId[id], key)
    else ConnectsNobody(before, after, now)
         && r == Unmatched(if waiting == {} then NoPreparedSession else AmbiguousSession)
  }

  lemma WaitingAreCandidates(s: Store, org: string, c: Criteria, now: int)
    ensures Candidates(Swept(s, now).byId, org, c) == Waiting(s, org, c.sessionId, c.phone, now)
  {
    SweepKeys(s, now);
  }

  /** A connect redeems the only session waiting with the id and the number asked for, or none at all. */
  lemma ConnectRule(s: Store, org: string, c: Criteria, now: int, key: string)
    ensures var step := Lazy(s, ConnectEligible(org, c), now);
            ConnectsTheOne(s, step.store, Waiting(s, org, c.sessionId, c.phone, now), now, ToResult(step.reply, key),
                           key)
  {
    hide Candidates, Waiting;
    WaitingAreCandidates(s, org, c, now);
    SweepKeys(s, now);
    var found := Candidates(Swept(s, now).byId, org, c);
    CandidatesAreStored(Swept(s, now), org, c);
    if |found| == 1 {
      var id := Only(found);
      assert found == {id} && id in found;
    }
  }

  lemma CandidatesAreStored(s: Store, org: string, c: Criteria)
    ensures forall id | id in Candidates(s.byId, org, c) :: id in s.byId && s.byId[id].status.AwaitingTransfer?
  {
  }

  // ── The default signals ────────────────────────────────────────────────────

  ghost predicate SessionsKeyed(s: Store) {
    forall id | id in s.byId :: s.byId[id].id == id
  }

  lemma StepKeepsKeys(s: Store, op: Op, now: int)
    requires SessionsKeyed(s)
    ensures SessionsKeyed(Lazy(s, op, now).store)
  {
    hide Listing, InStatus, PurgedShort, PurgedTerminal, Matches;
  }

  lemma {:induction false} RunKeepsKeys(s: Store, run: seq<Timed>)
    requires SessionsKeyed(s)
    ensures SessionsKeyed(LazyRun(s, run))
    decreases |run|
  {
    hide Lazy, SessionsKeyed;
    if run != [] {
      StepKeepsKeys(s, run[0].op, run[0].now);
      RunKeepsKeys(Lazy(s, run[0].op, run[0].now).store, run[1..]);
    }
  }

  lemma MeanwhileKeepsKeys(s: Store, turns: seq<Turn>)
    requires SessionsKeyed(s) && turns != []
    ensures SessionsKeyed(Meanwhile(s, turns, 0))
  {
    hide LazyRun;
    RunKeepsKeys(s, turns[0].others);
  }

  /** A present session id is the whole story: that very session if it is eligible, otherwise nothing, never a guess. */
  lemma SessionIdIsAuthoritative(s: Store, org: string, intent: Intent, normalizePhone: string -> Option<string>,
                                 turns: seq<Turn>)
    requires |turns| > 2 && intent.sessionId.Some? && ConfigValidation.Trim(intent.sessionId.value) != ""
    requires SessionsKeyed(s)
    ensures var id := ConfigValidation.Trim(intent.sessionId.value); var there := Meanwhile(s, turns, 0);
            var first := LazyRun(s, turns[0].others);
            var (t, r) := Correlate(s, org, intent, DefaultSignals(normalizePhone), turns);
            && (if id in Eligible(there.byId, org) then r.Matched? && r.session.id == id && r.matchedBy == "session-id"
                else r == Unmatched(NoPreparedSession) && t == there)
            && ConnectsTheOne(first, t, Waiting(first, org, Some(id), None, turns[0].now), turns[0].now, r,
                              "session-id")
  {
    hide Swept, LazyRun, Publish, Put, Waiting, ConnectsTheOne;
    ConnectRule(LazyRun(s, turns[0].others), org, Criteria(Some(ConfigValidation.Trim(intent.sessionId.value)), None),
                turns[0].now, "session-id");
    MeanwhileKeepsKeys(s, turns);
    var id := ConfigValidation.Trim(intent.sessionId.value);
    var there := Meanwhile(s, turns, 0);
    var found := Candidates(there.byId, org, Criteria(Some(id), None));
    assert found == if id in Eligible(there.byId, org) then {id} else {};
    if found == {id} { assert Only(found) == id; }
  }

  /** What other requests leave by the second call, whether or not the first one swept. */
  lemma SecondCallSees(s: Store, org: string, turns: seq<Turn>, since: int)
    requires |turns| > 1 && OnTime(turns, since)
    ensures var u := LazyRun(s, turns[0].others);
            Swept(LazyRun(Swept(u, turns[0].now), turns[1].others), turns[1].now)
            == Swept(LazyRun(u, turns[1].others), turns[1].now)
  {
    hide LazyRun, Swept;
    var u := LazyRun(s, turns[0].others);
    SweptIsSettled(u, turns[0].now);
    RunsAgree(Swept(u, turns[0].now), u, turns[1].others, turns[0].now, turns[1].now);
  }

  /**
   * Without a session id, the caller's number decides: the only session waiting with that number is connected by it,
   * several are ambiguous and none is connected, and with none the baseline is asked of what others have left by then.
   */
  lemma CallerPhoneDecides(s: Store, org: string, intent: Intent, normalizePhone: string -> Option<string>,
                           turns: seq<Turn>, since: int, number: string)
    requires |turns| > 2 && OnTime(turns, since)
    requires intent.sessionId.None? && intent.callerPhone.Some?
    requires normalizePhone(intent.callerPhone.value) == Some(number)
    ensures var (t, r) := Correlate(s, org, intent, DefaultSignals(normalizePhone), turns);
            var first := LazyRun(s, turns[0].others); var second := LazyRun(first, turns[1].others);
            var named := Waiting(first, org, None, Some(number), turns[0].now);
            if named != {} then ConnectsTheOne(first, t, named, turns[0].now, r, "caller-phone")
            else ConnectsTheOne(LazyRun(Swept(first, turns[0].now), turns[1].others), t,
                                Waiting(second, org, None, None, turns[1].now), turns[1].now, r, "exactly-one-eligible")
  {
    hide LazyRun, Swept, LazyConnect, Waiting, ConnectsTheOne;
    var signals := DefaultSignals(normalizePhone);
    var first := LazyRun(s, turns[0].others);
    var c := Criteria(None, Some(number));
    assert signals[0].extract(intent).None? && signals[1..][0] == CallerPhoneSignal(normalizePhone);
    assert Correlate(s, org, intent, signals, turns) == Correlate(s, org, intent, signals[1..], turns);
    assert signals[1..][0].extract(intent) == Some(number) && signals[1..][0].criteria(number) == c;
    ConnectRule(first, org, c, turns[0].now, "caller-phone");
    NoOneWaiting(first, org, c, turns[0].now);
    if Waiting(first, org, None, Some(number), turns[0].now) == {} {
      var swept := Swept(first, turns[0].now);
      var seen := LazyRun(swept, turns[1].others);
      assert signals[1..][1..] == [];
      assert Correlate(s, org, intent, signals[1..], turns) == Correlate(swept, org, intent, [], turns[1..]);
      assert turns[1..][0] == turns[1];
      ConnectRule(seen, org, Criteria(None, None), turns[1].now, BASELINE);
      SecondCallSees(s, org, turns, since);
      SweptWaiting(seen, LazyRun(first, turns[1].others), org, turns[1].now);
    }
  }

  lemma NoOneWaiting(s: Store, org: string, c: Criteria, now: int)
    ensures var step := LazyConnect(s, org, c, now);
            && (step.reply == Refused(NoPreparedSession) <==> Waiting(s, org, c.sessionId, c.phone, now) == {})
            && (step.reply == Refused(NoPreparedSession) ==> step.store == Swept(s, now))
  {
    hide Swept, Waiting, Candidates;
    NoCandidateNoStep(s, org, c, now);
    WaitingAreCandidates(s, org, c, now);
  }

  lemma SweptWaiting(a: Store, b: Store, org: string, now: int)
    requires Swept(a, now) == Swept(b, now)
    ensures Waiting(a, org, None, None, now) == Waiting(b, org, None, None, now)
  {
    hide Swept, Waiting, Candidates;
    WaitingAreCandidates(a, org, Criteria(None, None), now);
    WaitingAreCandidates(b, org, Criteria(None, None), now);
  }

  /** Without a session id and without a usable number only the baseline is asked. */
  lemma BaselineDecides(s: Store, org: string, intent: Intent, normalizePhone: string -> Option<string>,
                        turns: seq<Turn>)
    requires |turns| > 2 && (intent.sessionId.None? || ConfigValidation.Trim(intent.sessionId.value) == "")
    requires intent.callerPhone.None? || normalizePhone(intent.callerPhone.value).None?
    ensures var (t, r) := Correlate(s, org, intent, DefaultSignals(normalizePhone), turns);
            var first := LazyRun(s, turns[0].others);
            ConnectsTheOne(first, t, Waiting(first, org, None, None, turns[0].now), turns[0].now, r,
                           "exactly-one-eligible")
  {
    hide LazyRun, Swept, LazyConnect, Waiting, ConnectsTheOne;
    var signals := DefaultSignals(normalizePhone);
    assert signals[0].extract(intent).None? && signals[1..][0] == CallerPhoneSignal(normalizePhone);
    assert signals[1..][0].extract(intent).None? && signals[1..][1..] == [];
    assert Correlate(s, org, intent, signals, turns) == Correlate(s, org, intent, signals[1..], turns);
    assert Correlate(s, org, intent, signals[1..], turns) == Correlate(s, org, intent, [], turns);
    ConnectRule(LazyRun(s, turns[0].others), org, Criteria(None, None), turns[0].now, BASELINE);
  }

  // ── The engine ─────────────────────────────────────────────────────────────

  class Engine {
    const store: HandoffStore.MemoryStore
    const signals: seq<Signal>

    constructor (store: HandoffStore.MemoryStore, signals: seq<Signal>)
      ensures this.store == store && this.signals == signals
    {
      this.store, this.signals := store, signals;
    }

    function Quiet(times: seq<int>): seq<Turn> {
      seq(|times|, i requires 0 <= i < |times| => Turn([], times[i]))
    }

    /** The loop, when no other request comes between two of its calls; `times` is what each reads from the clock. */
    method CorrelateIntent(org: string, intent: Intent, times: seq<int>) returns (result: Correlated)
      requires |times| > |signals|
      modifies store
      ensures (store.State(), result) == Correlate(old(store.State()), org, intent, signals, Quiet(times))
    {
      hide LazyConnect;
      ghost var outcome := Correlate(store.State(), org, intent, signals, Quiet(times));
      var asked := 0;
      var i := 0;
      while i < |signals|
        invariant 0 <= asked <= i <= |signals|
        invariant Correlate(store.State(), org, intent, signals[i..], Quiet(times[asked..])) == outcome
      {
        var signal := signals[i];
        assert signals[i..][0] == signal && signals[i..][1..] == signals[i + 1..];
        assert Quiet(times[asked..])[0] == Turn([], times[asked]);
        var value := signal.extract(intent);
        if value.Some? {
          var reply := store.ConnectEligible(org, signal.criteria(value.value), times[asked]);
          if !(reply == Refused(NoPreparedSession) && !signal.authoritative) {
            return ToResult(reply, signal.key);
          }
          assert Quiet(times[asked..])[1..] == Quiet(times[asked + 1..]);
          asked := asked + 1;
        }
        i := i + 1;
      }
      assert Quiet(times[asked..])[0] == Turn([], times[asked]);
      var reply := store.ConnectEligible(org, Criteria(None, None), times[asked]);
      result := ToResult(reply, BASELINE);
    }
  }
}
