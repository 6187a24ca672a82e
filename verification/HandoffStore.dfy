/**
 * The in-memory handoff store as it runs: two maps and the event log, changed in place, each method
 * equal to the step of the specification it implements.
 */
module HandoffStore {
  import opened Options
  import opened HandoffSessions
  import Claims = DeliveryClaims

  class MemoryStore {
    var sessionsById: map<string, Session>
    var tokenHashToSessionId: map<string, string>
    var events: seq<Event>

    ghost function State(): Store
      reads this
    {
      Store(sessionsById, tokenHashToSessionId, events)
    }

    constructor ()
      ensures State() == EMPTY
    {
      sessionsById, tokenHashToSessionId, events := map[], map[], [];
    }

    method MarkExpiredIfNeeded(id: string, now: int)
      requires id in sessionsById
      modifies this`sessionsById
      ensures sessionsById == old(sessionsById)[id := Mark(old(sessionsById)[id], now)]
    {
      var session := sessionsById[id];
      if session.status.AwaitingTransfer? && now >= session.expiresAtMs {
        session := session.(status := Expired);
      }
      sessionsById := sessionsById[id := session];
    }

    method AppendSync(kind: EventKind, session: Session)
      modifies this`events
      ensures events == old(events) + [Event(kind, session.firmId, session.id)]
    {
      events := events + [Event(kind, session.firmId, session.id)];
    }

    /**
     * The scan shared by create, connect and count: expires what it passes, collects the matching eligible sessions.
     */
    method ScanEligible(firmId: string, criteria: Criteria, now: int) returns (found: set<string>)
      modifies this`sessionsById
      ensures sessionsById == MarkAll(old(sessionsById), now)
      ensures found == Candidates(sessionsById, firmId, criteria)
    {
      hide MarkAll, Candidates, Mark;
      ghost var before := sessionsById;
      ghost var all := MarkAll(before, now);
      MarkedEverywhere(before, now);
      CandidatesHere(all, firmId, criteria);
      var pending := sessionsById.Keys;
      found := {};
      while pending != {}
        invariant pending <= before.Keys == sessionsById.Keys
        invariant forall id | id in before :: sessionsById[id] == if id in pending then before[id] else all[id]
        invariant forall id :: id in found <==> id in Candidates(all, firmId, criteria) && id !in pending
        decreases |pending|
      {
        var id :| id in pending;
        MarkExpiredIfNeeded(id, now);
        var session := sessionsById[id];
        pending := pending - {id};
        if session.firmId != firmId || !session.status.AwaitingTransfer? { continue; }
        if criteria.sessionId.Some? && session.id != criteria.sessionId.value { continue; }
        if criteria.phone.Some? && session.phone != criteria.phone { continue; }
        found := found + {id};
      }
      assert sessionsById == all;
      assert found == Candidates(all, firmId, criteria);
    }

    method Create(session: Session, cap: Option<int>, now: int) returns (reply: Reply)
      modifies this
      ensures Step(State(), reply) == Lazy(old(State()), Op.Create(session, cap), now)
    {
      if cap.Some? && session.status.AwaitingTransfer? {
        var eligible := ScanEligible(session.firmId, Criteria(None, None), now);
        assert eligible == Eligible(sessionsById, session.firmId);
        if |eligible| >= cap.value { return Refused(TooManyPreparedSessions); }
      }
      sessionsById := sessionsById[session.id := session];
      tokenHashToSessionId := tokenHashToSessionId[session.tokenHash := session.id];
      reply := One(session);
    }

    method Redeem(tokenHash: string, now: int) returns (reply: Reply)
      modifies this
      ensures Step(State(), reply) == Lazy(old(State()), Op.Redeem(tokenHash), now)
    {
      if tokenHash !in tokenHashToSessionId { return Refused(UnknownToken); }
      var id := tokenHashToSessionId[tokenHash];
      if id !in sessionsById { return Refused(UnknownToken); }
      if sessionsById[id].status.Cancelled? { return Refused(TokenCancelled); }
      MarkExpiredIfNeeded(id, now);
      var session := sessionsById[id];
      if session.status.Expired? || now >= session.expiresAtMs { return Refused(TokenExpired); }
      if session.redeemedAtMs.Some? || !session.status.AwaitingTransfer? { return Refused(TokenAlreadyRedeemed); }
      session := session.(redeemedAtMs := Some(now), status := Connected);
      sessionsById := sessionsById[id := session];
      AppendSync(ConversationConnected, session);
      reply := One(session);
    }

    method StatusByConsole(id: string, consoleTokenHash: string, now: int) returns (reply: Reply)
      modifies this
      ensures Step(State(), reply) == Lazy(old(State()), Op.StatusByConsole(id, consoleTokenHash), now)
    {
      if id !in sessionsById { return Refused(UnknownSession); }
      if sessionsById[id].consoleTokenHash != consoleTokenHash { return Refused(Forbidden); }
      MarkExpiredIfNeeded(id, now);
      reply := One(sessionsById[id]);
    }

    method Cancel(id: string, consoleTokenHash: string, now: int) returns (reply: Reply)
      modifies this
      ensures Step(State(), reply) == Lazy(old(State()), Op.Cancel(id, consoleTokenHash), now)
    {
      if id !in sessionsById { return Refused(UnknownSession); }
      if sessionsById[id].consoleTokenHash != consoleTokenHash { return Refused(Forbidden); }
      MarkExpiredIfNeeded(id, now);
      var session := sessionsById[id];
      if session.status.Cancelled? {
        if now >= session.expiresAtMs { return Refused(SessionExpired); }
        return One(session);
      }
      if session.status.Connected? { return Refused(CannotCancel); }
      if session.status.Expired? { return Refused(SessionExpired); }
      session := session.(status := Cancelled, cancelledAtMs := Some(now));
      sessionsById := sessionsById[id := session];
      reply := One(session);
    }

    method ConnectEligible(firmId: string, criteria: Criteria, now: int) returns (reply: Reply)
      modifies this
      ensures Step(State(), reply) == Lazy(old(State()), Op.ConnectEligible(firmId, criteria), now)
    {
      var eligible := ScanEligible(firmId, criteria, now);
      if |eligible| == 0 { return Refused(NoPreparedSession); }
      if |eligible| > 1 { return Refused(AmbiguousSession); }
      var id := Only(eligible);
      assert id in eligible;
      var session := sessionsById[id].(redeemedAtMs := Some(now), status := Connected);
      sessionsById := sessionsById[id := session];
      AppendSync(ConversationConnected, session);
      reply := One(session);
    }

    method CountEligible(firmId: string, now: int) returns (reply: Reply)
      modifies this
      ensures Step(State(), reply) == Lazy(old(State()), Op.CountEligible(firmId), now)
    {
      var eligible := ScanEligible(firmId, Criteria(None, None), now);
      assert eligible == Eligible(sessionsById, firmId);
      reply := Count(|eligible|);
    }

    method ApplyOutcome(id: string, outcome: Outcome, now: int) returns (reply: Reply)
      modifies this
      ensures Step(State(), reply) == Lazy(old(State()), Op.ApplyOutcome(id, outcome), now)
    {
      if id !in sessionsById { return Refused(UnknownSession); }
      var session := sessionsById[id];
      if session.status in {Booked, Failed, Escalated} {
        if session.outcome == Some(outcome) { return Applied(session, true); }
        return Refused(OutcomeConflict);
      }
      if !session.status.Connected? && !session.status.Scheduling? { return Refused(InvalidOutcomeState); }
      session := session.(status := outcome.status);
      session := session.(outcome := Some(outcome), completedAtMs := Some(now));
      sessionsById := sessionsById[id := session];
      AppendSync(ConversationCompleted(outcome.status), session);
      reply := Applied(session, false);
    }

    method ClaimSummaryDelivery(id: string, now: int) returns (reply: Reply)
      modifies this
      ensures Step(State(), reply) == Lazy(old(State()), Op.ClaimSummary(id), now)
    {
      if id !in sessionsById { return Refused(UnknownSession); }
      var session := sessionsById[id];
      var stale := session.summaryDelivery == Some(Claims.Pending) && session.summaryClaimedAtMs.Some?
                   && now - session.summaryClaimedAtMs.value >= Claims.STALE_CLAIM_MS;
      if session.summaryDelivery.None? || session.summaryDelivery == Some(Claims.Failed) || stale {
        session := session.(summaryDelivery := Some(Claims.Pending), summaryClaimedAtMs := Some(now));
        sessionsById := sessionsById[id := session];
        return Claim(true, Some(Claims.Pending));
      }
      reply := Claim(false, session.summaryDelivery);
    }

    method RecordSummaryDelivery(id: string, delivery: Claims.DeliveryStatus, now: int) returns (reply: Reply)
      modifies this
      ensures Step(State(), reply) == Lazy(old(State()), Op.RecordSummary(id, delivery), now)
    {
      if id !in sessionsById { return Refused(UnknownSession); }
      sessionsById := sessionsById[id := sessionsById[id].(summaryDelivery := Some(delivery))];
      reply := Recorded;
    }

    /** The scan behind the operational views: expires what it passes, collects one firm's sessions by status. */
    method ScanStatuses(firmId: string, statuses: set<SessionStatus>, now: int) returns (found: set<string>)
      modifies this`sessionsById
      ensures sessionsById == MarkAll(old(sessionsById), now)
      ensures found == WithStatus(sessionsById, firmId, statuses)
    {
      hide MarkAll, WithStatus, Mark;
      ghost var before := sessionsById;
      ghost var all := MarkAll(before, now);
      MarkedEverywhere(before, now);
      StatusesHere(all, firmId, statuses);
      var pending := sessionsById.Keys;
      found := {};
      while pending != {}
        invariant pending <= before.Keys == sessionsById.Keys
        invariant forall id | id in before :: sessionsById[id] == if id in pending then before[id] else all[id]
        invariant forall id :: id in found <==> id in WithStatus(all, firmId, statuses) && id !in pending
        decreases |pending|
      {
        var id :| id in pending;
        MarkExpiredIfNeeded(id, now);
        var session := sessionsById[id];
        if session.firmId == firmId && session.status in statuses {
          found := found + {id};
        }
        pending := pending - {id};
      }
      assert sessionsById == all;
      assert found == WithStatus(all, firmId, statuses);
    }

    method CountByStatus(firmId: string, status: SessionStatus, now: int) returns (reply: Reply)
      modifies this
      ensures Step(State(), reply) == Lazy(old(State()), Op.CountByStatus(firmId, status), now)
    {
      var found := ScanStatuses(firmId, {status}, now);
      assert found == InStatus(sessionsById, firmId, status);
      reply := Count(|found|);
    }

    method ListByStatuses(firmId: string, statuses: set<SessionStatus>, now: int) returns (reply: Reply)
      modifies this
      ensures Step(State(), reply) == Lazy(old(State()), Op.ListByStatuses(firmId, statuses), now)
    {
      var found := ScanStatuses(firmId, statuses, now);
      assert Listing(sessionsById, firmId, statuses) == set id | id in found :: sessionsById[id];
      reply := Many(set id | id in found :: sessionsById[id]);
    }

    method Get(id: string, now: int) returns (reply: Reply)
      modifies this
      ensures Step(State(), reply) == Lazy(old(State()), Op.Get(id), now)
    {
      if id !in sessionsById { return Missing; }
      MarkExpiredIfNeeded(id, now);
      reply := One(sessionsById[id]);
    }

    method Size(now: int) returns (reply: Reply)
      ensures Step(State(), reply) == Lazy(State(), Op.Size, now)
    {
      reply := Count(|sessionsById|);
    }

    /** One session of the purge, removed when its window has passed; which class it fell into. */
    method PurgeOne(id: string, firmId: string, shortCut: int, terminalCut: int)
      returns (shortLived: bool, terminal: bool)
      requires id in sessionsById
      modifies this
      ensures shortLived <==> old(sessionsById)[id].firmId == firmId && ShortLived(old(sessionsById)[id], shortCut)
      ensures terminal
              <==> !shortLived && old(sessionsById)[id].firmId == firmId
                   && LongDone(old(sessionsById)[id], terminalCut)
      ensures State() == if shortLived || terminal then WithoutOne(old(State()), id) else old(State())
    {
      var session := sessionsById[id];
      if session.firmId != firmId { return false, false; }
      var status := session.status;
      var cancelledAt := if session.cancelledAtMs.Some? then session.cancelledAtMs.value else session.expiresAtMs;
      var completedAt := if session.completedAtMs.Some? then session.completedAtMs.value else 0;
      shortLived := (status.Cancelled? && cancelledAt <= shortCut)
                    || ((status.Expired? || status.AwaitingTransfer?) && session.expiresAtMs <= shortCut);
      terminal := !shortLived && (status.Booked? || status.Failed? || status.Escalated?) && completedAt <= terminalCut;
      if shortLived || terminal {
        sessionsById := sessionsById - {id};
        tokenHashToSessionId := tokenHashToSessionId - {session.tokenHash};
      }
    }

    method PurgeRetired(firmId: string, cancelledExpiredBeforeMs: int, terminalBeforeMs: int, now: int)
      returns (reply: Reply)
      modifies this
      ensures Step(State(), reply)
                == Lazy(old(State()), Op.Purge(firmId, cancelledExpiredBeforeMs, terminalBeforeMs), now)
    {
      hide ShortLived, LongDone, PurgedShort, PurgedTerminal, WithoutSessions, WithoutOne;
      ghost var before := State();
      ghost var allShort := PurgedShort(before.byId, firmId, cancelledExpiredBeforeMs);
      ghost var allTerminal := PurgedTerminal(before.byId, firmId, terminalBeforeMs);
      ghost var short: set<string>, terminal: set<string>, gone: set<string> := {}, {}, {};
      NothingRemoved(before, firmId, cancelledExpiredBeforeMs, terminalBeforeMs);
      var purgedShortLived, purgedTerminal := 0, 0;
      var pending := sessionsById.Keys;
      while pending != {}
        invariant pending <= before.byId.Keys && gone <= before.byId.Keys
        invariant forall id :: id in short <==> id in allShort && id !in pending
        invariant forall id :: id in terminal <==> id in allTerminal && id !in pending
        invariant forall id :: id in gone <==> id in short || id in terminal
        invariant State() == WithoutSessions(before, gone)
        invariant purgedShortLived == |short| && purgedTerminal == |terminal|
        decreases |pending|
      {
        var id :| id in pending;
        StillThere(before, gone, id);
        PurgeHere(before, firmId, cancelledExpiredBeforeMs, terminalBeforeMs, id);
        OneLess(before, gone, id);
        var shortLived, longDone := PurgeOne(id, firmId, cancelledExpiredBeforeMs, terminalBeforeMs);
        pending := pending - {id};
        if shortLived {
          purgedShortLived, short, gone := purgedShortLived + 1, short + {id}, gone + {id};
        } else if longDone {
          purgedTerminal, terminal, gone := purgedTerminal + 1, terminal + {id}, gone + {id};
        }
      }
      SameSets(short, allShort, terminal, allTerminal, gone);
      reply := Purged(purgedShortLived, purgedTerminal);
    }
  }

  lemma SameSets(a: set<string>, a': set<string>, b: set<string>, b': set<string>, c: set<string>)
    requires forall id :: id in a <==> id in a'
    requires forall id :: id in b <==> id in b'
    requires forall id :: id in c <==> id in a || id in b
    ensures a == a' && b == b' && c == a' + b'
  {
  }

  lemma MarkedEverywhere(byId: map<string, Session>, now: int)
    ensures MarkAll(byId, now).Keys == byId.Keys
    ensures forall id | id in byId :: MarkAll(byId, now)[id] == Mark(byId[id], now)
  {
  }

  lemma CandidatesHere(byId: map<string, Session>, firmId: string, c: Criteria)
    ensures forall id :: id in Candidates(byId, firmId, c)
              <==> id in byId && byId[id].firmId == firmId && byId[id].status.AwaitingTransfer? && Matches(byId[id], c)
  {
  }

  lemma StatusesHere(byId: map<string, Session>, firmId: string, statuses: set<SessionStatus>)
    ensures forall id :: id in WithStatus(byId, firmId, statuses)
              <==> id in byId && byId[id].firmId == firmId && byId[id].status in statuses
  {
  }

  function WithStatus(byId: map<string, Session>, firmId: string, statuses: set<SessionStatus>): set<string> {
    set id | id in byId && byId[id].firmId == firmId && byId[id].status in statuses
  }

  lemma NothingRemoved(s: Store, firmId: string, shortCut: int, terminalCut: int)
    ensures WithoutSessions(s, {}) == s
    ensures forall id | id in PurgedShort(s.byId, firmId, shortCut) :: id in s.byId
    ensures forall id | id in PurgedTerminal(s.byId, firmId, terminalCut) :: id in s.byId
  {
  }

  lemma StillThere(s: Store, gone: set<string>, id: string)
    requires gone <= s.byId.Keys && id in s.byId && id !in gone
    ensures id in WithoutSessions(s, gone).byId && WithoutSessions(s, gone).byId[id] == s.byId[id]
  {
  }

  lemma PurgeHere(s: Store, firmId: string, shortCut: int, terminalCut: int, id: string)
    requires id in s.byId
    ensures var x := s.byId[id];
            && (id in PurgedShort(s.byId, firmId, shortCut) <==> x.firmId == firmId && ShortLived(x, shortCut))
            && (id in PurgedTerminal(s.byId, firmId, terminalCut) <==> x.firmId == firmId && LongDone(x, terminalCut))
            && !(ShortLived(x, shortCut) && LongDone(x, terminalCut))
  {
  }

  function WithoutOne(s: Store, id: string): Store
    requires id in s.byId
  {
    s.(byId := s.byId - {id}, byToken := s.byToken - {s.byId[id].tokenHash})
  }

  /** Removing one more session. */
  lemma OneLess(s: Store, gone: set<string>, id: string)
    requires gone + {id} <= s.byId.Keys && id !in gone
    ensures id in WithoutSessions(s, gone).byId
    ensures WithoutSessions(s, gone + {id}) == WithoutOne(WithoutSessions(s, gone), id)
  {
    var tokens := set k | k in gone :: s.byId[k].tokenHash;
    var tokens' := set k | k in gone + {id} :: s.byId[k].tokenHash;
    assert tokens' == tokens + {s.byId[id].tokenHash};
    assert s.byId - (gone + {id}) == (s.byId - gone) - {id};
    assert s.byToken - tokens' == (s.byToken - tokens) - {s.byId[id].tokenHash};
  }
}
