/** What the two retrying drains share: a clock that never goes back, and the backoff after an attempt. */
module Retries {
  class Clock {
    var time: int

    /** A clock at any time. */
    constructor ()
    {
    }

    /** A reading: never earlier than the last. */
    method Now() returns (now: int)
      modifies this
      ensures old(time) <= time == now
    {
      var later: int :| later >= time;
      time := later;
      now := later;
    }
  }

  /** The attempt's own backoff, or the last one for later attempts; none configured is none. */
  function Backoff(backoffMs: seq<nat>, attempts: nat): nat {
    if backoffMs == [] || attempts == 0 then 0
    else if attempts - 1 < |backoffMs| then backoffMs[attempts - 1] else backoffMs[|backoffMs| - 1]
  }

  /** The first failure waits the first backoff, the second the second, and the last is kept for all that follow. */
  lemma LaterFailuresWaitTheLast(backoffMs: seq<nat>)
    ensures forall i | 0 <= i < |backoffMs| :: Backoff(backoffMs, i + 1) == backoffMs[i]
    ensures backoffMs != [] ==> forall n | n > |backoffMs| :: Backoff(backoffMs, n) == backoffMs[|backoffMs| - 1]
    ensures backoffMs == [] ==> forall n :: Backoff(backoffMs, n) == 0
  {
  }
}
