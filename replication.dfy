/** The replication retry state (lib/index.js:30, 38, 163-176, 380-421):
    `startingTimeout` grows by 1.1 before every retry of a failed `info()`
    and is reset to 1000 by every `change` event of the live sync; `sync`
    holds the live sync once one has started, and `shutdown` cancels it only
    then. Timer callbacks and store closing are not modelled; each retry
    records the delay it was scheduled with. */
module Replication {

  const BaseTimeout: real := 1000.0
  const Backoff: real := 1.1

  /** `Math.round` on a non-negative number: half-way values round up. */
  function Round(x: real): (n: int)
    requires x >= 0.0
    ensures n as real - 0.5 <= x < n as real + 0.5
  {
    (x + 0.5).Floor
  }

  function Pow(b: real, n: nat): real {
    if n == 0 then 1.0 else b * Pow(b, n - 1)
  }

  /** The timeout after `n` consecutive failures since the last reset. */
  function Timeout(n: nat): (t: real)
    ensures t >= BaseTimeout
  {
    if n == 0 then BaseTimeout else Backoff * Timeout(n - 1)
  }

  lemma TimeoutClosedForm(n: nat)
    ensures Timeout(n) == BaseTimeout * Pow(Backoff, n)
  {
  }

  /** The first retry waits 1100 ms. */
  lemma FirstRetry()
    ensures Round(Timeout(1)) == 1100
  {
  }

  /** Each further consecutive failure waits strictly longer: the timeout
      grows by at least 100 ms each time. */
  lemma {:induction false} RetryDelaysIncrease(n: nat)
    ensures Round(Timeout(n)) < Round(Timeout(n + 1))
  {
    assert Timeout(n + 1) >= Timeout(n) + 100.0;
  }

  /** The handle of a live replication. */
  class SyncHandle {
    var cancelled: bool

    constructor ()
      ensures !cancelled
    {
      cancelled := false;
    }

    method Cancel()
      modifies this
      ensures cancelled
    {
      cancelled := true;
    }
  }

  class Replicator {
    var startingTimeout: real
    var sync: SyncHandle?
    var scheduled: seq<int>  // the delay of every retry, in order
    ghost var failures: nat  // consecutive failed `info()` calls since the last reset

    ghost predicate Valid()
      reads this
    {
      startingTimeout == Timeout(failures)
    }

    /** Start-up, before the first `replicateSkim()` (line 30). */
    constructor ()
      ensures Valid() && failures == 0
      ensures startingTimeout == 1000.0 && sync == null && scheduled == []
    {
      startingTimeout := BaseTimeout;
      sync := null;
      scheduled := [];
      failures := 0;
    }

    /** `replicateSkim()` (lines 382-415). When `info()` answers, a live sync
        starts and becomes `sync`; when it fails, `restartReplication()`
        grows the timeout and schedules the next attempt after its rounding. */
    method ReplicateSkim(infoOk: bool)
      requires Valid()
      modifies this
      ensures Valid()
      ensures infoOk ==> sync != null && fresh(sync) && !sync.cancelled
      ensures infoOk ==> startingTimeout == old(startingTimeout) && scheduled == old(scheduled) && failures == old(failures)
      ensures !infoOk ==> sync == old(sync) && failures == old(failures) + 1
      ensures !infoOk ==> startingTimeout == old(startingTimeout) * Backoff
      ensures !infoOk ==> scheduled == old(scheduled) + [Round(Timeout(failures))]
    {
      if infoOk {
        sync := new SyncHandle();
      } else {
        RestartReplication();
      }
    }

    /** `restartReplication()` (lines 417-421). */
    method RestartReplication()
      requires Valid()
      modifies this`startingTimeout, this`scheduled, this`failures
      ensures Valid() && failures == old(failures) + 1
      ensures startingTimeout == old(startingTimeout) * Backoff
      ensures scheduled == old(scheduled) + [Round(startingTimeout)]
    {
      startingTimeout := startingTimeout * Backoff;
      failures := failures + 1;
      scheduled := scheduled + [Round(startingTimeout)];
    }

    /** A `change` event of the live sync (line 393). */
    method OnChange()
      requires Valid() && sync != null
      modifies this`startingTimeout, this`failures
      ensures Valid() && failures == 0 && startingTimeout == 1000.0
    {
      startingTimeout := BaseTimeout;
      failures := 0;
    }

    /** An `error` event of the live sync (lines 402-406) only logs. */
    method OnError()
      requires Valid() && sync != null
      ensures Valid()
    {
    }

    /** `shutdown()` (lines 163-176): cancels the live sync only when one exists. */
    method Shutdown()
      requires Valid()
      modifies sync
      ensures Valid()
      ensures sync != null ==> sync.cancelled
    {
      if sync != null {
        sync.Cancel();
      }
    }
  }

  /** Three failures in a row from a fresh start wait 1100, 1210 and 1331 ms. */
  method ThreeFailures() returns (delays: seq<int>)
    ensures delays == [1100, 1210, 1331]
  {
    var r := new Replicator();
    r.ReplicateSkim(false);
    r.ReplicateSkim(false);
    r.ReplicateSkim(false);
    delays := r.scheduled;
  }
}
