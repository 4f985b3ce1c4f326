/**
 * The relay's once-a-second timer (OnTimer, SetTimer, CheckAllConnect):
 * which periodic duties a tick performs, and how the idle counter that
 * eventually shuts an unused relay down evolves.
 */
module Housekeeping {

  /** Every 30th tick all connections are checked and kept alive. */
  const CONNECT_PERIOD: nat := 30
  /** Every 60th tick the idle counter is updated and retries are flushed. */
  const IDLE_PERIOD: nat := 60
  /** The relay stops once more than this many idle periods have passed in a row. */
  const IDLE_LIMIT: nat := 3
  /** The timer is not re-armed once the idle counter reaches this value. */
  const RESCHEDULE_LIMIT: nat := 30
  /** CheckWaitMsgVec only flushes on ticks that are multiples of 10. */
  const RETRY_PERIOD: nat := 10

  /** CheckAllConnect restarts connections, sends keep-alives and probes friends on this tick. */
  predicate ChecksConnections(tick: nat) { tick % CONNECT_PERIOD == 0 }

  /** The idle counter after tick `tick` (OnTimer, 964-993). */
  function NextNoSess(tick: nat, noSess: nat, hasSess: bool): nat
  {
    if tick % IDLE_PERIOD != 0 then noSess
    else if hasSess then 0
    else noSess + 1
  }

  /** The tick calls stop(): an idle period ends with no backend session, past the limit. */
  predicate StopsServer(tick: nat, noSess: nat, hasSess: bool)
  {
    tick % IDLE_PERIOD == 0 && !hasSess && NextNoSess(tick, noSess, hasSess) > IDLE_LIMIT
  }

  /** The tick flushes the retry queue (CheckWaitMsgVec, reached only with a session present). */
  predicate FlushesRetries(tick: nat, hasSess: bool)
  {
    tick % IDLE_PERIOD == 0 && hasSess && tick % RETRY_PERIOD == 0
  }

  /** SetTimer re-arms the timer only while the idle counter is below its limit (1006). */
  predicate Reschedules(noSess: nat) { noSess < RESCHEDULE_LIMIT }

  /**
   * The 10-tick test inside CheckWaitMsgVec never filters anything: it is
   * reached only on multiples of 60.
   */
  lemma FlushOnEveryIdlePeriod(tick: nat, hasSess: bool)
    ensures FlushesRetries(tick, hasSess) <==> (tick % IDLE_PERIOD == 0 && hasSess)
  {
    if tick % IDLE_PERIOD == 0 {
      var q := tick / IDLE_PERIOD;
      assert tick == 60 * q;
      assert tick == 10 * (6 * q);
    }
  }

  /** A tick with a backend session present resets the idle count at period ends and never stops. */
  lemma SessionKeepsAlive(tick: nat, noSess: nat)
    ensures !StopsServer(tick, noSess, true)
    ensures tick % IDLE_PERIOD == 0 ==> NextNoSess(tick, noSess, true) == 0
  {
  }

  /** The idle counter after the first k ticks of a relay that never has a session. */
  function IdleNoSess(k: nat): nat
  {
    if k == 0 then 0 else NextNoSess(k, IdleNoSess(k - 1), false)
  }

  /** With no session, the idle counter counts the completed idle periods. */
  lemma {:induction false} IdleNoSessCounts(k: nat)
    ensures IdleNoSess(k) == k / IDLE_PERIOD
  {
    if k > 0 {
      IdleNoSessCounts(k - 1);
      var q := (k - 1) / IDLE_PERIOD;
      var r := (k - 1) % IDLE_PERIOD;
      assert k - 1 == IDLE_PERIOD * q + r;
      if r == IDLE_PERIOD - 1 {
        assert k == IDLE_PERIOD * (q + 1);
      } else {
        assert k == IDLE_PERIOD * q + (r + 1);
      }
    }
  }

  /**
   * A relay that never gets a backend session calls stop() first at tick
   * 240 (the end of its fourth idle period) and at no earlier tick.
   */
  lemma IdleShutdown(k: nat)
    requires k >= 1
    ensures StopsServer(k, IdleNoSess(k - 1), false) <==> (k % IDLE_PERIOD == 0 && k >= 240)
  {
    IdleNoSessCounts(k - 1);
    if k % IDLE_PERIOD == 0 {
      var q := k / IDLE_PERIOD;
      assert k == IDLE_PERIOD * q;
      assert (k - 1) / IDLE_PERIOD == q - 1;
    }
  }
}
