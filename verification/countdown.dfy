/** The per-camera countdown slot and what one firing of its one-second interval does to it. */
module Countdown {

  /** `immobileTimers[idx]`: null, or a running timer holding `remaining` and the `immobile`
      flag its interval callback captured when it was created. */
  datatype Slot = Idle | Armed(remaining: real, immobile: bool)

  /** What a firing of the interval callback did. */
  datatype TickEvent = MovementCancelled | Counted | AlertFired

  datatype TickResult = TickResult(slot: Slot, event: TickEvent)

  /** `startCountdown`: an armed slot is kept as it is, captured flag included; an idle slot is
      armed with the configured countdown and the current immobility. */
  function Start(s: Slot, countdownSec: real, immobile: bool): Slot {
    if s.Armed? then s else Armed(countdownSec, immobile)
  }

  /** The interval callback: a countdown armed while moving is cancelled; otherwise `remaining`
      drops by one and, at zero or below, the slot is cleared and the alert fires. */
  function Tick(s: Slot): (r: TickResult)
    requires s.Armed?
    ensures !s.immobile ==> r == TickResult(Idle, MovementCancelled)
    ensures s.immobile && s.remaining > 1.0 ==> r == TickResult(Armed(s.remaining - 1.0, true), Counted)
    ensures s.immobile && s.remaining <= 1.0 ==> r == TickResult(Idle, AlertFired)
  {
    if !s.immobile then TickResult(Idle, MovementCancelled)
    else
      var remaining := s.remaining - 1.0;
      if remaining <= 0.0 then TickResult(Idle, AlertFired)
      else TickResult(Armed(remaining, s.immobile), Counted)
  }

  datatype RunResult = RunResult(slot: Slot, alerts: nat)

  /** k seconds of the interval with nothing else happening to the slot; once the slot is idle
      its interval is cleared and nothing fires any more. */
  function Run(s: Slot, k: nat): (r: RunResult)
    ensures r.alerts <= 1
    ensures r.alerts == 1 ==> r.slot == Idle
    decreases k
  {
    if k == 0 || s.Idle? then RunResult(s, 0)
    else
      var t := Tick(s);
      var rest := Run(t.slot, k - 1);
      RunResult(rest.slot, rest.alerts + (if t.event == AlertFired then 1 else 0))
  }

  /** The firing on which an immobile countdown armed with n seconds raises its alert: the first
      k >= 1 with n - k <= 0, so the ceiling of n, or one when n is at most one. */
  function AlertTick(n: real): (k: nat)
    ensures k >= 1 && n - k as real <= 0.0
    ensures k >= 2 ==> n - (k - 1) as real > 0.0
    decreases if n <= 1.0 then 0 else n.Floor
  {
    if n <= 1.0 then 1
    else
      assert (n - 1.0).Floor == n.Floor - 1;
      1 + AlertTick(n - 1.0)
  }

  /** An immobile countdown armed with n counts down one per firing and raises the alert exactly
      once, on firing AlertTick(n) (the third for 3 seconds, also the third for 2.5); later
      firings never happen. */
  lemma {:induction false} ImmobileCountdownAlertsOnce(n: real, k: nat)
    ensures k < AlertTick(n) ==> Run(Armed(n, true), k) == RunResult(Armed(n - k as real, true), 0)
    ensures k >= AlertTick(n) ==> Run(Armed(n, true), k) == RunResult(Idle, 1)
    decreases k
  {
    if k > 0 {
      if n <= 1.0 {
        assert Tick(Armed(n, true)) == TickResult(Idle, AlertFired);
        assert Run(Idle, k - 1) == RunResult(Idle, 0);
      } else {
        assert Tick(Armed(n, true)) == TickResult(Armed(n - 1.0, true), Counted);
        ImmobileCountdownAlertsOnce(n - 1.0, k - 1);
      }
    }
  }

  /** A countdown length of 2.5 seconds shows 0.5 after two firings and alerts on the third. */
  lemma FractionalCountdownRoundsUp()
    ensures Run(Armed(2.5, true), 2) == RunResult(Armed(0.5, true), 0)
    ensures Run(Armed(2.5, true), 3) == RunResult(Idle, 1)
  {
    assert AlertTick(2.5) == 3 by {
      assert AlertTick(0.5) == 1;
      assert AlertTick(1.5) == 2;
    }
    ImmobileCountdownAlertsOnce(2.5, 2);
    ImmobileCountdownAlertsOnce(2.5, 3);
  }

  /** A countdown armed while moving is cancelled by its first firing and never alerts. */
  lemma MovingCountdownNeverAlerts(n: real, k: nat)
    requires k >= 1
    ensures Run(Armed(n, false), k) == RunResult(Idle, 0)
  {
    assert Tick(Armed(n, false)) == TickResult(Idle, MovementCancelled);
  }

  /** Re-arming an armed slot changes nothing, whatever the current immobility is; so the flag the
      interval callback tests is always the one captured when the slot was armed. */
  lemma StartKeepsArmedSlot(s: Slot, countdownSec: real, immobile: bool)
    requires s.Armed?
    ensures Start(s, countdownSec, immobile).remaining == s.remaining
    ensures Start(s, countdownSec, immobile).immobile == s.immobile
  {
  }

  /** After a clear the next start uses the full configured countdown, never a stale count. */
  lemma RestartUsesFullCountdown(countdownSec: real, immobile: bool)
    ensures Start(Idle, countdownSec, immobile) == Armed(countdownSec, immobile)
  {
  }

  /** While armed, `remaining` never grows: each firing lowers it by exactly one or clears the
      slot. */
  lemma {:induction false} RemainingNeverGrows(s: Slot, k: nat)
    requires s.Armed?
    ensures Run(s, k).slot.Armed? ==> Run(s, k).slot == Armed(s.remaining - k as real, s.immobile)
    decreases k
  {
    if k > 0 {
      var t := Tick(s);
      if t.slot.Armed? {
        RemainingNeverGrows(t.slot, k - 1);
      } else {
        assert Run(t.slot, k - 1).slot == Idle;
      }
    }
  }
}
