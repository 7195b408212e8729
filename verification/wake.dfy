/**
 Shutting down (`deinit` in src/c/rest-time.c): the timer state is saved, and
 a running timer asks the host to relaunch the application shortly before its
 next vibration is due, so that it can buzz while closed.
 */
module Wake {
  import opened CInt
  import opened Options
  import opened Timer
  import opened Persistence

  /** How many seconds before the due vibration the relaunch is requested. */
  const LeadIn: int := 15

  /** True iff `k` seconds from `remaining` the countdown is on a minute mark. */
  predicate MarkAfter(remaining: int, k: int) {
    MinuteMark(remaining - k)
  }

  /**
   `next_vibra`: seconds until the next vibration. Inside the phase it is the
   time left; in overrun it is the time to the next minute mark, computed
   with C's truncating remainder, which keeps it in 1..60.
   */
  function NextVibra(remaining: int): (v: int)
    ensures remaining > 0 ==> v == remaining
    ensures remaining <= 0 ==> 1 <= v <= 60
    ensures remaining <= 0 ==> MarkAfter(remaining, v)
    ensures remaining <= 0 ==> forall k :: 0 < k < v ==> !MarkAfter(remaining, k)
  {
    if remaining > 0 then remaining else 60 + CRem60(remaining)
  }

  /**
   The relaunch instant for a vibration `next` seconds from `now`: fifteen
   seconds early, unless that would leave three seconds or less, in which case
   a minute later.
   */
  function WakeInstant(now: int, next: int): int {
    now - LeadIn + (if next > 18 then next else next + 60)
  }

  /**
   `deinit` at wall-clock time `now`: the store after `persist_status`, and
   the relaunch instant handed to `wakeup_schedule`, if any. Only a running
   timer schedules, and never for an instant less than four seconds ahead: 15
   seconds before the next vibration when that is more than 18 seconds away,
   otherwise 15 seconds before the instant one minute after it.
   */
  function Deinit(store: Store, c: Countdown, now: int): (r: (Store, Option<int>))
    requires !c.paused ==> Int32(now + c.remaining)
    ensures r.0 == PersistStatus(store, c, now)
    ensures r.1.Some? <==> !c.paused
    ensures r.1.Some? ==> r.1.value >= now + 4
    ensures r.1.Some? && NextVibra(c.remaining) <= 18 ==> r.1.value >= now + 46
    ensures r.1.Some? && NextVibra(c.remaining) <= 18 ==> r.1.value == now + NextVibra(c.remaining) + 60 - LeadIn
    ensures r.1.Some? && NextVibra(c.remaining) > 18 ==> r.1.value == now + NextVibra(c.remaining) - LeadIn
  {
    var saved := PersistStatus(store, c, now);
    if c.paused then
      (saved, None)
    else
      (saved, Some(WakeInstant(now, NextVibra(c.remaining))))
  }

  /** Two examples: 5 s left wakes at now + 50, 30 s left at now + 15. */
  lemma DeinitExamples(store: Store, p: Phase, now: int)
    requires Int32(now + 30) && Int32(now + 5)
    ensures Deinit(store, Countdown(p, false, 5), now).1 == Some(now + 50)
    ensures Deinit(store, Countdown(p, false, 30), now).1 == Some(now + 15)
  {
  }

  /**
   With overrun on and time left, the first ping is on the tick that reaches
   zero, `NextVibra` ticks away, and none of the ticks before it pings.
   */
  lemma FirstPingAtZero(cfg: Config, c: Countdown)
    requires cfg.overrun && !c.paused && c.remaining > 0
    ensures var k := c.remaining;
            && Run(cfg, c, k).1[k - 1] == ShortPulse
            && forall i :: 0 <= i < k - 1 ==> Run(cfg, c, k).1[i] == NoAlert
  {
    var k := c.remaining;
    RunOverrun(cfg, c, k);
    assert MinuteMark(c.remaining - k);
  }

  /**
   A trace of `NextVibra(remaining)` overrun ticks that ping exactly on
   minute marks pings on its last tick and on no other.
   */
  lemma PingsUpToNextVibra(remaining: int, alerts: seq<Alert>)
    requires remaining <= 0 && |alerts| == NextVibra(remaining)
    requires OverrunTrace(remaining, alerts)
    ensures alerts[|alerts| - 1] == ShortPulse
    ensures forall i :: 0 <= i < |alerts| - 1 ==> alerts[i] == NoAlert
  {
    var k := |alerts|;
    assert MarkAfter(remaining, k);
    forall i | 0 <= i < k - 1
      ensures alerts[i] == NoAlert
    {
      assert !MarkAfter(remaining, i + 1);
      assert alerts[i] == (if MinuteMark(remaining - (i + 1)) then ShortPulse else NoAlert);
    }
  }

  /**
   In overrun the next ping is on exactly the `NextVibra`-th tick, and none of
   the ticks before it pings.
   */
  lemma NextPingInOverrun(cfg: Config, c: Countdown)
    requires cfg.overrun && !c.paused && c.remaining <= 0
    ensures var k := NextVibra(c.remaining);
            && Run(cfg, c, k).1[k - 1] == ShortPulse
            && forall i :: 0 <= i < k - 1 ==> Run(cfg, c, k).1[i] == NoAlert
  {
    var k := NextVibra(c.remaining);
    RunOverrun(cfg, c, k);
    PingsUpToNextVibra(c.remaining, Run(cfg, c, k).1);
  }

  /**
   `next_vibra` agrees with the tick handler: for a running timer that will
   buzz (overrun on, or time still left), the next vibration is on exactly the
   `NextVibra`-th tick and none of the ticks before it buzzes.
   */
  lemma NextVibraIsNextAlert(cfg: Config, c: Countdown)
    requires !c.paused && (cfg.overrun || c.remaining > 0)
    ensures var k := NextVibra(c.remaining);
            && k >= 1
            && Run(cfg, c, k).1[k - 1] != NoAlert
            && forall i :: 0 <= i < k - 1 ==> Run(cfg, c, k).1[i] == NoAlert
  {
    if cfg.overrun && c.remaining > 0 {
      FirstPingAtZero(cfg, c);
    } else if cfg.overrun {
      NextPingInOverrun(cfg, c);
    } else {
      RunToSwitch(cfg, c);
    }
  }
}
