/**
 The countdown state machine of the work/rest timer (src/c/rest-time.c).

 The source keeps its state in three globals (`s_in_rest_mode`,
 `s_countdown_paused`, `s_countdown_seconds`) and three configuration globals
 (`config_work_interval`, `config_rest_interval`, `config_overrunable`). Here
 they are two immutable records, and every handler is a pure function that
 returns the new countdown together with the vibration it triggers.
 */
module Timer {
  import opened CInt

  datatype Phase = Work | Rest

  /** The three user settings. The source does not validate or clamp them. */
  datatype Config = Config(work: int, rest: int, overrun: bool)

  /**
   The live timer. `remaining` is signed: zero or positive counts down inside
   the phase, negative means the phase has overrun.
   */
  datatype Countdown = Countdown(phase: Phase, paused: bool, remaining: int)

  /** The vibration a step asks the host for. */
  datatype Alert = NoAlert | ShortPulse | DoublePulse

  /** A new countdown together with the vibration its step triggered. */
  datatype Step = Step(countdown: Countdown, alert: Alert)

  /** The configured length of phase `p`. */
  function Interval(cfg: Config, p: Phase): int {
    match p
    case Work => cfg.work
    case Rest => cfg.rest
  }

  function Other(p: Phase): (q: Phase)
    ensures q != p
  {
    match p
    case Work => Rest
    case Rest => Work
  }

  /** Entering a rest phase buzzes twice, entering a work phase once. */
  function EntryAlert(p: Phase): Alert {
    match p
    case Work => ShortPulse
    case Rest => DoublePulse
  }

  /**
   The seconds of overrun at which the timer pings: zero and every whole
   negative minute, 0, -60, -120, ... (stated with Dafny's Euclidean `%`).
   */
  predicate MinuteMark(n: int) {
    n <= 0 && n % 60 == 0
  }

  /**
   `start_mode`: enter phase `p` running, with the full interval of that phase
   on the clock.
   */
  function StartMode(cfg: Config, p: Phase): (r: Step)
    ensures r.countdown.phase == p
    ensures !r.countdown.paused
    ensures r.countdown.remaining == Interval(cfg, p)
    ensures r.alert == EntryAlert(p)
  {
    match p
    case Rest => Step(Countdown(Rest, false, cfg.rest), DoublePulse)
    case Work => Step(Countdown(Work, false, cfg.work), ShortPulse)
  }

  /**
   The countdown part of `time_tick_handler`, run once a second. A paused
   timer is left alone. A running one loses a second; without overrun,
   reaching zero switches phase on that same tick; with overrun it keeps
   counting below zero and pings on every minute mark.
   */
  function Tick(cfg: Config, c: Countdown): (r: Step)
    ensures c.paused ==> r == Step(c, NoAlert)
    ensures !c.paused && !cfg.overrun && c.remaining - 1 <= 0 ==>
              r == StartMode(cfg, Other(c.phase))
    ensures !c.paused && !cfg.overrun && c.remaining - 1 > 0 ==>
              r == Step(c.(remaining := c.remaining - 1), NoAlert)
    ensures !c.paused && cfg.overrun ==>
              && r.countdown == c.(remaining := c.remaining - 1)
              && (r.alert == ShortPulse <==> MinuteMark(c.remaining - 1))
              && r.alert != DoublePulse
  {
    if c.paused then
      Step(c, NoAlert)
    else
      var n := c.remaining - 1;
      if n <= 0 && !cfg.overrun then
        StartMode(cfg, Other(c.phase))
      else if n <= 0 && CRem60(n) == 0 then
        Step(c.(remaining := n), ShortPulse)
      else
        Step(c.(remaining := n), NoAlert)
  }

  /** The pause toggle of `select_single_click_handler`. */
  function TogglePause(c: Countdown): (r: Countdown)
    ensures r.paused == !c.paused
    ensures r.phase == c.phase && r.remaining == c.remaining
  {
    c.(paused := !c.paused)
  }

  lemma TogglePauseTwice(c: Countdown)
    ensures TogglePause(TogglePause(c)) == c
  {
  }

  /**
   `k` consecutive ticks: the final countdown and the vibration of each tick,
   in order.
   */
  function Run(cfg: Config, c: Countdown, k: nat): (r: (Countdown, seq<Alert>))
    ensures |r.1| == k
    decreases k
  {
    if k == 0 then
      (c, [])
    else
      var s := Tick(cfg, c);
      var rest := Run(cfg, s.countdown, k - 1);
      (rest.0, [s.alert] + rest.1)
  }

  /** While paused, any number of ticks changes nothing and never buzzes. */
  lemma {:induction false} RunPaused(cfg: Config, c: Countdown, k: nat)
    requires c.paused
    ensures Run(cfg, c, k).0 == c
    ensures forall i :: 0 <= i < k ==> Run(cfg, c, k).1[i] == NoAlert
    decreases k
  {
    if k > 0 {
      RunPaused(cfg, c, k - 1);
    }
  }

  /**
   The vibrations of consecutive overrun ticks starting from `start` seconds:
   tick i (counting from 1) pings exactly when it lands on a minute mark.
   */
  predicate OverrunTrace(start: int, alerts: seq<Alert>) {
    forall i :: 0 <= i < |alerts| ==>
      alerts[i] == (if MinuteMark(start - (i + 1)) then ShortPulse else NoAlert)
  }

  /**
   With overrun on, a running timer loses exactly one second per tick, never
   changes phase or pause state, and tick i (counting from 1) pings exactly
   when it lands on a minute mark.
   */
  lemma {:induction false} RunOverrun(cfg: Config, c: Countdown, k: nat)
    requires cfg.overrun && !c.paused
    ensures Run(cfg, c, k).0 == c.(remaining := c.remaining - k)
    ensures OverrunTrace(c.remaining, Run(cfg, c, k).1)
    decreases k
  {
    if k > 0 {
      var c' := c.(remaining := c.remaining - 1);
      RunOverrun(cfg, c', k - 1);
      var r := Run(cfg, c, k);
      var tail := Run(cfg, c', k - 1).1;
      assert OverrunTrace(c'.remaining, tail);
      forall i | 0 <= i < k
        ensures r.1[i] == (if MinuteMark(c.remaining - (i + 1)) then ShortPulse else NoAlert)
      {
        if i > 0 {
          assert r.1[i] == tail[i - 1];
        }
      }
    }
  }

  /**
   With overrun off, a running timer that still has more than `k` seconds
   left simply counts `k` seconds down in silence.
   */
  lemma {:induction false} RunCountdown(cfg: Config, c: Countdown, k: nat)
    requires !cfg.overrun && !c.paused && k < c.remaining
    ensures Run(cfg, c, k).0 == c.(remaining := c.remaining - k)
    ensures forall i :: 0 <= i < k ==> Run(cfg, c, k).1[i] == NoAlert
    decreases k
  {
    if k > 0 {
      var c' := c.(remaining := c.remaining - 1);
      RunCountdown(cfg, c', k - 1);
      var r := Run(cfg, c, k);
      forall i | 0 <= i < k
        ensures r.1[i] == NoAlert
      {
        if i > 0 {
          assert r.1[i] == Run(cfg, c', k - 1).1[i - 1];
        }
      }
    }
  }

  /**
   With overrun off, a running timer with `n >= 1` seconds left switches to
   the other phase on exactly the n-th tick (the one that reaches zero), and
   that tick alone buzzes, with the new phase's entry pattern.
   */
  lemma {:induction false} RunToSwitch(cfg: Config, c: Countdown)
    requires !cfg.overrun && !c.paused && c.remaining >= 1
    ensures Run(cfg, c, c.remaining).0 == StartMode(cfg, Other(c.phase)).countdown
    ensures Run(cfg, c, c.remaining).1[c.remaining - 1] == EntryAlert(Other(c.phase))
    ensures forall i :: 0 <= i < c.remaining - 1 ==> Run(cfg, c, c.remaining).1[i] == NoAlert
    decreases c.remaining
  {
    var k := c.remaining;
    if k > 1 {
      var c' := c.(remaining := k - 1);
      RunToSwitch(cfg, c');
      var r := Run(cfg, c, k);
      assert r.1 == [NoAlert] + Run(cfg, c', k - 1).1;
      forall i | 0 <= i < k - 1
        ensures r.1[i] == NoAlert
      {
        if i > 0 {
          assert r.1[i] == Run(cfg, c', k - 1).1[i - 1];
        }
      }
    }
  }

  /**
   With the default settings (30 minutes work, 5 minutes rest, no overrun), a
   freshly started work phase becomes a running 5-minute rest phase after
   1800 ticks.
   */
  lemma DefaultWorkPhaseScenario()
    ensures Run(Config(1800, 300, false), Countdown(Work, false, 1800), 1800).0 == Countdown(Rest, false, 300)
  {
    RunToSwitch(Config(1800, 300, false), Countdown(Work, false, 1800));
  }

  /**
   With overrun on, a running timer one second from zero pings on the tick
   that reaches 0 and again sixty ticks later at -60, and on none in between;
   its phase never changes.
   */
  lemma OverrunScenario(cfg: Config, p: Phase)
    requires cfg.overrun
    ensures Run(cfg, Countdown(p, false, 1), 61).0 == Countdown(p, false, -60)
    ensures Run(cfg, Countdown(p, false, 1), 61).1[0] == ShortPulse
    ensures Run(cfg, Countdown(p, false, 1), 61).1[60] == ShortPulse
    ensures forall i :: 1 <= i < 60 ==> Run(cfg, Countdown(p, false, 1), 61).1[i] == NoAlert
  {
    var c := Countdown(p, false, 1);
    RunOverrun(cfg, c, 61);
    var alerts := Run(cfg, c, 61).1;
    assert MinuteMark(0) && MinuteMark(-60);
    forall i | 1 <= i < 60
      ensures alerts[i] == NoAlert
    {
      assert !MinuteMark(c.remaining - (i + 1));
    }
  }

  /**
   The source does not keep a negative countdown confined to running timers
   with overrun on: pausing during overrun leaves the negative value paused.
   */
  lemma PausedOverrunReachable(cfg: Config, p: Phase)
    requires cfg.overrun
    ensures var c := TogglePause(Tick(cfg, Countdown(p, false, 0)).countdown);
            c.paused && c.remaining == -1
  {
  }
}
