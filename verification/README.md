# Rest-time interval timer: a Dafny model

A model of the core of a work/rest interval timer for a Pebble watch
(`src/c/rest-time.c`). The user alternates between a work countdown and a
rest countdown. Each phase has a configurable length. With "overrun" on, the
countdown runs on below zero and pings every minute. With overrun off, reaching
zero switches phase on the same tick. The timer is saved when the application
closes and restored when it starts again, with the time that passed in
between charged to the countdown. When a running timer is closed, the
application asks the host to wake it 15 seconds before the next vibration.
When that vibration is 18 seconds away or less, the wake is instead 15
seconds before the instant one minute after it; with overrun off that is 45
seconds or more after the phase switch.

The model is functional. The source's global state is two immutable records:
`Timer.Config` holds the work interval, the rest interval and the overrun
flag, and `Timer.Countdown` holds the phase, the paused flag and the signed
seconds remaining. Every handler is a pure function. It returns the new
state, plus the vibration it asks for (`NoAlert`, `ShortPulse`, or
`DoublePulse`) or the wake instant it requests. The watch's key-value store
is a `map<int, Value>`, and `persist_exists` is key membership. Wall-clock
time is passed in as a parameter (`now`).

Modules, one per component:

- `CInt`: the C semantics the code relies on. This covers the 32-bit `int`
  range and `%`, which truncates toward zero (`CRem60`).
- `Timer`: the state machine. This covers `start_mode`, the countdown part of
  `time_tick_handler`, the pause toggle, and runs of many ticks.
- `Persistence`: `persist_config`, `persist_status` and `init_settings`.
- `Wake`: the shutdown path of `deinit`, including the next vibration and
  the wake instant.
- `Menu`: the settings menu. This covers the interval cycles, the overrun
  toggle, the `config_changed` flag and the reset when the menu closes.
- `Display`: `format_time` and the status line of `update_progressbar`.
- `Options`: an `Option` datatype.

Behaviour worth knowing:

- A stored countdown counts as an absolute instant only when it is strictly
  greater than 10000000 (line 78).
- A negative countdown is not confined to a running timer with overrun on.
  Pausing during overrun
  (line 349) leaves a paused negative countdown (`Timer.PausedOverrunReachable`).
  Turning overrun off in the menu without editing an interval leaves a
  negative countdown running.
- Settings are saved only when the menu closes (line 327). Shutdown saves
  only the timer state (line 424).
- `wakeup_cancel_all` runs at start-up (line 388), not just before a wake is
  scheduled.

## Model

| member | source | states |
|---|---|---|
| Timer.StartMode | src/c/rest-time.c:235-246 | entering a phase sets it, starts it running with that phase's full interval, and buzzes twice for rest and once for work |
| Timer.Tick | src/c/rest-time.c:253-265 | a paused timer is left unchanged and silent. With overrun off, the tick that reaches zero or below switches phase (with the entry alert). Any other tick subtracts one second silently. With overrun on, the tick subtracts exactly one second, keeps phase and pause state, and pings iff the new value is 0, -60, -120, ... |
| Timer.TogglePause | src/c/rest-time.c:349 | the toggle flips the paused flag and leaves phase and remaining seconds alone |
| Timer.TogglePauseTwice | src/c/rest-time.c:349 | toggling pause twice gives back the original timer |
| Timer.RunPaused | src/c/rest-time.c:253-255 | any number of ticks on a paused timer change nothing and never buzz |
| Timer.RunOverrun | src/c/rest-time.c:257-265 | with overrun on, k ticks take exactly k seconds off a running timer and keep its phase. Tick i pings exactly when it lands on a minute mark at or below zero |
| Timer.RunCountdown | src/c/rest-time.c:257-262 | with overrun off, fewer ticks than the seconds left count down silently |
| Timer.RunToSwitch | src/c/rest-time.c:257-262 | with overrun off and n >= 1 seconds left, the n-th tick (the one reaching exactly 0) switches to the other phase at its full interval, running. That tick alone buzzes, with the new phase's pattern |
| Timer.DefaultWorkPhaseScenario | src/c/rest-time.c:10-11 | with 1800/300 and overrun off, a started work phase is a running 300-second rest phase after 1800 ticks |
| Timer.OverrunScenario | src/c/rest-time.c:261-265 | with overrun on, pings at 0 and at -60 and none in between, with the phase unchanged |
| Timer.PausedOverrunReachable | src/c/rest-time.c:349 | pausing during overrun leaves a paused timer with a negative countdown |
| CInt.CRem60 | src/c/rest-time.c:263 | C's `% 60` has the sign of the dividend, a magnitude below 60 and differs from the dividend by a multiple of 60 |
| CInt.CRem60ZeroIff | src/c/rest-time.c:263 | the zero test on C's remainder agrees with the one on the Euclidean remainder |
| Persistence.PersistConfig | src/c/rest-time.c:268-272 | saving the settings writes the three settings keys verbatim and leaves every other key alone |
| Persistence.PersistStatus | src/c/rest-time.c:274-280 | saving the timer stores remaining seconds when paused and `now + remaining` when running, plus both flags. It leaves every other key alone |
| Persistence.InitSettings | src/c/rest-time.c:47-81 | each field is read if present and defaulted otherwise, without clamping. A countdown above 10000000 becomes that instant minus now |
| Persistence.FirstRun | src/c/rest-time.c:47-77 | an empty store gives settings 1800/300/on and a paused work phase at 1800 |
| Persistence.ConfigOnlyStore | src/c/rest-time.c:63-77 | with only settings stored, the timer starts as a paused work phase at the stored work interval |
| Persistence.PausedRoundTrip | src/c/rest-time.c:73-80 | a paused timer at or below the threshold reloads identically, with its settings, at any later time |
| Persistence.RunningRoundTrip | src/c/rest-time.c:78-80 | a running timer reloaded Δ seconds after saving has Δ fewer seconds, possibly negative, with flags and settings verbatim |
| Persistence.PausedSnapshotAboveThreshold | src/c/rest-time.c:78-80 | a paused snapshot above the threshold is misread as an instant on reload |
| Wake.NextVibra | src/c/rest-time.c:426-427 | the offset is the seconds left while positive. In overrun it lies in 1..60 and is the least k > 0 that lands on a minute mark |
| Wake.Deinit | src/c/rest-time.c:423-430 | shutdown saves the timer state. It schedules a wake iff the timer runs, never less than 4 s ahead. The wake is exactly now + offset - 15 when the offset exceeds 18, and now + offset + 45 (so at least 46 s ahead) otherwise |
| Wake.DeinitExamples | src/c/rest-time.c:428 | 5 s left wakes at now+50, 30 s left at now+15 |
| Wake.NextVibraIsNextAlert | src/c/rest-time.c:426-427 | the wake offset is exactly the tick on which the tick handler next buzzes, with silence before it |
| Display.FormatTime | src/c/rest-time.c:83-89 | the text fits the 5 characters the buffer leaves |
| Display.FormatTimeSymmetric | src/c/rest-time.c:84 | a time and its negation format the same |
| Display.FormatTimeBelow100Minutes | src/c/rest-time.c:85-87 | below 100 minutes the text is minutes, colon, two-digit seconds of the absolute value, and reads back as that value |
| Display.FormatTimeCutAt100Minutes | src/c/rest-time.c:87 | 6000 seconds format as `100:0`, which no longer reads as a time |
| Display.FormatTimeWide | src/c/rest-time.c:83-89 | with room for every minute count, the text always reads back as the absolute value |
| Display.StatusOf | src/c/rest-time.c:209-226 | the status is Ready iff paused at the phase's full interval, and Paused iff paused anywhere else. It is Overrun iff running below zero, and blank iff running at or above zero |
| Display.StatusAfterStart | src/c/rest-time.c:222-224 | a phase just entered shows a blank status |
| Display.StatusAfterOverrunTick | src/c/rest-time.c:218-219 | with overrun on, the tick taking a running timer below zero shows "Overrun" |
| Menu.MenuLoad | src/c/rest-time.c:310 | opening the menu clears the change flag |
| Menu.EditWorkInterval | src/c/rest-time.c:91-107 | a work press adds 300 s, or wraps 3600 to 300. It marks a change and leaves the other settings alone |
| Menu.EditRestInterval | src/c/rest-time.c:109-125 | a rest press adds 60 s, or wraps 600 to 60. It marks a change and leaves the other settings alone |
| Menu.EditOverrun | src/c/rest-time.c:127-133 | the overrun press flips the flag only and does not mark a change |
| Menu.MenuUnload | src/c/rest-time.c:326-335 | closing the menu saves the settings. After a change it resets the timer to a paused work phase at the work interval, and otherwise keeps it |
| Menu.ChangedIffIntervalEdit | src/c/rest-time.c:105-128 | a menu visit marks a change iff it includes a press on an interval item |
| Menu.OverrunToggleKeepsTimer | src/c/rest-time.c:127-133 | a visit with only overrun presses leaves the timer unchanged |
| Menu.IntervalEditResets | src/c/rest-time.c:329-333 | a visit with an interval press resets the timer to a paused work phase at the new work interval |
| Menu.ResetIsReady | src/c/rest-time.c:212-213 | the reset timer shows "Ready" |
| Menu.CycleReturns | src/c/rest-time.c:94-98 | on a cycle of n increments, n presses return any value on the cycle to itself |
| Menu.WorkPresses | src/c/rest-time.c:91-98 | k work presses step only the work interval, k times |
| Menu.RestPresses | src/c/rest-time.c:109-116 | k rest presses step only the rest interval, k times |
| Menu.WorkCycle | src/c/rest-time.c:94-98 | work intervals 300..3600 in steps of 300 stay on that cycle, and 12 presses restore the settings |
| Menu.RestCycle | src/c/rest-time.c:112-116 | rest intervals 60..600 in steps of 60 stay on that cycle, and 10 presses restore the settings |

## Findings

| source | as written | input that shows it | evidently intended | confidence | as-written member | corrected member |
|---|---|---|---|---|---|---|
| src/c/rest-time.c:87 | `snprintf` into the 6-byte buffer cuts `m:ss` at 5 characters | 6000 s (100 minutes of overrun) shows `100:0` | the full `100:00`, readable as the time | medium, not executed | Display.FormatTimeCutAt100Minutes | Display.FormatTimeWide |

`Display.FormatTime` models the code as written. `Display.FormatTimeWide`
is the corrected formatting: its text always reads back as the absolute
time. Only the countdown display can reach 100 minutes, through long
overrun. The menu's intervals stay at or below 60 minutes.

## Left out

- Windows, text layers, fonts, colours (`set_colors`), and menu construction
  (`build_menu`, the menu subtitle strings) are presentation only.
  `Display.StatusText` gives the status words.
- `update_clock_time` and the always-true `units_changed | MINUTE_UNIT` test
  only redraw the wall clock.
- Click wiring, the tick subscription, `app_event_loop` and `main` are left
  out. The up and down buttons are `Timer.StartMode(cfg, Rest)` and
  `Timer.StartMode(cfg, Work)`. The select button is `Timer.TogglePause`.
- `vibes_*` calls are returned as `Alert` values. `wakeup_schedule` is the
  returned `Option<int>`. `wakeup_cancel_all` has no state to model. A
  rejected wake request is not modelled, because the host decides it.
- Reading an integer from a key that holds a boolean (or the reverse) is
  coerced as 0/1 and non-zero. The platform's behaviour for mismatched reads
  is not part of this model. The application never writes a key with two
  types.
- Persistence.PersistStatus: the running case requires `now + remaining` to
  fit in 32 bits, instead of modelling the wrap-around of the C addition.
- Wake.Deinit: inherits the same 32-bit precondition.
- Display.FormatTime: requires its argument to be above `INT_MIN`, because
  `abs(INT_MIN)` overflows in C.
- A tick decrementing the countdown past `INT_MIN` (68 years of overrun) is
  not modelled. The countdown is an unbounded integer.
- Wake.NextVibraIsNextAlert: stated only when overrun is on or time is left.
  With overrun off and a zero or negative countdown, the next tick switches
  phase at once, while the wake offset still points at the next minute mark.
