/**
 The settings menu (src/c/rest-time.c): each press on an interval item
 advances that interval by a fixed increment, wrapping from the maximum back
 to one increment; a press on "Overrun" toggles it. Closing the menu saves
 the settings and, if an interval was edited, resets the timer to a fresh,
 paused work phase.
 */
module Menu {
  import opened Timer
  import opened Persistence
  import opened Display

  const MaxWork: int := 3600
  const WorkIncrement: int := 300
  const MaxRest: int := 600
  const RestIncrement: int := 60

  /** The settings being edited and the `config_changed` flag. */
  datatype MenuSession = MenuSession(config: Config, changed: bool)

  /** A press on one of the three menu items. */
  datatype MenuAction = EditWork | EditRest | ToggleOverrun

  /** One press on an interval item: step up, or wrap from the maximum. */
  function CycleStep(v: int, increment: int, max: int): int {
    if v == max then increment else v + increment
  }

  /** `k` presses on the same interval item. */
  function CycleSteps(v: int, increment: int, max: int, k: nat): int
    decreases k
  {
    if k == 0 then v else CycleStep(CycleSteps(v, increment, max, k - 1), increment, max)
  }

  /** `menu_window_load`: opening the menu clears the change flag. */
  function MenuLoad(cfg: Config): (m: MenuSession)
    ensures m.config == cfg && !m.changed
  {
    MenuSession(cfg, false)
  }

  /** `menu_update_work_interval`. */
  function EditWorkInterval(m: MenuSession): (r: MenuSession)
    ensures r.changed
    ensures r.config.rest == m.config.rest && r.config.overrun == m.config.overrun
    ensures m.config.work == MaxWork ==> r.config.work == WorkIncrement
    ensures m.config.work != MaxWork ==> r.config.work == m.config.work + WorkIncrement
  {
    MenuSession(m.config.(work := CycleStep(m.config.work, WorkIncrement, MaxWork)), true)
  }

  /** `menu_update_rest_interval`. */
  function EditRestInterval(m: MenuSession): (r: MenuSession)
    ensures r.changed
    ensures r.config.work == m.config.work && r.config.overrun == m.config.overrun
    ensures m.config.rest == MaxRest ==> r.config.rest == RestIncrement
    ensures m.config.rest != MaxRest ==> r.config.rest == m.config.rest + RestIncrement
  {
    MenuSession(m.config.(rest := CycleStep(m.config.rest, RestIncrement, MaxRest)), true)
  }

  /** `menu_update_overrun`: flips the flag and, unlike the interval edits, does not mark a change. */
  function EditOverrun(m: MenuSession): (r: MenuSession)
    ensures r.changed == m.changed
    ensures r.config == m.config.(overrun := !m.config.overrun)
  {
    MenuSession(m.config.(overrun := !m.config.overrun), m.changed)
  }

  function Apply(m: MenuSession, a: MenuAction): MenuSession {
    match a
    case EditWork => EditWorkInterval(m)
    case EditRest => EditRestInterval(m)
    case ToggleOverrun => EditOverrun(m)
  }

  function ApplyAll(m: MenuSession, actions: seq<MenuAction>): MenuSession
    decreases |actions|
  {
    if |actions| == 0 then m else ApplyAll(Apply(m, actions[0]), actions[1..])
  }

  /**
   `menu_window_unload`: saves the settings; after an interval edit the timer
   becomes a paused, full-length work phase, otherwise it is left as it was.
   */
  function MenuUnload(m: MenuSession, store: Store, c: Countdown): (r: (Store, Countdown))
    ensures r.0 == PersistConfig(store, m.config)
    ensures m.changed ==> r.1 == Countdown(Work, true, m.config.work)
    ensures !m.changed ==> r.1 == c
  {
    var saved := PersistConfig(store, m.config);
    if m.changed then (saved, Countdown(Work, true, m.config.work)) else (saved, c)
  }

  /**
   A menu visit resets the timer exactly when it contains a press on an
   interval item; toggling overrun alone never does.
   */
  lemma {:induction false} ChangedIffIntervalEdit(m: MenuSession, actions: seq<MenuAction>)
    ensures ApplyAll(m, actions).changed <==>
              (m.changed || exists i :: 0 <= i < |actions| && actions[i] != ToggleOverrun)
    decreases |actions|
  {
    if |actions| > 0 {
      ChangedIffIntervalEdit(Apply(m, actions[0]), actions[1..]);
      if exists i :: 0 <= i < |actions| && actions[i] != ToggleOverrun {
        var i :| 0 <= i < |actions| && actions[i] != ToggleOverrun;
        if i > 0 {
          assert actions[1..][i - 1] != ToggleOverrun;
        }
      } else {
        assert forall i :: 0 <= i < |actions| - 1 ==> actions[1..][i] == actions[i + 1];
      }
    }
  }

  /** The timer survives a menu visit in which only "Overrun" was pressed. */
  lemma OverrunToggleKeepsTimer(cfg: Config, store: Store, c: Countdown, k: nat)
    ensures MenuUnload(ApplyAll(MenuLoad(cfg), seq(k, _ => ToggleOverrun)), store, c).1 == c
  {
    ChangedIffIntervalEdit(MenuLoad(cfg), seq(k, _ => ToggleOverrun));
  }

  /**
   A menu visit with at least one interval press ends with the timer reset to
   a paused work phase at the (edited) work interval, whatever it was before.
   */
  lemma IntervalEditResets(cfg: Config, actions: seq<MenuAction>, store: Store, c: Countdown)
    requires exists i :: 0 <= i < |actions| && actions[i] != ToggleOverrun
    ensures var m := ApplyAll(MenuLoad(cfg), actions);
            MenuUnload(m, store, c).1 == Countdown(Work, true, m.config.work)
  {
    ChangedIffIntervalEdit(MenuLoad(cfg), actions);
  }

  /** After an interval edit, closing the menu leaves the timer "Ready". */
  lemma ResetIsReady(m: MenuSession, store: Store, c: Countdown)
    requires m.changed
    ensures StatusOf(m.config, MenuUnload(m, store, c).1) == Ready
  {
  }

  /** `increment * j` for `1 <= j <= slots` is a value on the cycle of `slots` steps. */
  lemma {:induction false} CycleStepsClimb(increment: int, slots: nat, j: nat, k: nat)
    requires increment > 0 && 1 <= j && j + k <= slots
    ensures CycleSteps(increment * j, increment, increment * slots, k) == increment * (j + k)
    decreases k
  {
    if k > 0 {
      CycleStepsClimb(increment, slots, j, k - 1);
      MulStrictlyIncreasing(increment, j + k - 1, slots);
      MulSucc(increment, j + k - 1);
    }
  }

  lemma MulSucc(x: int, n: int)
    ensures x * n + x == x * (n + 1)
  {
  }

  lemma MulStrictlyIncreasing(x: int, a: int, b: int)
    requires x > 0 && a < b
    ensures x * a < x * b
  {
    assert x * b - x * a == x * (b - a);
  }

  lemma {:induction false} CycleStepsCompose(v: int, increment: int, max: int, a: nat, b: nat)
    ensures CycleSteps(v, increment, max, a + b) == CycleSteps(CycleSteps(v, increment, max, a), increment, max, b)
    decreases b
  {
    if b > 0 {
      CycleStepsCompose(v, increment, max, a, b - 1);
    }
  }

  /** After `slots` presses, an interval on the cycle is back where it started. */
  lemma CycleReturns(increment: int, slots: nat, j: nat)
    requires increment > 0 && 1 <= j <= slots
    ensures CycleSteps(increment * j, increment, increment * slots, slots) == increment * j
  {
    var max := increment * slots;
    CycleStepsClimb(increment, slots, j, slots - j);
    CycleStepsCompose(increment * j, increment, max, slots - j, 1);
    assert CycleSteps(increment * j, increment, max, slots - j + 1) == increment * 1;
    CycleStepsClimb(increment, slots, 1, j - 1);
    CycleStepsCompose(increment * j, increment, max, slots - j + 1, j - 1);
  }

  /** The work intervals the menu cycles through: 5, 10, ..., 60 minutes. */
  predicate OnWorkCycle(w: int) {
    WorkIncrement <= w <= MaxWork && w % WorkIncrement == 0
  }

  /** The rest intervals the menu cycles through: 1, 2, ..., 10 minutes. */
  predicate OnRestCycle(r: int) {
    RestIncrement <= r <= MaxRest && r % RestIncrement == 0
  }

  /** `k` presses on "Work Interval" step the work interval `k` times and touch nothing else. */
  lemma {:induction false} WorkPresses(m: MenuSession, k: nat)
    ensures ApplyAll(m, seq(k, _ => EditWork)).config
            == m.config.(work := CycleSteps(m.config.work, WorkIncrement, MaxWork, k))
    decreases k
  {
    if k > 0 {
      var m' := EditWorkInterval(m);
      assert seq(k, _ => EditWork)[1..] == seq(k - 1, _ => EditWork);
      WorkPresses(m', k - 1);
      CycleStepsCompose(m.config.work, WorkIncrement, MaxWork, 1, k - 1);
    }
  }

  /** `k` presses on "Rest Interval" step the rest interval `k` times and touch nothing else. */
  lemma {:induction false} RestPresses(m: MenuSession, k: nat)
    ensures ApplyAll(m, seq(k, _ => EditRest)).config
            == m.config.(rest := CycleSteps(m.config.rest, RestIncrement, MaxRest, k))
    decreases k
  {
    if k > 0 {
      var m' := EditRestInterval(m);
      assert seq(k, _ => EditRest)[1..] == seq(k - 1, _ => EditRest);
      RestPresses(m', k - 1);
      CycleStepsCompose(m.config.rest, RestIncrement, MaxRest, 1, k - 1);
    }
  }

  /**
   A work interval on the 5..60-minute cycle stays on it, and twelve presses
   bring the settings back to where they were.
   */
  lemma WorkCycle(m: MenuSession)
    requires OnWorkCycle(m.config.work)
    ensures OnWorkCycle(EditWorkInterval(m).config.work)
    ensures ApplyAll(m, seq(12, _ => EditWork)).config == m.config
  {
    var j := m.config.work / WorkIncrement;
    assert WorkIncrement * j == m.config.work;
    CycleReturns(WorkIncrement, 12, j);
    assert CycleSteps(m.config.work, WorkIncrement, MaxWork, 12) == m.config.work;
    WorkPresses(m, 12);
  }

  /**
   A rest interval on the 1..10-minute cycle stays on it, and ten presses
   bring the settings back to where they were.
   */
  lemma RestCycle(m: MenuSession)
    requires OnRestCycle(m.config.rest)
    ensures OnRestCycle(EditRestInterval(m).config.rest)
    ensures ApplyAll(m, seq(10, _ => EditRest)).config == m.config
  {
    var j := m.config.rest / RestIncrement;
    assert RestIncrement * j == m.config.rest;
    CycleReturns(RestIncrement, 10, j);
    assert CycleSteps(m.config.rest, RestIncrement, MaxRest, 10) == m.config.rest;
    RestPresses(m, 10);
  }
}
