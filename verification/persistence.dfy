/**
 Saving and restoring the timer through the watch's key-value store
 (`persist_config`, `persist_status` and `init_settings` in
 src/c/rest-time.c).

 A running timer cannot be kept ticking while the application is closed, so
 it is saved as the absolute wall-clock instant at which its phase reaches
 zero; a paused timer is saved as its remaining seconds. Both go to the same
 key, and on load the two are told apart by magnitude alone: anything above
 ten million is taken for an instant (ten million seconds after the epoch
 lies in April 1970).
 */
module Persistence {
  import opened CInt
  import opened Timer

  /** A stored slot: the store holds integers and booleans. */
  datatype Value = IntValue(i: int) | BoolValue(b: bool)

  /** The persistent store; `persist_exists` is key membership. */
  type Store = map<int, Value>

  const CountdownExpireKey: int := 1
  const CountdownPausedKey: int := 2
  const InRestModeKey: int := 3
  const WorkIntervalKey: int := 10
  const RestIntervalKey: int := 20
  const OverrunableKey: int := 40

  const DefaultWork: int := 1800
  const DefaultRest: int := 300
  const DefaultOverrun: bool := true

  /** Stored countdowns above this are absolute instants, not snapshots. */
  const InstantThreshold: int := 10000000

  const ConfigKeys: set<int> := {WorkIntervalKey, RestIntervalKey, OverrunableKey}
  const StatusKeys: set<int> := {CountdownExpireKey, CountdownPausedKey, InRestModeKey}

  /** Reading an integer from a slot; a boolean slot reads as 0 or 1. */
  function AsInt(v: Value): int {
    match v
    case IntValue(i) => i
    case BoolValue(b) => if b then 1 else 0
  }

  /** Reading a boolean from a slot; an integer slot reads as "non-zero". */
  function AsBool(v: Value): bool {
    match v
    case IntValue(i) => i != 0
    case BoolValue(b) => b
  }

  /** `persist_exists(key) ? persist_read_int(key) : default` */
  function IntOr(store: Store, key: int, default: int): int {
    if key in store then AsInt(store[key]) else default
  }

  /** `persist_exists(key) ? persist_read_bool(key) : default` */
  function BoolOr(store: Store, key: int, default: bool): bool {
    if key in store then AsBool(store[key]) else default
  }

  /** `persist_config`: writes the three settings and touches no other key. */
  function PersistConfig(store: Store, cfg: Config): (s: Store)
    ensures s.Keys == store.Keys + ConfigKeys
    ensures s[WorkIntervalKey] == IntValue(cfg.work)
    ensures s[RestIntervalKey] == IntValue(cfg.rest)
    ensures s[OverrunableKey] == BoolValue(cfg.overrun)
    ensures forall k :: k in store && k !in ConfigKeys ==> s[k] == store[k]
  {
    store[WorkIntervalKey := IntValue(cfg.work)]
         [RestIntervalKey := IntValue(cfg.rest)]
         [OverrunableKey := BoolValue(cfg.overrun)]
  }

  /**
   `persist_status` at wall-clock time `now`: a paused timer stores its
   remaining seconds, a running one the instant its phase reaches zero. The
   instant must fit the 32-bit slot.
   */
  function PersistStatus(store: Store, c: Countdown, now: int): (s: Store)
    requires !c.paused ==> Int32(now + c.remaining)
    ensures s.Keys == store.Keys + StatusKeys
    ensures c.paused ==> s[CountdownExpireKey] == IntValue(c.remaining)
    ensures !c.paused ==> s[CountdownExpireKey] == IntValue(now + c.remaining)
    ensures s[CountdownPausedKey] == BoolValue(c.paused)
    ensures s[InRestModeKey] == BoolValue(c.phase == Rest)
    ensures forall k :: k in store && k !in StatusKeys ==> s[k] == store[k]
  {
    store[CountdownExpireKey := IntValue(if c.paused then c.remaining else now + c.remaining)]
         [CountdownPausedKey := BoolValue(c.paused)]
         [InRestModeKey := BoolValue(c.phase == Rest)]
  }

  /**
   `init_settings` at wall-clock time `now`: each field is read if present and
   defaulted otherwise, with no range checks. A stored countdown above the
   threshold is an instant and becomes "seconds until then", possibly
   negative. The threshold test also applies to the default (the work
   interval) when no countdown is stored.
   */
  function InitSettings(store: Store, now: int): (r: (Config, Countdown))
    ensures r.0 == Config(IntOr(store, WorkIntervalKey, DefaultWork),
                          IntOr(store, RestIntervalKey, DefaultRest),
                          BoolOr(store, OverrunableKey, DefaultOverrun))
    ensures r.1.phase == (if BoolOr(store, InRestModeKey, false) then Rest else Work)
    ensures r.1.paused == BoolOr(store, CountdownPausedKey, true)
    ensures var anchor := IntOr(store, CountdownExpireKey, r.0.work);
            r.1.remaining == (if anchor > InstantThreshold then anchor - now else anchor)
  {
    var work := IntOr(store, WorkIntervalKey, DefaultWork);
    var rest := IntOr(store, RestIntervalKey, DefaultRest);
    var overrun := BoolOr(store, OverrunableKey, DefaultOverrun);
    var inRest := BoolOr(store, InRestModeKey, false);
    var paused := BoolOr(store, CountdownPausedKey, true);
    var seconds := IntOr(store, CountdownExpireKey, work);
    var remaining := if seconds > InstantThreshold then seconds - now else seconds;
    (Config(work, rest, overrun), Countdown(if inRest then Rest else Work, paused, remaining))
  }

  /**
   First run: with nothing stored the timer is a paused, full-length work
   phase under the default settings (30 minutes, 5 minutes, overrun on).
   */
  lemma FirstRun(now: int)
    ensures InitSettings(map[], now) == (Config(1800, 300, true), Countdown(Work, true, 1800))
  {
  }

  /**
   Every key is read independently: a store holding only the settings still
   yields the default timer state for those settings.
   */
  lemma ConfigOnlyStore(cfg: Config, now: int)
    requires cfg.work <= InstantThreshold
    ensures InitSettings(PersistConfig(map[], cfg), now) == (cfg, Countdown(Work, true, cfg.work))
  {
  }

  /**
   Round trip of a paused timer: saving it and loading it again at any later
   time gives back the same settings and exactly the same timer.
   */
  lemma PausedRoundTrip(store: Store, cfg: Config, c: Countdown, saved: int, loaded: int)
    requires c.paused && c.remaining <= InstantThreshold
    ensures InitSettings(PersistStatus(PersistConfig(store, cfg), c, saved), loaded) == (cfg, c)
  {
  }

  /**
   Round trip of a running timer: loading it `elapsed` seconds after saving
   restores phase and pause state verbatim and charges the elapsed time to the
   countdown, running into overrun when more time passed than was left.
   */
  lemma RunningRoundTrip(store: Store, cfg: Config, c: Countdown, saved: int, elapsed: int)
    requires !c.paused && Int32(saved + c.remaining) && saved + c.remaining > InstantThreshold
    ensures InitSettings(PersistStatus(PersistConfig(store, cfg), c, saved), saved + elapsed)
            == (cfg, c.(remaining := c.remaining - elapsed))
  {
  }

  /**
   The magnitude test misreads a paused snapshot above the threshold as an
   instant; only snapshots at or below it survive unchanged.
   */
  lemma PausedSnapshotAboveThreshold(store: Store, c: Countdown, saved: int, loaded: int)
    requires c.paused && c.remaining > InstantThreshold
    ensures InitSettings(PersistStatus(store, c, saved), loaded).1.remaining == c.remaining - loaded
  {
  }
}
