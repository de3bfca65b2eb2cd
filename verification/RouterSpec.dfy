/**
 The router as a step function (src/router.rs): every input event goes through the hotkey
 machine and then to the local sink or to the report translator of the active slot.

 Times are integers (microseconds). What the router hands to others - the sink, the Bluetooth
 channel, the hook, pairing and lighting tasks - is the sequence of effects of a step.
*/
module RouterSpec {
  import opened Wrappers
  import opened Keys
  import opened Hotkey
  import opened HidReports
  import opened Translate
  import opened Slots

  const REPAIR_HOLD: int := 3_000_000

  datatype Input = KeyInput(key: KeyCode, value: int) | RelInput(axis: Axis, delta: int) | Syn | OtherInput

  datatype Effect<F> =
    | SinkKey(key: KeyCode, value: int)
    | SinkRel(axis: Axis, delta: int)
    | SinkRelease(keys: set<KeyCode>)
    | Send(slot: nat, frame: F)
    | SlotChanged(to: nat)
    | HookSlot(hook: nat)
    | HookMacro(index: nat)
    | Repaint
    | OpenPairingWindow(unbound: nat)
    | RepairSlot(repaired: nat)

  datatype Config = Config(interval: int, macSlots: set<nat>)

  datatype RepairHold = RepairHold(slot: nat, at: int, fired: bool)

  datatype RState = RState(
    slot: nat,
    fsm: Fsm,
    tr: TState,
    localHeld: set<KeyCode>,
    lastSent: int,
    flushAt: Option<int>,
    repair: Option<RepairHold>)

  type Out = (RState, seq<Effect<Report>>)

  function SendAll<F>(slot: nat, frames: seq<F>): (r: seq<Effect<F>>)
    ensures |r| == |frames|
  {
    seq(|frames|, i requires 0 <= i < |frames| => Send(slot, frames[i]))
  }

  function FlushMouseNow(s: RState, now: int): Out {
    var (t, reports) := MouseFlushed(s.tr);
    (s.(tr := t, flushAt := None, lastSent := if reports == [] then s.lastSent else now), SendAll(s.slot, reports))
  }

  /** Keyboard and consumer reports go out at once, motion at most once per interval. */
  function FlushRemote(c: Config, s: RState, now: int): Out {
    var (t1, keyboard) := KeyboardFlushed(s.tr);
    var (t2, consumer) := ConsumerFlushed(t1);
    var s2 := s.(tr := t2);
    var sent := SendAll(s.slot, keyboard) + SendAll(s.slot, consumer);
    if t2.buttonsDirty || now >= s.lastSent + c.interval then
      var (s3, mouse) := FlushMouseNow(s2, now);
      (s3, sent + mouse)
    else if t2.pending != STILL && s.flushAt.None? then
      (s2.(flushAt := Some(s.lastSent + c.interval)), sent)
    else
      (s2, sent)
  }

  function ReleaseKeys(t: TState, keys: seq<KeyCode>): TState
    decreases |keys|
  {
    if keys == [] then t else ReleaseKeys(TranslateKey(t, keys[0], 0), keys[1..])
  }

  /** Let go of a swallowed combination's modifiers on the target that stays active. */
  function ReleaseComboMods(c: Config, s: RState, mods: seq<KeyCode>, now: int): Out {
    if s.slot == LOCAL_SLOT then
      var held := set k | k in mods && k in s.localHeld;
      (s.(localHeld := s.localHeld - held), if held != {} then [SinkRelease(held)] else [])
    else
      FlushRemote(c, s.(tr := ReleaseKeys(s.tr, mods)), now)
  }

  /** The slot can be switched to: it is the hub itself or has a host. */
  predicate Reachable(slot: nat, bound: set<nat>) {
    slot == LOCAL_SLOT || slot in bound
  }

  function Switch(c: Config, s: RState, slot: nat, fireHooks: bool, mods: seq<KeyCode>, now: int,
                  bound: set<nat>): Out {
    if slot == s.slot then
      var (s', out) := ReleaseComboMods(c, s, mods, now);
      (s', out + [Repaint] + (if fireHooks then [HookSlot(slot)] else []))
    else if !Reachable(slot, bound) then
      var (s', out) := ReleaseComboMods(c, s, mods, now);
      (s', [OpenPairingWindow(slot)] + out)
    else
      var (left, out) := LeaveTarget(s);
      (left.(slot := slot, tr := left.tr.(mac := slot in c.macSlots)),
       out + [SlotChanged(slot)] + (if fireHooks then [HookSlot(slot)] else []))
  }

  /** Release everything on the target being left. */
  function LeaveTarget(s: RState): Out {
    if s.slot == LOCAL_SLOT then
      (s.(localHeld := {}), if s.localHeld != {} then [SinkRelease(s.localHeld)] else [])
    else
      var (t, reports) := AllReleased(s.tr);
      (s.(tr := t, flushAt := None), SendAll(s.slot, reports))
  }

  function PassKey(s: RState, key: KeyCode, value: int): Out {
    if s.slot == LOCAL_SLOT then
      (s.(localHeld := if value == 1 then s.localHeld + {key}
                       else if value == 0 then s.localHeld - {key} else s.localHeld),
       [SinkKey(key, value)])
    else
      (s.(tr := TranslateKey(s.tr, key, value)), [])
  }

  function Handle(c: Config, s: RState, input: Input, now: int, bound: set<nat>): Out {
    match input
    case KeyInput(key, value) =>
      var (fsm, verdict) := KeyStep(s.fsm, key, value);
      var s1 := s.(fsm := fsm);
      (match verdict
       case Swallow => (s1, [])
       case Pass => PassKey(s1, key, value)
       case SwitchTo(slot, fireHooks, mods) => Switch(c, s1, slot, fireHooks, mods, now, bound)
       case RunMacro(index, mods) =>
         var (s2, out) := ReleaseComboMods(c, s1, mods, now);
         (s2, out + [HookMacro(index)]))
    case RelInput(axis, delta) =>
      if s.slot == LOCAL_SLOT then (s, [SinkRel(axis, delta)]) else (s.(tr := TranslateRel(s.tr, axis, delta)), [])
    case Syn => if s.slot == LOCAL_SLOT then (s, []) else FlushRemote(c, s, now)
    case OtherInput => (s, [])
  }

  /** Arm or disarm the re-pair timer from the combination key that is held; the local slot has nothing to pair. */
  function SyncRepairHold(s: RState, now: int): RState {
    if s.fsm.comboHeld.Some? && s.fsm.comboHeld.value.1 != LOCAL_SLOT then
      var slot := s.fsm.comboHeld.value.1;
      if s.repair.Some? && s.repair.value.slot == slot then s
      else s.(repair := Some(RepairHold(slot, now + REPAIR_HOLD, false)))
    else
      s.(repair := None)
  }

  function FireRepair(s: RState): Out {
    if s.repair.None? then (s, [])
    else (s.(repair := Some(s.repair.value.(fired := true))), [RepairSlot(s.repair.value.slot)])
  }

  // ---- The select loop -------------------------------------------------------------------

  /** What woke the loop, when, and which slots had a host then. */
  datatype Wake =
    | Arrived(input: Input, at: int, bound: set<nat>)
    | FlushTimer(at: int)
    | RepairTimer(at: int)

  /** A timer fires only when armed and never early. */
  predicate Enabled(s: RState, wake: Wake) {
    match wake
    case Arrived(_, _, _) => true
    case FlushTimer(at) => s.flushAt.Some? && at >= s.flushAt.value
    case RepairTimer(at) => s.repair.Some? && !s.repair.value.fired && at >= s.repair.value.at
  }

  function Step(c: Config, s: RState, wake: Wake): Out {
    match wake
    case Arrived(input, at, bound) =>
      var (s', out) := Handle(c, s, input, at, bound);
      (SyncRepairHold(s', at), out)
    case FlushTimer(at) => FlushMouseNow(s, at)
    case RepairTimer(_) => FireRepair(s)
  }

  /** Motion reports per second, at least one; the interval is a whole number of microseconds. */
  function MouseInterval(rateHz: nat): nat {
    1_000_000 / (if rateHz == 0 then 1 else rateHz)
  }

  function Start(c: Config, macros: map<KeyCombo, nat>, slot: nat, now: int): RState {
    RState(slot, Fsm(macros, {}, {}, None), FRESH.(mac := slot in c.macSlots), {}, now - c.interval, None, None)
  }

  function Run(c: Config, s: RState, wakes: seq<Wake>): Out
    decreases |wakes|
  {
    if wakes == [] then (s, [])
    else
      var (s1, out) := Step(c, s, wakes[0]);
      var (s2, more) := Run(c, s1, wakes[1..]);
      (s2, out + more)
  }
}
