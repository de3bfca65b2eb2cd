/**
 What the sink and the hosts see. The world records which keys the sink was told are down and
 the last keyboard, button and consumer state sent to each slot. Between SYNs the active
 host may lag behind; after a SYN it shows the physical state in its own layout, and every
 other host shows nothing held - unless a release was still unsent at the switch.
*/
module HostViews {
  import opened Keys
  import opened Hotkey
  import opened HidReports
  import opened Keymap
  import opened Translate
  import opened RouterSpec
  import opened Slots

  datatype HostView = HostView(mods: set<nat>, usages: set<byte>, buttons: set<nat>, consumer: nat)

  const NOTHING_HELD := HostView({}, {}, {}, 0)

  datatype World = World(down: set<KeyCode>, hosts: map<nat, HostView>) {
    function View(slot: nat): HostView {
      if slot in hosts then hosts[slot] else NOTHING_HELD
    }
  }

  const QUIET := World({}, map[])

  function See(v: HostView, r: Report): HostView {
    match r
    case KeyboardReport(mods, usages) => v.(mods := mods, usages := usages)
    case MouseReport(buttons, _) => v.(buttons := buttons)
    case ConsumerReport(usage) => v.(consumer := usage)
  }

  function SeeAll(v: HostView, reports: seq<Report>): HostView
    decreases |reports|
  {
    if reports == [] then v else SeeAll(See(v, reports[0]), reports[1..])
  }

  function Observe(w: World, e: Effect<Report>): World {
    match e
    case SinkKey(key, value) =>
      w.(down := if value == 1 then w.down + {key} else if value == 0 then w.down - {key} else w.down)
    case SinkRelease(keys) => w.(down := w.down - keys)
    case Send(slot, report) => w.(hosts := w.hosts[slot := See(w.View(slot), report)])
    case _ => w
  }

  function ObserveAll(w: World, out: seq<Effect<Report>>): World
    decreases |out|
  {
    if out == [] then w else ObserveAll(Observe(w, out[0]), out[1..])
  }

  lemma {:induction false} ObserveConcat(w: World, a: seq<Effect<Report>>, b: seq<Effect<Report>>)
    ensures ObserveAll(w, a + b) == ObserveAll(ObserveAll(w, a), b)
    decreases |a|
  {
    hide Observe;
    if a == [] {
      assert a + b == b;
    } else {
      assert (a + b)[1..] == a[1..] + b;
      ObserveConcat(Observe(w, a[0]), a[1..], b);
    }
  }

  predicate Silent(e: Effect<Report>) {
    !e.SinkKey? && !e.SinkRelease? && !e.Send?
  }

  lemma {:induction false} ObserveSilent(w: World, out: seq<Effect<Report>>)
    requires forall e :: e in out ==> Silent(e)
    ensures ObserveAll(w, out) == w
  {
    if out != [] {
      assert out[0] in out;
      assert forall e :: e in out[1..] ==> e in out;
      ObserveSilent(w, out[1..]);
    }
  }

  lemma ObserveOne(w: World, e: Effect<Report>)
    ensures ObserveAll(w, [e]) == Observe(w, e)
    ensures !e.Send? ==> forall slot :: Observe(w, e).View(slot) == w.View(slot)
  {
    assert [e][1..] == [];
  }

  /** Two worlds differ at most in what one slot's host sees. */
  ghost predicate OnlySlotChanged(w: World, w': World, slot: nat) {
    w'.down == w.down && forall other :: other != slot ==> w'.View(other) == w.View(other)
  }

  lemma {:induction false} ObserveSends(w: World, slot: nat, reports: seq<Report>)
    ensures var w' := ObserveAll(w, SendAll(slot, reports));
      w'.View(slot) == SeeAll(w.View(slot), reports) && OnlySlotChanged(w, w', slot)
    decreases |reports|
  {
    hide See;
    if reports == [] {
      assert SendAll<Report>(slot, reports) == [];
    } else {
      var w1 := Observe(w, Send(slot, reports[0]));
      assert SendAll(slot, reports)[0] == Send(slot, reports[0]);
      assert SendAll(slot, reports)[1..] == SendAll(slot, reports[1..]);
      ObserveSends(w1, slot, reports[1..]);
      assert OnlySlotChanged(w, w1, slot);
    }
  }

  lemma {:induction false} SeeConcat(v: HostView, a: seq<Report>, b: seq<Report>)
    ensures SeeAll(v, a + b) == SeeAll(SeeAll(v, a), b)
    decreases |a|
  {
    hide See;
    if a == [] {
      assert a + b == b;
    } else {
      assert (a + b)[1..] == a[1..] + b;
      SeeConcat(See(v, a[0]), a[1..], b);
    }
  }

  lemma {:induction false} SeeMouseReports(v: HostView, buttons: set<nat>, m: Motion)
    ensures SeeAll(v, MouseReports(buttons, m)) == v.(buttons := buttons)
    decreases Size(m)
  {
    var first := [MouseReport(buttons, Chunk(m))];
    assert first[1..] == [];
    assert SeeAll(v, first) == v.(buttons := buttons);
    if Rest(m) == STILL {
      assert MouseReports(buttons, m) == first;
    } else {
      SeeMouseReports(v.(buttons := buttons), buttons, Rest(m));
      SeeConcat(v, first, MouseReports(buttons, Rest(m)));
    }
  }

  // ---- Hub and world agree ---------------------------------------------------------------

  /** What the host shows once it has received everything: the physical state in its layout. */
  function Shown(t: TState): HostView {
    HostView(if t.mac then SwapBits(t.mods) else t.mods, t.keys, t.buttons, t.consumer)
  }

  /** Every part of the state that is not marked as changed has been received. */
  predicate UpToDate(t: TState, v: HostView) {
    && (!t.kbdDirty ==> v.mods == Shown(t).mods && v.usages == t.keys)
    && (!t.buttonsDirty ==> v.buttons == t.buttons)
    && (!t.consumerDirty ==> v.consumer == t.consumer)
  }

  ghost predicate InSync(c: Config, s: RState, w: World) {
    && w.down == s.localHeld
    && UpToDate(s.tr, w.View(s.slot))
    && (forall other :: other != s.slot ==> w.View(other) == NOTHING_HELD)
    && s.tr.mac == (s.slot in c.macSlots)
    && (s.slot == LOCAL_SLOT ==> s.tr.Idle())
    && (s.slot != LOCAL_SLOT ==> s.localHeld == {})
  }

  lemma KeysKeepUpToDate(t: TState, m: Meaning, value: int, v: HostView)
    requires UpToDate(t, v)
    ensures UpToDate(HandleMeaning(t, m, value), v) && HandleMeaning(t, m, value).mac == t.mac
  {
    hide SwapBits;
  }

  lemma MotionKeepsUpToDate(t: TState, axis: Axis, delta: int, v: HostView)
    requires UpToDate(t, v)
    ensures UpToDate(TranslateRel(t, axis, delta), v)
  {
    hide SwapBits;
  }

  lemma {:induction false} ReleasesKeepUpToDate(t: TState, keys: seq<KeyCode>, v: HostView)
    requires UpToDate(t, v)
    ensures UpToDate(ReleaseKeys(t, keys), v) && ReleaseKeys(t, keys).mac == t.mac
    decreases |keys|
  {
    hide MeaningOf, UpToDate, HandleMeaning;
    if keys != [] {
      KeysKeepUpToDate(t, MeaningOf(keys[0]), 0, v);
      ReleasesKeepUpToDate(TranslateKey(t, keys[0], 0), keys[1..], v);
    }
  }

  /** After a mouse flush the buttons have been received; nothing else changes. */
  lemma MouseFlushReaches(s: RState, now: int, w: World)
    requires UpToDate(s.tr, w.View(s.slot))
    ensures var (s', out) := FlushMouseNow(s, now);
      var w' := ObserveAll(w, out);
      && UpToDate(s'.tr, w'.View(s.slot)) && OnlySlotChanged(w, w', s.slot)
      && s'.tr == s.tr.(pending := STILL, buttonsDirty := false)
      && s' == s.(tr := s'.tr, flushAt := s'.flushAt, lastSent := s'.lastSent)
  {
    hide MouseReports, SwapBits, SendAll;
    var (t, reports) := MouseFlushed(s.tr);
    ObserveSends(w, s.slot, reports);
    SeeMouseReports(w.View(s.slot), s.tr.buttons, s.tr.pending);
  }

  /** The keyboard and consumer parts of a flush. */
  lemma KeyFlushesReach(t: TState, slot: nat, w: World)
    requires UpToDate(t, w.View(slot))
    ensures var (t1, keyboard) := KeyboardFlushed(t);
      var (t2, consumer) := ConsumerFlushed(t1);
      var w' := ObserveAll(w, SendAll(slot, keyboard) + SendAll(slot, consumer));
      && UpToDate(t2, w'.View(slot)) && OnlySlotChanged(w, w', slot)
      && t2 == t.(kbdDirty := false, consumerDirty := false)
  {
    hide SendAll, SwapBits;
    var (t1, keyboard) := KeyboardFlushed(t);
    var (t2, consumer) := ConsumerFlushed(t1);
    var w1 := ObserveAll(w, SendAll(slot, keyboard));
    ObserveConcat(w, SendAll(slot, keyboard), SendAll(slot, consumer));
    ObserveSends(w, slot, keyboard);
    ObserveSends(w1, slot, consumer);
    SeeOne(w.View(slot), t.KeyboardNow());
    SeeOne(w1.View(slot), ConsumerReport(t.consumer));
  }

  lemma SeeOne(v: HostView, r: Report)
    ensures SeeAll(v, [r]) == See(v, r) && SeeAll(v, []) == v
  {
    assert [r][1..] == [];
  }

  /** A SYN: keyboard, consumer and button state have all been received when it is done. */
  lemma FlushReaches(c: Config, s: RState, now: int, w: World)
    requires UpToDate(s.tr, w.View(s.slot))
    ensures var (s', out) := FlushRemote(c, s, now);
      var w' := ObserveAll(w, out);
      && w'.View(s.slot) == Shown(s.tr) && OnlySlotChanged(w, w', s.slot)
      && s'.tr == s.tr.(kbdDirty := false, consumerDirty := false, buttonsDirty := false, pending := s'.tr.pending)
      && s' == s.(tr := s'.tr, flushAt := s'.flushAt, lastSent := s'.lastSent)
  {
    hide KeyboardFlushed, ConsumerFlushed, FlushMouseNow, SendAll, SwapBits;
    var (t1, keyboard) := KeyboardFlushed(s.tr);
    var (t2, consumer) := ConsumerFlushed(t1);
    var sent := SendAll(s.slot, keyboard) + SendAll(s.slot, consumer);
    var s2 := s.(tr := t2);
    KeyFlushesReach(s.tr, s.slot, w);
    var w1 := ObserveAll(w, sent);
    MouseFlushReaches(s2, now, w1);
    ObserveConcat(w, sent, FlushMouseNow(s2, now).1);
  }

  // ---- Leaving a target ------------------------------------------------------------------

  /** The hub's own sign of trouble: a release that has not been sent yet. */
  predicate UnsentRelease(t: TState) {
    || (t.kbdDirty && t.mods == {} && t.keys == {})
    || (t.buttonsDirty && t.buttons == {})
    || (t.consumerDirty && t.consumer == 0)
  }

  /** The host still shows something that the translator no longer holds. */
  predicate Lags(t: TState, v: HostView) {
    || (t.mods == {} && t.keys == {} && (v.mods != {} || v.usages != {}))
    || (t.buttons == {} && v.buttons != {})
    || (t.consumer == 0 && v.consumer != 0)
  }

  /** The release on the way out clears the host exactly when it does not lag. */
  lemma ReleaseClearsUnlessLagging(t: TState, v: HostView)
    ensures SeeAll(v, AllReleased(t).1) == NOTHING_HELD <==> !Lags(t, v)
  {
    var k := if t.mods != {} || t.keys != {} then [KeyboardReport({}, {})] else [];
    var b := if t.buttons != {} then [MouseReport({}, STILL)] else [];
    var m := if t.consumer != 0 then [ConsumerReport(0)] else [];
    SeeConcat(v, k + b, m);
    SeeConcat(v, k, b);
    var v1 := SeeAll(v, k);
    var v2 := SeeAll(v1, b);
    SeeOne(v, KeyboardReport({}, {}));
    SeeOne(v1, MouseReport({}, STILL));
    SeeOne(v2, ConsumerReport(0));
  }

  /** A host can lag only when a release is unsent. */
  lemma LaggingNeedsUnsentRelease(t: TState, v: HostView)
    requires UpToDate(t, v) && Lags(t, v)
    ensures UnsentRelease(t)
  {
    assert SwapBits({}) == {};
  }

  /** Whenever a release is unsent, some host that received everything else lags. */
  lemma UnsentReleaseMayLag(t: TState) returns (v: HostView)
    requires UnsentRelease(t)
    ensures UpToDate(t, v) && Lags(t, v)
  {
    v := HostView(if t.kbdDirty then {0} else Shown(t).mods,
                  t.keys,
                  if t.buttonsDirty then {0} else t.buttons,
                  if t.consumerDirty then 1 else t.consumer);
  }

  lemma LeavingClearsHost(c: Config, s: RState, w: World)
    requires InSync(c, s, w)
    ensures var (s', out) := LeaveTarget(s);
      var w' := ObserveAll(w, out);
      && w'.down == {} && s'.localHeld == {} && s'.tr.Idle() && s'.slot == s.slot
      && (forall other :: other != s.slot ==> w'.View(other) == NOTHING_HELD)
      && (w'.View(s.slot) == NOTHING_HELD <==> !Lags(s.tr, w.View(s.slot)))
  {
    hide AllReleased, SendAll;
    if s.slot == LOCAL_SLOT {
      ObserveOne(w, SinkRelease(s.localHeld));
      assert SwapBits({}) == {};
    } else {
      ReleasedIsIdle(s.tr);
      ObserveSends(w, s.slot, AllReleased(s.tr).1);
      ReleaseClearsUnlessLagging(s.tr, w.View(s.slot));
    }
  }

  lemma ReleasedIsIdle(t: TState)
    ensures AllReleased(t).0.Idle() && AllReleased(t).0.mac == t.mac
  {
  }

  // ---- One step --------------------------------------------------------------------------

  /** The wake-up is a combination that really switches slots. */
  predicate Switches(s: RState, wake: Wake) {
    wake.Arrived? && wake.input.KeyInput?
    && var v := KeyStep(s.fsm, wake.input.key, wake.input.value).1;
       v.SwitchTo? && v.slot != s.slot && Reachable(v.slot, wake.bound)
  }

  lemma IdleIsUpToDate(t: TState)
    requires t.Idle()
    ensures UpToDate(t, NOTHING_HELD)
  {
    assert SwapBits({}) == {};
  }

  /** A real switch: the host being left is cleared exactly when it does not lag, and the rest is in order. */
  lemma SwitchClearsHost(c: Config, s: RState, w: World, key: KeyCode, value: int, now: int, bound: set<nat>)
    requires InSync(c, s, w) && Switches(s, Arrived(KeyInput(key, value), now, bound))
    ensures var (s', out) := Handle(c, s, KeyInput(key, value), now, bound);
      InSync(c, s', ObserveAll(w, out)) <==> !Lags(s.tr, w.View(s.slot))
  {
    hide KeyStep, LeaveTarget, UpToDate, Lags;
    var (fsm, v) := KeyStep(s.fsm, key, value);
    var s1 := s.(fsm := fsm);
    var (left, out) := LeaveTarget(s1);
    LeavingClearsHost(c, s1, w);
    var rest := [SlotChanged(v.slot)] + (if v.fireHooks then [HookSlot(v.slot)] else []);
    ObserveConcat(w, out, rest);
    ObserveSilent(ObserveAll(w, out), rest);
    assert out + [SlotChanged(v.slot)] + (if v.fireHooks then [HookSlot(v.slot)] else []) == out + rest;
    IdleIsUpToDate(Handle(c, s, KeyInput(key, value), now, bound).0.tr);
  }

  lemma ReleaseComboKeepsSync(c: Config, s: RState, w: World, mods: seq<KeyCode>, now: int)
    requires InSync(c, s, w)
    ensures var (s', out) := ReleaseComboMods(c, s, mods, now);
      InSync(c, s', ObserveAll(w, out))
  {
    hide FlushRemote, ReleaseKeys, Shown;
    if s.slot == LOCAL_SLOT {
      ObserveOne(w, SinkRelease(set k | k in mods && k in s.localHeld));
    } else {
      var s1 := s.(tr := ReleaseKeys(s.tr, mods));
      ReleasesKeepUpToDate(s.tr, mods, w.View(s.slot));
      FlushReaches(c, s1, now, w);
      ShownIsUpToDate(s1.tr, FlushRemote(c, s1, now).0.tr.pending);
    }
  }

  lemma ShownIsUpToDate(t: TState, pending: Motion)
    ensures UpToDate(t.(kbdDirty := false, consumerDirty := false, buttonsDirty := false, pending := pending), Shown(t))
  {
  }

  lemma SilentTail(w: World, out: seq<Effect<Report>>, tail: seq<Effect<Report>>)
    requires forall e :: e in tail ==> Silent(e)
    ensures ObserveAll(w, out + tail) == ObserveAll(w, out) == ObserveAll(w, tail + out)
  {
    ObserveConcat(w, out, tail);
    ObserveConcat(w, tail, out);
    ObserveSilent(w, tail);
    ObserveSilent(ObserveAll(w, out), tail);
  }

  lemma ComboKeepsSync(c: Config, s: RState, w: World, key: KeyCode, value: int, now: int, bound: set<nat>)
    requires InSync(c, s, w) && KeyStep(s.fsm, key, value).1.IsCombo()
    requires !Switches(s, Arrived(KeyInput(key, value), now, bound))
    ensures var (s', out) := Handle(c, s, KeyInput(key, value), now, bound);
      InSync(c, s', ObserveAll(w, out))
  {
    hide KeyStep, ReleaseComboMods;
    var (fsm, v) := KeyStep(s.fsm, key, value);
    var s1 := s.(fsm := fsm);
    assert InSync(c, s1, w);
    ReleaseComboKeepsSync(c, s1, w, v.heldMods, now);
    var out := ReleaseComboMods(c, s1, v.heldMods, now).1;
    match v {
      case RunMacro(index, _) => SilentTail(w, out, [HookMacro(index)]);
      case SwitchTo(slot, fire, _) =>
        var tail := [Repaint] + (if fire then [HookSlot(slot)] else []);
        SilentTail(w, out, tail);
        SilentTail(w, out, [OpenPairingWindow(slot)]);
        assert out + [Repaint] + (if fire then [HookSlot(slot)] else []) == out + tail;
    }
  }

  lemma PassKeepsSync(c: Config, s: RState, w: World, key: KeyCode, value: int)
    requires InSync(c, s, w)
    ensures var (s', out) := PassKey(s, key, value);
      InSync(c, s', ObserveAll(w, out))
  {
    hide MeaningOf;
    if s.slot == LOCAL_SLOT {
      ObserveOne(w, SinkKey(key, value));
    } else {
      KeysKeepUpToDate(s.tr, MeaningOf(key), value, w.View(s.slot));
    }
  }

  /** Every step keeps hub and world in agreement, except exactly the switches that leave a lagging host. */
  lemma StepKeepsSync(c: Config, s: RState, w: World, wake: Wake)
    requires InSync(c, s, w) && Enabled(s, wake)
    ensures var (s', out) := Step(c, s, wake);
      InSync(c, s', ObserveAll(w, out)) <==> !(Switches(s, wake) && Lags(s.tr, w.View(s.slot)))
  {
    hide KeyStep, FlushRemote, FlushMouseNow, PassKey, Shown, Lags;
    match wake
    case FlushTimer(at) => MouseFlushReaches(s, at, w);
    case RepairTimer(_) =>
      if s.repair.Some? {
        ObserveSilent(w, [RepairSlot(s.repair.value.slot)]);
      }
    case Arrived(input, at, bound) =>
      match input
      case RelInput(axis, delta) =>
        ObserveSilent(w, [SinkRel(axis, delta)]);
        MotionKeepsUpToDate(s.tr, axis, delta, w.View(s.slot));
      case OtherInput =>
      case Syn =>
        FlushReaches(c, s, at, w);
        ShownIsUpToDate(s.tr, FlushRemote(c, s, at).0.tr.pending);
      case KeyInput(key, value) => KeyKeepsSync(c, s, w, key, value, at, bound);
  }

  lemma KeyKeepsSync(c: Config, s: RState, w: World, key: KeyCode, value: int, now: int, bound: set<nat>)
    requires InSync(c, s, w)
    ensures var (s', out) := Handle(c, s, KeyInput(key, value), now, bound);
      InSync(c, s', ObserveAll(w, out))
      <==> !(Switches(s, Arrived(KeyInput(key, value), now, bound)) && Lags(s.tr, w.View(s.slot)))
  {
    hide KeyStep, PassKey, Lags, ReleaseComboMods, LeaveTarget;
    var (fsm, v) := KeyStep(s.fsm, key, value);
    if Switches(s, Arrived(KeyInput(key, value), now, bound)) {
      SwitchClearsHost(c, s, w, key, value, now, bound);
    } else if v.IsCombo() {
      ComboKeepsSync(c, s, w, key, value, now, bound);
    } else {
      assert InSync(c, s.(fsm := fsm), w);
      PassKeepsSync(c, s.(fsm := fsm), w, key, value);
    }
  }

  // ---- Whole runs ------------------------------------------------------------------------

  /** No switch happens while a release is unsent; only the hub's state is looked at. */
  predicate TidyRun(c: Config, s: RState, wakes: seq<Wake>)
    decreases |wakes|
  {
    wakes == []
    || (Enabled(s, wakes[0])
        && !(Switches(s, wakes[0]) && UnsentRelease(s.tr))
        && TidyRun(c, Step(c, s, wakes[0]).0, wakes[1..]))
  }

  lemma {:induction false} RunKeepsSync(c: Config, s: RState, w: World, wakes: seq<Wake>)
    requires InSync(c, s, w) && TidyRun(c, s, wakes)
    ensures InSync(c, Run(c, s, wakes).0, ObserveAll(w, Run(c, s, wakes).1))
    decreases |wakes|
  {
    hide Step, InSync, UnsentRelease, Lags, Observe;
    if wakes != [] {
      var (s1, out) := Step(c, s, wakes[0]);
      if Switches(s, wakes[0]) && Lags(s.tr, w.View(s.slot)) {
        InSyncIsUpToDate(c, s, w);
        LaggingNeedsUnsentRelease(s.tr, w.View(s.slot));
        assert false;
      }
      StepKeepsSync(c, s, w, wakes[0]);
      RunKeepsSync(c, s1, ObserveAll(w, out), wakes[1..]);
      ObserveConcat(w, out, Run(c, s1, wakes[1..]).1);
    }
  }

  lemma InSyncIsUpToDate(c: Config, s: RState, w: World)
    requires InSync(c, s, w)
    ensures UpToDate(s.tr, w.View(s.slot))
  {
  }

  lemma StartIsInSync(c: Config, macros: map<KeyCombo, nat>, slot: nat, now: int)
    ensures InSync(c, Start(c, macros, slot, now), QUIET)
  {
    IdleIsUpToDate(Start(c, macros, slot, now).tr);
  }

  /**
   Hub and world in agreement: after a SYN on a remote slot its host decodes to the translator's
   state in its own layout, and every other slot's host and the sink show nothing held.
  */
  lemma AfterSynHostShowsPhysicalState(c: Config, s: RState, w: World, at: int, bound: set<nat>)
    requires InSync(c, s, w) && s.slot != LOCAL_SLOT
    ensures var (s', out) := Step(c, s, Arrived(Syn, at, bound));
      var w' := ObserveAll(w, out);
      && w'.View(s'.slot) == Shown(s'.tr)
      && (if s'.slot in c.macSlots then SwapBits(w'.View(s'.slot).mods) else w'.View(s'.slot).mods) == s.tr.mods
      && w'.View(s'.slot).usages == s.tr.keys && w'.View(s'.slot).buttons == s.tr.buttons
      && w'.View(s'.slot).consumer == s.tr.consumer
      && w'.down == {} && forall other :: other != s'.slot ==> w'.View(other) == NOTHING_HELD
  {
    hide FlushRemote, SwapBits;
    FlushReaches(c, s, at, w);
    SwapBitsTwice(s.tr.mods);
  }
}
