/**
 What the router tells the other tasks. Which notice goes out at which event is given from the key and
 the keys held alone; and over any run the slot announced last is the router's slot, so that every
 frame and every write to the sink is for the target announced before it.
*/
module Announcements {
  import opened Wrappers
  import opened Keys
  import opened Hotkey
  import opened HidReports
  import opened Translate
  import opened RouterSpec
  import opened Slots
  import opened PassedKeys
  import opened RepairGesture
  import HostViews

  // ---- What is due -----------------------------------------------------------------------

  /** F1 to F12, in the order of the slots they stand for. */
  const F_KEYS: seq<KeyCode> := [59, 60, 61, 62, 63, 64, 65, 66, 67, 68, 87, 88]

  /** Key `n` of the row is pressed with Ctrl and Alt held. */
  predicate Asks(s: RState, wake: Wake, n: nat) {
    IsKey(wake) && wake.input.value == 1 && 1 <= n <= 12 && wake.input.key == F_KEYS[n - 1]
    && ModsOf(s.fsm.held).ctrl && ModsOf(s.fsm.held).alt
  }

  /** A key is pressed that with the keys held makes the combination of this macro, and asks for no slot. */
  predicate Triggers(s: RState, wake: Wake, index: nat) {
    IsKey(wake) && wake.input.value == 1
    && var combo := KeyCombo(ModsOf(s.fsm.held + {wake.input.key}), wake.input.key);
       combo in s.fsm.macros && s.fsm.macros[combo] == index
       && !(wake.input.key in F_KEYS && combo.mods.ctrl && combo.mods.alt)
  }

  /** Effects that neither the sink nor a host sees. */
  predicate IsNotice(e: Effect<Report>) {
    HostViews.Silent(e) && !e.SinkRel?
  }

  function Notices(out: seq<Effect<Report>>): seq<Effect<Report>> {
    if out == [] then [] else (if IsNotice(out[0]) then [out[0]] else []) + Notices(out[1..])
  }

  /** The notices for a slot that was asked for. */
  function DueFor(s: RState, n: nat, bound: set<nat>): seq<Effect<Report>> {
    var hook := if ModsOf(s.fsm.held).shift then [HookSlot(n)] else [];
    if n == s.slot then [Repaint] + hook
    else if n == LOCAL_SLOT || n in bound then [SlotChanged(n)] + hook
    else [OpenPairingWindow(n)]
  }

  /** These are all notices of the event, in order. */
  ghost predicate AreDue(s: RState, wake: Wake, notices: seq<Effect<Report>>) {
    if IsKey(wake) then
      && (forall n :: Asks(s, wake, n) ==> notices == DueFor(s, n, wake.bound))
      && (forall i :: Triggers(s, wake, i) ==> notices == [HookMacro(i)])
      && ((forall n :: !Asks(s, wake, n)) && (forall i :: !Triggers(s, wake, i)) ==> notices == [])
    else
      notices == if wake.RepairTimer? && s.repair.Some? then [RepairSlot(s.repair.value.slot)] else []
  }

  // ---- One event -------------------------------------------------------------------------

  lemma {:induction false} NoticesConcat(a: seq<Effect<Report>>, b: seq<Effect<Report>>)
    ensures Notices(a + b) == Notices(a) + Notices(b)
    decreases |a|
  {
    hide IsNotice;
    if a == [] {
      assert a + b == b;
    } else {
      assert (a + b)[1..] == a[1..] + b;
      NoticesConcat(a[1..], b);
    }
  }

  lemma {:induction false} NothingNoticed(out: seq<Effect<Report>>)
    requires forall e :: e in out ==> !IsNotice(e)
    ensures Notices(out) == []
  {
    hide IsNotice;
    if out != [] {
      assert out[0] in out && forall e :: e in out[1..] ==> e in out;
      NothingNoticed(out[1..]);
    }
  }

  lemma {:induction false} OnlyNotices(out: seq<Effect<Report>>)
    requires forall e :: e in out ==> IsNotice(e)
    ensures Notices(out) == out
  {
    hide IsNotice;
    if out != [] {
      assert out[0] in out && forall e :: e in out[1..] ==> e in out;
      OnlyNotices(out[1..]);
    }
  }

  lemma FlushesAreUnnoticed(c: Config, s: RState, now: int)
    ensures forall e :: e in FlushMouseNow(s, now).1 ==> e.Send?
    ensures forall e :: e in FlushRemote(c, s, now).1 ==> e.Send?
  {
    hide MouseReports, KeyboardFlushed, ConsumerFlushed;
  }

  lemma ReleasesAreUnnoticed(c: Config, s: RState, mods: seq<KeyCode>, now: int)
    ensures Notices(ReleaseComboMods(c, s, mods, now).1) == [] == Notices(LeaveTarget(s).1)
  {
    hide FlushRemote, ReleaseKeys, AllReleased, Notices;
    FlushesAreUnnoticed(c, s.(tr := ReleaseKeys(s.tr, mods)), now);
    NothingNoticed(ReleaseComboMods(c, s, mods, now).1);
    NothingNoticed(LeaveTarget(s).1);
  }

  /** The row of function keys and the slots. */
  lemma SlotsOfTheRow(key: KeyCode, n: nat)
    ensures FkeySlot(key) == Some(n) <==> 1 <= n <= 12 && key == F_KEYS[n - 1]
    ensures key in F_KEYS <==> FkeySlot(key).Some?
  {
    if FkeySlot(key).Some? {
      assert F_KEYS[FkeySlot(key).value - 1] == key;
    }
  }

  /** Slots are asked for, and macros triggered, by exactly these presses. */
  lemma VerdictsFromKeys(s: RState, wake: Wake, n: nat)
    requires IsKey(wake)
    ensures var v := VerdictOn(s, wake);
      (Asks(s, wake, n) <==> v.SwitchTo? && v.slot == n)
      && (Asks(s, wake, n) ==> v.fireHooks == ModsOf(s.fsm.held).shift)
      && (Triggers(s, wake, n) <==> v.RunMacro? && v.index == n)
  {
    var key, value := wake.input.key, wake.input.value;
    SwitchesExactlyOnReserved(s.fsm, key, value);
    MacrosMatchExactly(s.fsm, key, value, n);
    SlotsOfTheRow(key, n);
    if key in F_KEYS {
      assert !IsModifier(key);
      HoldingTheTriggerAddsNoModifier(s.fsm.held, key);
    }
    hide KeyStep, ModsOf;
    var v := VerdictOn(s, wake);
    if v.RunMacro? {
      assert v == RunMacro(v.index, v.heldMods);
    }
  }

  lemma TailNoticed(out: seq<Effect<Report>>, tail: seq<Effect<Report>>)
    requires Notices(out) == [] && forall e :: e in tail ==> IsNotice(e)
    ensures Notices(out + tail) == tail == Notices(tail + out)
  {
    NoticesConcat(out, tail);
    NoticesConcat(tail, out);
    OnlyNotices(tail);
  }

  /** What a completed combination has the router tell. */
  lemma ComboNotices(c: Config, s: RState, v: Verdict, fsm: Fsm, now: int, bound: set<nat>)
    requires v.IsCombo()
    ensures var s1 := s.(fsm := fsm);
      match v
      case SwitchTo(n, fire, mods) =>
        var hook := if fire then [HookSlot(n)] else [];
        Notices(Switch(c, s1, n, fire, mods, now, bound).1) ==
          if n == s.slot then [Repaint] + hook
          else if n == LOCAL_SLOT || n in bound then [SlotChanged(n)] + hook
          else [OpenPairingWindow(n)]
      case RunMacro(i, mods) => Notices(ReleaseComboMods(c, s1, mods, now).1 + [HookMacro(i)]) == [HookMacro(i)]
      case _ => true
  {
    hide ReleaseComboMods, LeaveTarget, Notices;
    var s1 := s.(fsm := fsm);
    ReleasesAreUnnoticed(c, s1, v.heldMods, now);
    var out, left := ReleaseComboMods(c, s1, v.heldMods, now).1, LeaveTarget(s1).1;
    match v {
      case RunMacro(i, _) => TailNoticed(out, [HookMacro(i)]);
      case SwitchTo(n, fire, _) =>
        var hook := if fire then [HookSlot(n)] else [];
        TailNoticed(out, [Repaint] + hook);
        TailNoticed(out, [OpenPairingWindow(n)]);
        TailNoticed(left, [SlotChanged(n)] + hook);
        assert out + [Repaint] + hook == out + ([Repaint] + hook);
        assert left + [SlotChanged(n)] + hook == left + ([SlotChanged(n)] + hook);
    }
  }

  lemma KeyNotices(c: Config, s: RState, wake: Wake)
    requires IsKey(wake)
    ensures AreDue(s, wake, Notices(Step(c, s, wake).1))
  {
    hide KeyStep, Switch, ReleaseComboMods, Notices, ModsOf, Asks, Triggers;
    var (fsm, v) := KeyStep(s.fsm, wake.input.key, wake.input.value);
    forall n: nat
      ensures Asks(s, wake, n) <==> v.SwitchTo? && v.slot == n
      ensures Asks(s, wake, n) ==> v.fireHooks == ModsOf(s.fsm.held).shift
      ensures Triggers(s, wake, n) <==> v.RunMacro? && v.index == n
    {
      VerdictsFromKeys(s, wake, n);
    }
    if v.IsCombo() {
      ComboNotices(c, s, v, fsm, wake.at, wake.bound);
      if v.SwitchTo? {
        assert Asks(s, wake, v.slot);
      } else {
        assert Triggers(s, wake, v.index);
      }
    } else {
      NothingNoticed(Step(c, s, wake).1);
    }
  }

  /** At every event the router gives exactly the notices that the key and the keys held call for. */
  lemma NoticesAreDue(c: Config, s: RState, wake: Wake)
    ensures AreDue(s, wake, Notices(Step(c, s, wake).1))
  {
    if IsKey(wake) {
      KeyNotices(c, s, wake);
    } else {
      hide KeyStep, FlushRemote, FlushMouseNow, Notices;
      var out := Step(c, s, wake).1;
      match wake {
        case Arrived(_, at, _) => FlushesAreUnnoticed(c, s, at);
        case FlushTimer(at) => FlushesAreUnnoticed(c, s, at);
        case RepairTimer(_) => OnlyNotices(out);
      }
      if !wake.RepairTimer? {
        NothingNoticed(out);
      }
    }
  }

  lemma {:induction false} NoticedIfEmitted(out: seq<Effect<Report>>, e: Effect<Report>)
    requires IsNotice(e)
    ensures e in out <==> e in Notices(out)
  {
    hide IsNotice;
    if out != [] {
      NoticedIfEmitted(out[1..], e);
    }
  }

  /** A slot change is announced exactly if the slot changes, and to the slot it changes to. */
  lemma AnnouncedExactlyIfChanged(c: Config, s: RState, wake: Wake, n: nat)
    ensures var (s1, out) := Step(c, s, wake); SlotChanged(n) in out <==> s1.slot == n && n != s.slot
  {
    NoticesAreDue(c, s, wake);
    SlotStays(c, s, wake);
    NoticedIfEmitted(Step(c, s, wake).1, SlotChanged(n));
    hide Step, Notices, KeyStep, ModsOf, Asks, Triggers;
    if IsKey(wake) {
      var v := VerdictOn(s, wake);
      forall k: nat
        ensures Asks(s, wake, k) <==> v.SwitchTo? && v.slot == k
        ensures Triggers(s, wake, k) <==> v.RunMacro? && v.index == k
      {
        VerdictsFromKeys(s, wake, k);
      }
    }
  }

  // ---- Whole runs ------------------------------------------------------------------------

  function After(e: Effect<Report>, slot: nat): nat {
    if e.SlotChanged? then e.to else slot
  }

  /** The slot announced last, or the one at the start. */
  function Announced(out: seq<Effect<Report>>, slot: nat): nat
    decreases |out|
  {
    if out == [] then slot else Announced(out[1..], After(out[0], slot))
  }

  /** The effect is for this target: frames for a remote slot are its own, and the sink is the hub's. */
  predicate IsFor(e: Effect<Report>, slot: nat) {
    match e
    case Send(to, _) => to == slot && slot != LOCAL_SLOT
    case SinkKey(_, _) => slot == LOCAL_SLOT
    case SinkRel(_, _) => slot == LOCAL_SLOT
    case SinkRelease(_) => slot == LOCAL_SLOT
    case _ => true
  }

  /** Every effect is for the slot announced before it. */
  predicate AllAsAnnounced(out: seq<Effect<Report>>, slot: nat)
    decreases |out|
  {
    out == [] || (IsFor(out[0], slot) && AllAsAnnounced(out[1..], After(out[0], slot)))
  }

  lemma {:induction false} AnnouncedConcat(a: seq<Effect<Report>>, b: seq<Effect<Report>>, slot: nat)
    ensures Announced(a + b, slot) == Announced(b, Announced(a, slot))
    ensures AllAsAnnounced(a + b, slot) <==> AllAsAnnounced(a, slot) && AllAsAnnounced(b, Announced(a, slot))
    decreases |a|
  {
    hide IsFor;
    if a == [] {
      assert a + b == b;
    } else {
      assert (a + b)[1..] == a[1..] + b;
      AnnouncedConcat(a[1..], b, After(a[0], slot));
    }
  }

  /** Effects for one slot, with no announcement among them. */
  lemma {:induction false} StayingAnnounced(out: seq<Effect<Report>>, slot: nat)
    requires forall e :: e in out ==> IsFor(e, slot) && !e.SlotChanged?
    ensures AllAsAnnounced(out, slot) && Announced(out, slot) == slot
    decreases |out|
  {
    hide IsFor;
    if out != [] {
      assert out[0] in out && forall e :: e in out[1..] ==> e in out;
      StayingAnnounced(out[1..], slot);
    }
  }

  /** Nothing is pending or reported on the hub itself. */
  predicate IdleAtHome(s: RState) {
    s.slot == LOCAL_SLOT ==> s.tr.Idle()
  }

  lemma FlushesAreFor(c: Config, s: RState, now: int)
    ensures s.slot != LOCAL_SLOT ==> forall e :: e in FlushRemote(c, s, now).1 ==> e.Send? && e.slot == s.slot
    ensures forall e :: e in FlushMouseNow(s, now).1 ==> e.Send? && e.slot == s.slot
    ensures s.tr.Idle() ==> FlushMouseNow(s, now).1 == []
  {
    hide MouseReports, KeyboardFlushed, ConsumerFlushed;
  }

  lemma TargetEffects(c: Config, s: RState, mods: seq<KeyCode>, now: int)
    ensures forall e :: e in ReleaseComboMods(c, s, mods, now).1 ==> IsFor(e, s.slot) && !e.SlotChanged?
    ensures forall e :: e in LeaveTarget(s).1 ==> IsFor(e, s.slot) && !e.SlotChanged?
  {
    hide FlushRemote, ReleaseKeys, AllReleased;
    FlushesAreFor(c, s.(tr := ReleaseKeys(s.tr, mods)), now);
  }

  lemma SwitchIsAsAnnounced(c: Config, s: RState, n: nat, fire: bool, mods: seq<KeyCode>, now: int, bound: set<nat>)
    ensures var (s1, out) := Switch(c, s, n, fire, mods, now, bound);
      AllAsAnnounced(out, s.slot) && Announced(out, s.slot) == s1.slot
  {
    hide ReleaseComboMods, LeaveTarget, AllAsAnnounced, Announced;
    TargetEffects(c, s, mods, now);
    var hook := if fire then [HookSlot(n)] else [];
    if n == s.slot || !Reachable(n, bound) {
      assert ReleaseComboMods(c, s, mods, now).0.slot == s.slot by { StaysPut(c, s, mods, now); }
      StayingAnnounced(Switch(c, s, n, fire, mods, now, bound).1, s.slot);
    } else {
      var left := LeaveTarget(s).1;
      StayingAnnounced(left, s.slot);
      AnnouncedConcat(left, [SlotChanged(n)] + hook, s.slot);
      ChangeThenHook(s.slot, n, hook);
      assert left + [SlotChanged(n)] + hook == left + ([SlotChanged(n)] + hook);
    }
  }

  lemma StaysPut(c: Config, s: RState, mods: seq<KeyCode>, now: int)
    ensures ReleaseComboMods(c, s, mods, now).0.slot == s.slot
  {
    hide KeyboardFlushed, ConsumerFlushed, MouseFlushed, ReleaseKeys;
  }

  lemma ChangeThenHook(slot: nat, n: nat, hook: seq<Effect<Report>>)
    requires forall e :: e in hook ==> e.HookSlot?
    ensures var out := [SlotChanged(n)] + hook; AllAsAnnounced(out, slot) && Announced(out, slot) == n
  {
    assert ([SlotChanged(n)] + hook)[1..] == hook;
    StayingAnnounced(hook, n);
  }

  lemma KeyIsAsAnnounced(c: Config, s: RState, wake: Wake)
    requires IsKey(wake)
    ensures var (s1, out) := Step(c, s, wake); AllAsAnnounced(out, s.slot) && Announced(out, s.slot) == s1.slot
  {
    hide KeyStep, Switch, ReleaseComboMods, AllAsAnnounced, Announced;
    var (fsm, v) := KeyStep(s.fsm, wake.input.key, wake.input.value);
    var s1 := s.(fsm := fsm);
    if v.SwitchTo? {
      SwitchIsAsAnnounced(c, s1, v.slot, v.fireHooks, v.heldMods, wake.at, wake.bound);
    } else {
      if v.RunMacro? {
        TargetEffects(c, s1, v.heldMods, wake.at);
        StaysPut(c, s1, v.heldMods, wake.at);
      }
      StayingAnnounced(Step(c, s, wake).1, s.slot);
    }
  }

  lemma StepIsAsAnnounced(c: Config, s: RState, wake: Wake)
    requires IdleAtHome(s)
    ensures var (s1, out) := Step(c, s, wake); AllAsAnnounced(out, s.slot) && Announced(out, s.slot) == s1.slot
  {
    if IsKey(wake) {
      KeyIsAsAnnounced(c, s, wake);
    } else {
      SlotStays(c, s, wake);
      hide KeyStep, FlushRemote, FlushMouseNow, AllAsAnnounced, Announced;
      match wake {
        case Arrived(_, at, _) => FlushesAreFor(c, s, at);
        case FlushTimer(at) => FlushesAreFor(c, s, at);
        case RepairTimer(_) =>
      }
      StayingAnnounced(Step(c, s, wake).1, s.slot);
    }
  }

  lemma StepKeepsIdleAtHome(c: Config, s: RState, wake: Wake)
    requires IdleAtHome(s)
    ensures IdleAtHome(Step(c, s, wake).0)
  {
    SlotStays(c, s, wake);
    hide KeyStep, FlushRemote, AllReleased, ReleaseKeys, TranslateKey, TranslateRel;
    HostViews.ReleasedIsIdle(s.tr);
  }

  /**
   Over any run: the slot announced last is the router's slot, and every frame sent and every write to
   the sink is for the target announced before it.
  */
  lemma {:induction false} EverythingIsAsAnnounced(c: Config, s: RState, wakes: seq<Wake>)
    requires IdleAtHome(s)
    ensures var (s1, out) := Run(c, s, wakes);
      Announced(out, s.slot) == s1.slot && AllAsAnnounced(out, s.slot) && IdleAtHome(s1)
    decreases |wakes|
  {
    hide Step, IsFor, IdleAtHome;
    if wakes != [] {
      var (s1, out) := Step(c, s, wakes[0]);
      StepIsAsAnnounced(c, s, wakes[0]);
      StepKeepsIdleAtHome(c, s, wakes[0]);
      EverythingIsAsAnnounced(c, s1, wakes[1..]);
      AnnouncedConcat(out, Run(c, s1, wakes[1..]).1, s.slot);
    }
  }

  // ---- Asking for a re-pair --------------------------------------------------------------

  /** The key of slot `n` counts as held, and the timer runs for the slot. */
  predicate Armed(s: RState, n: nat, at: int) {
    n != LOCAL_SLOT && 1 <= n <= 12 && s.fsm.comboHeld == Some((F_KEYS[n - 1], n))
    && s.repair == Some(RepairHold(n, at, false))
  }

  lemma AskingArms(c: Config, s: RState, wake: Wake, n: nat)
    requires Asks(s, wake, n) && n != LOCAL_SLOT && !(s.repair.Some? && s.repair.value.slot == n)
    ensures Armed(Step(c, s, wake).0, n, wake.at + 3_000_000)
  {
    StepTouchesFsm(c, s, wake);
    VerdictsFromKeys(s, wake, n);
    HandleKeepsRepair(c, s, wake.input, wake.at, wake.bound);
    hide Handle, Asks, FkeySlot, ModsOf;
    assert Step(c, s, wake).0 == SyncRepairHold(Handle(c, s, wake.input, wake.at, wake.bound).0, wake.at);
    ClaimedAsHeld(s, wake, n);
  }

  lemma ClaimedAsHeld(s: RState, wake: Wake, n: nat)
    requires Asks(s, wake, n)
    ensures KeyStep(s.fsm, wake.input.key, wake.input.value).0.comboHeld == Some((F_KEYS[n - 1], n))
  {
    VerdictsFromKeys(s, wake, n);
  }

  /** The hold goes on: the slot's key is not let go, no other slot is asked for, and the timer does not fire. */
  predicate HoldsOn(s: RState, wake: Wake, n: nat)
    requires 1 <= n <= 12
  {
    !wake.RepairTimer? && !(IsKey(wake) && wake.input == KeyInput(F_KEYS[n - 1], 0))
    && (IsKey(wake) && VerdictOn(s, wake).SwitchTo? ==> Asks(s, wake, n))
  }

  lemma ComboHeldStep(f: Fsm, key: KeyCode, value: int)
    ensures var (f1, v) := KeyStep(f, key, value);
      !v.SwitchTo? && !(value == 0 && f.comboHeld.Some? && f.comboHeld.value.0 == key) ==> f1.comboHeld == f.comboHeld
  {
  }

  lemma HoldingKeepsArmed(c: Config, s: RState, wake: Wake, n: nat, at: int)
    requires Armed(s, n, at) && HoldsOn(s, wake, n)
    ensures Armed(Step(c, s, wake).0, n, at)
  {
    StepTouchesFsm(c, s, wake);
    RepairStep(c, s, wake);
    if wake.Arrived? {
      HandleKeepsRepair(c, s, wake.input, wake.at, wake.bound);
      if IsKey(wake) {
        ComboHeldStep(s.fsm, wake.input.key, wake.input.value);
        if Asks(s, wake, n) {
          ClaimedAsHeld(s, wake, n);
        }
      }
    }
    hide Handle, KeyStep, FlushMouseNow, Asks;
  }

  /**
   Holding on to a slot's combination asks for a re-pair: unless the timer runs for the slot already, pressing
   the key arms it three seconds ahead; if the key is not let go and no other slot is asked for, it is still
   armed then, and when it fires the slot is asked to re-pair.
  */
  lemma {:induction false} HoldAsksForRepair(c: Config, s: RState, wakes: seq<Wake>, i: nat, j: nat, n: nat, at: int)
    requires i < j <= |wakes| && Asks(StateAt(c, s, wakes, i), wakes[i], n) && n != LOCAL_SLOT
    requires var r := StateAt(c, s, wakes, i).repair; !(r.Some? && r.value.slot == n)
    requires forall m :: i < m < j ==> HoldsOn(StateAt(c, s, wakes, m), wakes[m], n)
    ensures Armed(StateAt(c, s, wakes, j), n, wakes[i].at + 3_000_000)
    ensures at >= wakes[i].at + 3_000_000 ==>
      Enabled(StateAt(c, s, wakes, j), RepairTimer(at))
      && Step(c, StateAt(c, s, wakes, j), RepairTimer(at)).1 == [RepairSlot(n)]
    decreases j
  {
    hide Handle, HoldsOn, FlushMouseNow, KeyStep;
    if j == i + 1 {
      AskingArms(c, StateAt(c, s, wakes, i), wakes[i], n);
    } else {
      HoldAsksForRepair(c, s, wakes, i, j - 1, n, at);
      HoldingKeepsArmed(c, StateAt(c, s, wakes, j - 1), wakes[j - 1], n, wakes[i].at + 3_000_000);
    }
  }
}
