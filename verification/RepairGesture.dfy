/**
 Re-pairing is a deliberate gesture: a slot is asked to re-pair only after its combination key
 has been held for three seconds without a break, and once per hold.
*/
module RepairGesture {
  import opened Wrappers
  import opened Keys
  import opened Hotkey
  import opened Translate
  import opened RouterSpec
  import opened Slots

  function HeldSlot(s: RState): Option<nat> {
    if s.fsm.comboHeld.Some? then Some(s.fsm.comboHeld.value.1) else None
  }

  function StateAt(c: Config, s: RState, wakes: seq<Wake>, i: nat): RState
    requires i <= |wakes|
  {
    if i == 0 then s else Step(c, StateAt(c, s, wakes, i - 1), wakes[i - 1]).0
  }

  /** The slot's key was down at every loop turn from just after `i` up to `j`. */
  ghost predicate HeldThroughout(c: Config, s: RState, wakes: seq<Wake>, i: nat, j: nat, slot: nat)
    requires j <= |wakes|
  {
    i < j && forall m :: i < m <= j ==> HeldSlot(StateAt(c, s, wakes, m)) == Some(slot)
  }

  /** Only input events touch the hotkey machine, and every one of them re-synchronizes the timer. */
  lemma RepairStep(c: Config, s: RState, wake: Wake)
    ensures var s' := Step(c, s, wake).0;
      && (!wake.Arrived? ==> s'.fsm == s.fsm)
      && (wake.FlushTimer? ==> s'.repair == s.repair)
      && (wake.RepairTimer? ==>
            s'.repair == if s.repair.Some? then Some(s.repair.value.(fired := true)) else None)
      && (wake.Arrived? && s'.repair.Some? ==>
            HeldSlot(s') == Some(s'.repair.value.slot) && s'.repair.value.slot != LOCAL_SLOT
            && ((s.repair.Some? && s'.repair == s.repair)
                || s'.repair.value == RepairHold(s'.repair.value.slot, wake.at + REPAIR_HOLD, false)))
  {
    hide KeyStep, FlushRemote, MouseFlushed, AllReleased;
    if wake.Arrived? {
      HandleKeepsRepair(c, s, wake.input, wake.at, wake.bound);
    }
  }

  lemma HandleKeepsRepair(c: Config, s: RState, input: Input, now: int, bound: set<nat>)
    ensures Handle(c, s, input, now, bound).0.repair == s.repair
  {
    hide KeyStep, KeyboardFlushed, ConsumerFlushed, MouseFlushed, AllReleased, ReleaseKeys, TranslateKey;
  }

  /** An armed timer was armed by some event, exactly three seconds ahead, and the key has been down ever since. */
  lemma {:induction false} ArmedMeansHeldSince(c: Config, s: RState, wakes: seq<Wake>, j: nat)
    requires s.repair.None? && j <= |wakes| && StateAt(c, s, wakes, j).repair.Some?
    ensures var hold := StateAt(c, s, wakes, j).repair.value;
      hold.slot != LOCAL_SLOT
      && exists i: nat :: i < j && hold.at == wakes[i].at + REPAIR_HOLD && HeldThroughout(c, s, wakes, i, j, hold.slot)
    decreases j
  {
    hide Step;
    var before := StateAt(c, s, wakes, j - 1);
    var after := StateAt(c, s, wakes, j);
    var wake := wakes[j - 1];
    RepairStep(c, before, wake);
    if before.repair.Some? && before.repair.value.slot == after.repair.value.slot
       && before.repair.value.at == after.repair.value.at {
      ArmedMeansHeldSince(c, s, wakes, j - 1);
      var i: nat :| i < j - 1 && before.repair.value.at == wakes[i].at + REPAIR_HOLD
                 && HeldThroughout(c, s, wakes, i, j - 1, before.repair.value.slot);
      assert HeldSlot(before) == Some(before.repair.value.slot);
      assert HeldThroughout(c, s, wakes, i, j, after.repair.value.slot);
    } else {
      assert HeldThroughout(c, s, wakes, j - 1, j, after.repair.value.slot);
    }
  }

  /** A re-pair request for a slot is preceded by three seconds of that slot's key being down. */
  lemma RepairNeedsThreeSeconds(c: Config, s: RState, wakes: seq<Wake>, j: nat, slot: nat)
    requires s.repair.None? && j < |wakes|
    requires Enabled(StateAt(c, s, wakes, j), wakes[j])
    requires RepairSlot(slot) in Step(c, StateAt(c, s, wakes, j), wakes[j]).1
    ensures slot != LOCAL_SLOT
    ensures exists i: nat ::
      i < j && wakes[j].at - wakes[i].at >= REPAIR_HOLD && HeldThroughout(c, s, wakes, i, j, slot)
    ensures StateAt(c, s, wakes, j + 1).repair.Some? && StateAt(c, s, wakes, j + 1).repair.value.fired
  {
    var now := StateAt(c, s, wakes, j);
    OnlyTheTimerRepairs(c, now, wakes[j], slot);
    ArmedMeansHeldSince(c, s, wakes, j);
  }

  /** A request comes from the timer alone, for the slot it was armed for, and only if it has not fired. */
  lemma OnlyTheTimerRepairs(c: Config, s: RState, wake: Wake, slot: nat)
    requires Enabled(s, wake) && RepairSlot(slot) in Step(c, s, wake).1
    ensures wake.RepairTimer? && s.repair.Some? && s.repair.value.slot == slot && !s.repair.value.fired
  {
    match wake {
      case Arrived(input, at, bound) => InputRepairsNothing(c, s, input, at, bound, slot);
      case FlushTimer(at) => FlushRepairsNothing(s, at, slot);
      case RepairTimer(_) => hide Handle;
    }
  }

  lemma FlushRepairsNothing(s: RState, now: int, slot: nat)
    ensures RepairSlot(slot) !in FlushMouseNow(s, now).1
  {
    hide MouseFlushed;
  }

  lemma RemoteFlushRepairsNothing(c: Config, s: RState, now: int, slot: nat)
    ensures RepairSlot(slot) !in FlushRemote(c, s, now).1
  {
    hide FlushMouseNow, KeyboardFlushed, ConsumerFlushed;
    FlushRepairsNothing(s.(tr := ConsumerFlushed(KeyboardFlushed(s.tr).0).0), now, slot);
  }

  lemma ComboRepairsNothing(c: Config, s: RState, mods: seq<KeyCode>, now: int, slot: nat)
    ensures RepairSlot(slot) !in ReleaseComboMods(c, s, mods, now).1
  {
    hide FlushRemote, ReleaseKeys;
    RemoteFlushRepairsNothing(c, s.(tr := ReleaseKeys(s.tr, mods)), now, slot);
  }

  lemma InputRepairsNothing(c: Config, s: RState, input: Input, now: int, bound: set<nat>, slot: nat)
    ensures RepairSlot(slot) !in Handle(c, s, input, now, bound).1
  {
    hide KeyStep, FlushRemote, ReleaseComboMods, AllReleased, TranslateKey, TranslateRel;
    match input {
      case Syn => RemoteFlushRepairsNothing(c, s, now, slot);
      case KeyInput(key, value) =>
        var (fsm, v) := KeyStep(s.fsm, key, value);
        if v.IsCombo() {
          ComboRepairsNothing(c, s.(fsm := fsm), v.heldMods, now, slot);
        }
      case _ =>
    }
  }

  // ---- Once per hold ---------------------------------------------------------------------

  /** The timer of this slot has fired. */
  predicate Spent(s: RState, slot: nat) {
    s.repair.Some? && s.repair.value.slot == slot && s.repair.value.fired
  }

  /** While the slot's key stays down its timer stays fired; only a break arms it again. */
  lemma SpentWhileHeld(c: Config, s: RState, wake: Wake, slot: nat)
    requires slot != LOCAL_SLOT && Spent(s, slot) && HeldSlot(Step(c, s, wake).0) == Some(slot)
    ensures Spent(Step(c, s, wake).0, slot)
  {
    hide Handle, FlushMouseNow;
    match wake {
      case Arrived(input, at, bound) => HandleKeepsRepair(c, s, input, at, bound);
      case _ => RepairStep(c, s, wake);
    }
  }

  /** After one of these turns the slot's key no longer counted as held: it came up, or another slot's was pressed. */
  ghost predicate LetGo(c: Config, s: RState, wakes: seq<Wake>, i: nat, j: nat, slot: nat)
    requires j <= |wakes|
  {
    exists m :: i < m <= j && HeldSlot(StateAt(c, s, wakes, m)) != Some(slot)
  }

  lemma {:induction false} ArmedAgainMeansLetGo(c: Config, s: RState, wakes: seq<Wake>, i: nat, j: nat, slot: nat)
    requires i <= j <= |wakes| && slot != LOCAL_SLOT
    requires Spent(StateAt(c, s, wakes, i), slot) && !Spent(StateAt(c, s, wakes, j), slot)
    ensures LetGo(c, s, wakes, i, j, slot)
    decreases j
  {
    hide Step, Spent;
    if HeldSlot(StateAt(c, s, wakes, j)) == Some(slot) {
      var before := StateAt(c, s, wakes, j - 1);
      if Spent(before, slot) {
        SpentWhileHeld(c, before, wakes[j - 1], slot);
      } else {
        ArmedAgainMeansLetGo(c, s, wakes, i, j - 1, slot);
      }
    }
  }

  lemma RequestSpends(c: Config, s: RState, wake: Wake, slot: nat)
    requires Enabled(s, wake) && RepairSlot(slot) in Step(c, s, wake).1
    ensures Spent(Step(c, s, wake).0, slot) && !Spent(s, slot) && s.repair.Some? && s.repair.value.slot == slot
  {
    OnlyTheTimerRepairs(c, s, wake, slot);
    hide Handle, FlushMouseNow;
  }

  /** Between any two re-pair requests the hold of the slot first asked for has ended: once per hold. */
  lemma OncePerHold(c: Config, s: RState, wakes: seq<Wake>, j: nat, k: nat, slot: nat, other: nat)
    requires s.repair.None? && j < k < |wakes|
    requires Enabled(StateAt(c, s, wakes, j), wakes[j]) && Enabled(StateAt(c, s, wakes, k), wakes[k])
    requires RepairSlot(slot) in Step(c, StateAt(c, s, wakes, j), wakes[j]).1
    requires RepairSlot(other) in Step(c, StateAt(c, s, wakes, k), wakes[k]).1
    ensures LetGo(c, s, wakes, j, k, slot)
  {
    hide Step, Enabled, Spent, HeldThroughout;
    var now, later := StateAt(c, s, wakes, j), StateAt(c, s, wakes, k);
    RepairNeedsThreeSeconds(c, s, wakes, j, slot);
    RequestSpends(c, now, wakes[j], slot);
    RequestSpends(c, later, wakes[k], other);
    NotSpentForAnother(later, slot, other);
    assert StateAt(c, s, wakes, j + 1) == Step(c, now, wakes[j]).0;
    hide StateAt;
    ArmedAgainMeansLetGo(c, s, wakes, j + 1, k, slot);
  }

  lemma NotSpentForAnother(s: RState, slot: nat, other: nat)
    requires !Spent(s, other) && s.repair.Some? && s.repair.value.slot == other
    ensures !Spent(s, slot)
  {
  }

  // ---- The key is really down ------------------------------------------------------------

  /** The combination key that counts as held is one of the keys that are down, and is its slot's key. */
  predicate ComboKeyDown(f: Fsm) {
    f.comboHeld.Some? ==> f.comboHeld.value.0 in f.held && FkeySlot(f.comboHeld.value.0) == Some(f.comboHeld.value.1)
  }

  lemma KeyStepKeepsComboKeyDown(f: Fsm, key: KeyCode, value: int)
    requires ComboKeyDown(f)
    ensures ComboKeyDown(KeyStep(f, key, value).0)
  {
  }

  lemma StepTouchesFsm(c: Config, s: RState, wake: Wake)
    ensures var f := Step(c, s, wake).0.fsm;
      f == if wake.Arrived? && wake.input.KeyInput? then KeyStep(s.fsm, wake.input.key, wake.input.value).0 else s.fsm
  {
    hide KeyStep, KeyboardFlushed, ConsumerFlushed, MouseFlushed, AllReleased, ReleaseKeys, TranslateKey;
  }

  lemma {:induction false} ComboKeyStaysDown(c: Config, s: RState, wakes: seq<Wake>, i: nat)
    requires i <= |wakes| && ComboKeyDown(s.fsm)
    ensures ComboKeyDown(StateAt(c, s, wakes, i).fsm)
  {
    hide Step, KeyStep;
    if i > 0 {
      ComboKeyStaysDown(c, s, wakes, i - 1);
      var before, wake := StateAt(c, s, wakes, i - 1), wakes[i - 1];
      StepTouchesFsm(c, before, wake);
      if wake.Arrived? && wake.input.KeyInput? {
        KeyStepKeepsComboKeyDown(before.fsm, wake.input.key, wake.input.value);
      }
    }
  }

  /** What "held throughout" means physically: at every turn a key of the slot is among the keys that are down. */
  lemma HeldMeansTheKeyIsDown(c: Config, s: RState, wakes: seq<Wake>, i: nat, j: nat, slot: nat, m: nat)
    requires j <= |wakes| && ComboKeyDown(s.fsm) && HeldThroughout(c, s, wakes, i, j, slot) && i < m <= j
    ensures exists key :: key in StateAt(c, s, wakes, m).fsm.held && FkeySlot(key) == Some(slot)
  {
    hide StateAt;
    ComboKeyStaysDown(c, s, wakes, m);
    var f := StateAt(c, s, wakes, m).fsm;
    assert HeldSlot(StateAt(c, s, wakes, m)) == Some(slot);
    assert f.comboHeld.value.0 in f.held;
  }
}
