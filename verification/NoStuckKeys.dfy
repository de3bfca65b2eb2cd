/**
 Nothing stays held: whatever the local sink or a report says is down is justified by a key
 that is physically held and not swallowed. One step keeps this exactly when it does not
 strand a trigger, which only a second press of a key that is already down can do.
*/
module NoStuckKeys {
  import opened Keys
  import opened Hotkey
  import opened Keymap
  import opened Translate
  import opened RouterSpec
  import opened Slots

  /** Keys that are down and whose release will be passed on. */
  function Live(f: Fsm): set<KeyCode> {
    f.held - f.suppressed
  }

  function Meanings(keys: set<KeyCode>): set<Meaning> {
    set k | k in keys :: MeaningOf(k)
  }

  /** Everything the translator reports as held. */
  function Reported(t: TState): set<Meaning> {
    (set b | b in t.mods :: ModifierBit(b))
    + (set u | u in t.keys :: KeyUsage(u))
    + (set b | b in t.buttons :: Button(b))
    + (if t.consumer != 0 then {ConsumerUsage(t.consumer)} else {})
  }

  predicate Justified(s: RState) {
    && SuppressedAreHeld(s.fsm)
    && s.localHeld <= Live(s.fsm)
    && Reported(s.tr) <= Meanings(Live(s.fsm))
    && (s.slot == LOCAL_SLOT ==> s.tr.Idle())
    && (s.slot != LOCAL_SLOT ==> s.localHeld == {})
  }

  // ---- The translator --------------------------------------------------------------------

  /** A press can only add its own meaning; any other event but a repeat takes exactly it away. */
  lemma ReportedStep(t: TState, m: Meaning, value: int)
    requires !(m.ConsumerUsage? && m.code == 0)
    ensures var r := Reported(HandleMeaning(t, m, value));
      && (value == 1 ==> r <= Reported(t) + {m})
      && (value == 2 ==> r == Reported(t))
      && (value != 1 && value != 2 ==> r == Reported(t) - {m})
  {
  }

  lemma {:induction false} ReportedAfterReleases(t: TState, keys: seq<KeyCode>)
    ensures Reported(ReleaseKeys(t, keys)) == Reported(t) - Meanings(set k | k in keys)
    decreases |keys|
  {
    hide Reported, MeaningOf, HandleMeaning;
    if keys == [] {
      assert Meanings(set k | k in keys) == {};
    } else {
      ReportedStep(t, MeaningOf(keys[0]), 0);
      ReportedAfterReleases(TranslateKey(t, keys[0], 0), keys[1..]);
      assert (set k | k in keys) == {keys[0]} + (set k | k in keys[1..]);
      assert Meanings(set k | k in keys) == {MeaningOf(keys[0])} + Meanings(set k | k in keys[1..]);
    }
  }

  /** Flushing changes no held state. */
  lemma FlushKeepsReported(c: Config, s: RState, now: int)
    ensures var s' := FlushRemote(c, s, now).0;
      && Reported(s'.tr) == Reported(s.tr)
      && s'.fsm == s.fsm && s'.slot == s.slot && s'.localHeld == s.localHeld
    ensures var s' := FlushMouseNow(s, now).0;
      && Reported(s'.tr) == Reported(s.tr)
      && s'.fsm == s.fsm && s'.slot == s.slot && s'.localHeld == s.localHeld
      && (s.tr.Idle() ==> s'.tr.Idle())
  {
    hide MouseReports, SendAll;
  }

  // ---- One step --------------------------------------------------------------------------

  function ToSet(keys: seq<KeyCode>): set<KeyCode> {
    set k | k in keys
  }

  /** A completed combination takes its trigger and its modifiers out of the live keys. */
  lemma ComboClaimsKeys(f: Fsm, key: KeyCode, value: int)
    requires KeyStep(f, key, value).1.IsCombo()
    ensures var (f', v) := KeyStep(f, key, value);
      && value == 1
      && Live(f') == Live(f) - {key} - ToSet(v.heldMods)
      && forall m :: m in v.heldMods ==> IsModifier(m)
  {
    var (f', v) := KeyStep(f, key, value);
    forall k ensures k in Live(f') <==> k in Live(f) - {key} - ToSet(v.heldMods) {
      SuppressionStep(f, key, value, k);
    }
  }

  /** Any other event moves at most its own key into or out of the live keys. */
  lemma PlainEventLive(f: Fsm, key: KeyCode, value: int)
    requires SuppressedAreHeld(f) && !KeyStep(f, key, value).1.IsCombo()
    ensures var (f', v) := KeyStep(f, key, value);
      && (v.Pass? && value == 1 ==> Live(f') == Live(f) + {key})
      && (v.Pass? && value == 0 ==> Live(f') == Live(f) - {key})
      && (v.Swallow? || value !in {0, 1} ==> Live(f') == Live(f))
  {
  }

  /** The press switches to another slot, so everything on the current target is released. */
  predicate Leaves(s: RState, verdict: Verdict, bound: set<nat>) {
    verdict.SwitchTo? && verdict.slot != s.slot && Reachable(verdict.slot, bound)
  }

  /**
   The press completes a combination whose trigger is already down on the target, and the
   target stays active: from now on its release is swallowed, so nothing lets go of it.
  */
  predicate Strands(s: RState, key: KeyCode, value: int, bound: set<nat>) {
    var verdict := KeyStep(s.fsm, key, value).1;
    && verdict.IsCombo()
    && !Leaves(s, verdict, bound)
    && TriggerIsDown(s, key, verdict.heldMods)
  }

  /** The target has been told that the trigger is down, and no other live key accounts for it. */
  predicate TriggerIsDown(s: RState, key: KeyCode, mods: seq<KeyCode>) {
    && key !in mods
    && (s.slot == LOCAL_SLOT ==> key in s.localHeld)
    && (s.slot != LOCAL_SLOT ==>
          MeaningOf(key) in Reported(s.tr) && MeaningOf(key) !in Meanings(Live(s.fsm) - {key} - ToSet(mods)))
  }

  predicate StepStrands(s: RState, wake: Wake) {
    wake.Arrived? && wake.input.KeyInput? && Strands(s, wake.input.key, wake.input.value, wake.bound)
  }

  lemma MeaningsWithoutKeys(live: set<KeyCode>, key: KeyCode, mods: set<KeyCode>, x: Meaning)
    requires x in Meanings(live) && x !in Meanings(mods) && x != MeaningOf(key)
    ensures x in Meanings(live - {key} - mods)
  {
    var j :| j in live && MeaningOf(j) == x;
    assert j !in mods && j != key;
  }

  /** On a remote target, releasing the modifiers justifies all reports but possibly the trigger's. */
  lemma ReleasedModsJustify(reported: set<Meaning>, live: set<KeyCode>, key: KeyCode, mods: set<KeyCode>)
    requires reported <= Meanings(live) && forall m :: m in mods ==> IsModifier(m)
    ensures reported - Meanings(mods) <= Meanings(live - {key} - mods) <==>
      !(key !in mods && MeaningOf(key) in reported && MeaningOf(key) !in Meanings(live - {key} - mods))
  {
    forall x | x in reported - Meanings(mods) && x != MeaningOf(key)
      ensures x in Meanings(live - {key} - mods)
    {
      MeaningsWithoutKeys(live, key, mods, x);
    }
    if key !in mods && MeaningOf(key) in Meanings(mods) {
      var m :| m in mods && MeaningOf(m) == MeaningOf(key);
      MeaningsAreDistinct(m, key);
      assert false;
    }
  }

  lemma ComboStaysPut(c: Config, s: RState, key: KeyCode, value: int, now: int)
    requires Justified(s) && KeyStep(s.fsm, key, value).1.IsCombo()
    ensures var (fsm, v) := KeyStep(s.fsm, key, value);
      var s' := ReleaseComboMods(c, s.(fsm := fsm), v.heldMods, now).0;
      && s'.fsm == fsm && s'.slot == s.slot
      && (Justified(s') <==> !TriggerIsDown(s, key, v.heldMods))
  {
    hide KeyStep, FlushRemote, Reported, Meanings, MeaningOf, ReleaseKeys;
    var (fsm, v) := KeyStep(s.fsm, key, value);
    var s1 := s.(fsm := fsm);
    ComboClaimsKeys(s.fsm, key, value);
    SuppressedStayHeld(s.fsm, key, value);
    if s.slot == LOCAL_SLOT {
      NothingReported(s.tr);
      var s' := ReleaseComboMods(c, s1, v.heldMods, now).0;
      assert s'.localHeld == s.localHeld - ToSet(v.heldMods);
      assert key !in Live(fsm);
    } else {
      ReportedAfterReleases(s.tr, v.heldMods);
      FlushKeepsReported(c, s1.(tr := ReleaseKeys(s.tr, v.heldMods)), now);
      ReleasedModsJustify(Reported(s.tr), Live(s.fsm), key, ToSet(v.heldMods));
    }
  }

  lemma NothingReported(t: TState)
    requires t.AllUp()
    ensures Reported(t) == {}
  {
  }

  /** A single step leaves everything justified exactly when it strands no trigger. */
  lemma StepKeepsJustified(c: Config, s: RState, wake: Wake)
    requires Justified(s) && Enabled(s, wake)
    ensures Justified(Step(c, s, wake).0) <==> !StepStrands(s, wake)
  {
    hide KeyStep, FlushRemote, FlushMouseNow, Reported, Meanings, MeaningOf;
    match wake
    case FlushTimer(at) => FlushKeepsReported(c, s, at);
    case RepairTimer(_) =>
    case Arrived(input, at, bound) =>
      match input
      case RelInput(axis, delta) => RelKeepsReported(s.tr, axis, delta);
      case Syn => FlushKeepsReported(c, s, at);
      case OtherInput =>
      case KeyInput(key, value) => KeyKeepsJustified(c, s, key, value, at, bound);
  }

  lemma RelKeepsReported(t: TState, axis: Axis, delta: int)
    ensures Reported(TranslateRel(t, axis, delta)) == Reported(t)
  {
  }

  lemma KeyKeepsJustified(c: Config, s: RState, key: KeyCode, value: int, now: int, bound: set<nat>)
    requires Justified(s)
    ensures Justified(Handle(c, s, KeyInput(key, value), now, bound).0) <==> !Strands(s, key, value, bound)
  {
    hide KeyStep, FlushRemote, FlushMouseNow, Reported, Meanings, MeaningOf;
    var (fsm, verdict) := KeyStep(s.fsm, key, value);
    if verdict.IsCombo() {
      ComboStaysPut(c, s, key, value, now);
      if Leaves(s, verdict, bound) {
        LeaveAfterCombo(c, s, key, value, now, bound);
      }
    } else {
      PlainKeyKeepsJustified(c, s, key, value);
    }
  }

  lemma LeaveAfterCombo(c: Config, s: RState, key: KeyCode, value: int, now: int, bound: set<nat>)
    requires Justified(s) && Leaves(s, KeyStep(s.fsm, key, value).1, bound)
    ensures Justified(Handle(c, s, KeyInput(key, value), now, bound).0)
  {
    hide KeyStep, MeaningOf, Reported, Meanings;
    var (fsm, v) := KeyStep(s.fsm, key, value);
    SuppressedStayHeld(s.fsm, key, value);
    var s' := Switch(c, s.(fsm := fsm), v.slot, v.fireHooks, v.heldMods, now, bound).0;
    NothingReported(s'.tr);
  }

  lemma PlainKeyKeepsJustified(c: Config, s: RState, key: KeyCode, value: int)
    requires Justified(s) && !KeyStep(s.fsm, key, value).1.IsCombo()
    ensures var (fsm, v) := KeyStep(s.fsm, key, value);
      Justified(if v.Pass? then PassKey(s.(fsm := fsm), key, value).0 else s.(fsm := fsm))
  {
    hide KeyStep, Reported, MeaningOf;
    PlainEventLive(s.fsm, key, value);
    SuppressedStayHeld(s.fsm, key, value);
    ReportedStep(s.tr, MeaningOf(key), value);
  }

  // ---- Whole runs ------------------------------------------------------------------------

  /** No step of the run is disabled or strands a trigger. */
  predicate CleanRun(c: Config, s: RState, wakes: seq<Wake>)
    decreases |wakes|
  {
    wakes == []
    || (Enabled(s, wakes[0]) && !StepStrands(s, wakes[0]) && CleanRun(c, Step(c, s, wakes[0]).0, wakes[1..]))
  }

  lemma {:induction false} RunKeepsJustified(c: Config, s: RState, wakes: seq<Wake>)
    requires Justified(s) && CleanRun(c, s, wakes)
    ensures Justified(Run(c, s, wakes).0)
    decreases |wakes|
  {
    hide Step, Justified;
    if wakes != [] {
      StepKeepsJustified(c, s, wakes[0]);
      RunKeepsJustified(c, Step(c, s, wakes[0]).0, wakes[1..]);
    }
  }

  lemma StartIsJustified(c: Config, macros: map<KeyCombo, nat>, slot: nat, now: int)
    ensures Justified(Start(c, macros, slot, now))
  {
  }

  /** A key that is not down cannot be stranded, so a stream that presses only keys that are up is clean. */
  lemma FreshPressesStrandNothing(s: RState, key: KeyCode, value: int, bound: set<nat>)
    requires Justified(s) && (value == 1 ==> key !in s.fsm.held)
    ensures !Strands(s, key, value, bound)
  {
    hide MeaningOf, Reported;
    var v := KeyStep(s.fsm, key, value).1;
    if Strands(s, key, value, bound) {
      ComboClaimsKeys(s.fsm, key, value);
      assert MeaningOf(key) in Meanings(Live(s.fsm));
      var j :| j in Live(s.fsm) && MeaningOf(j) == MeaningOf(key);
      assert j != key && j in ToSet(v.heldMods);
      MeaningsAreDistinct(j, key);
      assert false;
    }
  }

  /** Once every physical key is up, no key is down on the sink and no report holds anything. */
  lemma AllUpMeansNothingHeld(s: RState)
    requires Justified(s) && s.fsm.held == {}
    ensures s.localHeld == {} && s.tr.AllUp()
  {
    HeldIsReported(s.tr);
    assert Meanings(Live(s.fsm)) == {};
  }

  lemma HeldIsReported(t: TState)
    ensures forall b :: b in t.mods ==> ModifierBit(b) in Reported(t)
    ensures forall u :: u in t.keys ==> KeyUsage(u) in Reported(t)
    ensures forall b :: b in t.buttons ==> Button(b) in Reported(t)
    ensures t.consumer != 0 ==> ConsumerUsage(t.consumer) in Reported(t)
  {
  }
}
