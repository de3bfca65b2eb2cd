/**
 What the target is told, from the keys alone: everything whose key was pressed and passed on since the
 slot became active, and that has not been let go of since. The other half of `NoStuckKeys`: not only
 is nothing down without a key, no key that was passed goes missing.
*/
module PassedKeys {
  import opened Keys
  import opened Hotkey
  import opened HidReports
  import opened Keymap
  import opened Translate
  import opened RouterSpec
  import opened Slots
  import opened NoStuckKeys
  import opened HostViews
  import opened RepairGesture
  import LastReports

  // ---- What an event means for a meaning -------------------------------------------------

  predicate IsKey(wake: Wake) {
    wake.Arrived? && wake.input.KeyInput?
  }

  function VerdictOn(s: RState, wake: Wake): Verdict
    requires IsKey(wake)
  {
    KeyStep(s.fsm, wake.input.key, wake.input.value).1
  }

  /** The press of this key is passed on. */
  predicate Presses(s: RState, wake: Wake, key: KeyCode) {
    IsKey(wake) && wake.input == KeyInput(key, 1) && VerdictOn(s, wake).Pass?
  }

  /** A remote slot gets a press of this meaning, and for a key of the keyboard page fewer than six are reported. */
  predicate Takes(s: RState, wake: Wake, m: Meaning) {
    s.slot != LOCAL_SLOT
    && IsKey(wake) && Presses(s, wake, wake.input.key) && MeaningOf(wake.input.key) == m && m != NoMeaning
    && (m.KeyUsage? ==> |s.tr.keys| < 6)
  }

  /** The target is left. */
  predicate LeavesTarget(s: RState, wake: Wake) {
    IsKey(wake) && Leaves(s, VerdictOn(s, wake), wake.bound)
  }

  /**
   A key of this meaning is let go, or a combination names one, or another consumer key replaces it, or
   the target is left.
  */
  predicate Drops(s: RState, wake: Wake, m: Meaning) {
    IsKey(wake)
    && var v := VerdictOn(s, wake);
       || (v.Pass? && wake.input.value !in {1, 2} && MeaningOf(wake.input.key) == m)
       || (v.IsCombo() && m in Meanings(ToSet(v.heldMods)))
       || (v.Pass? && wake.input.value == 1 && m.ConsumerUsage? && MeaningOf(wake.input.key).ConsumerUsage?
           && MeaningOf(wake.input.key) != m)
       || LeavesTarget(s, wake)
  }

  // ---- One event -------------------------------------------------------------------------

  lemma ReportedExactly(t: TState, e: Meaning, value: int, m: Meaning)
    requires !(e.ConsumerUsage? && e.code == 0)
    ensures m in Reported(HandleMeaning(t, e, value)) <==>
      if value == 1 then
        (m == e && m != NoMeaning && (m.KeyUsage? ==> |t.keys| < 6))
        || (m in Reported(t) && !(m.ConsumerUsage? && e.ConsumerUsage? && m != e))
      else m in Reported(t) && (value == 2 || m != e)
  {
  }

  /** On the hub itself nothing is reported. */
  predicate QuietAtHome(s: RState) {
    s.slot == LOCAL_SLOT ==> s.tr.AllUp()
  }

  lemma ComboReports(c: Config, s: RState, mods: seq<KeyCode>, now: int, m: Meaning)
    requires QuietAtHome(s)
    ensures var s1 := ReleaseComboMods(c, s, mods, now).0;
      s1.slot == s.slot && (m in Reported(s1.tr) <==> m in Reported(s.tr) && m !in Meanings(ToSet(mods)))
  {
    hide FlushRemote, Reported, Meanings, MeaningOf, ReleaseKeys;
    if s.slot == LOCAL_SLOT {
      NothingReported(s.tr);
    } else {
      ReportedAfterReleases(s.tr, mods);
      FlushKeepsReported(c, s.(tr := ReleaseKeys(s.tr, mods)), now);
    }
  }

  lemma LeavingReportsNothing(s: RState)
    requires QuietAtHome(s)
    ensures Reported(LeaveTarget(s).0.tr) == {}
  {
    ReleasedIsIdle(s.tr);
    hide AllReleased;
    NothingReported(LeaveTarget(s).0.tr);
  }

  lemma SameReported(t: TState, mac: bool)
    ensures Reported(t.(mac := mac)) == Reported(t)
  {
  }

  lemma KeyReports(c: Config, s: RState, wake: Wake, m: Meaning)
    requires QuietAtHome(s) && IsKey(wake)
    ensures m in Reported(Step(c, s, wake).0.tr) <==>
      Takes(s, wake, m) || (m in Reported(s.tr) && !Drops(s, wake, m))
  {
    hide KeyStep, FlushRemote, Reported, Meanings, MeaningOf, ReleaseComboMods, HandleMeaning, LeaveTarget;
    var key, value := wake.input.key, wake.input.value;
    var (fsm, v) := KeyStep(s.fsm, key, value);
    var s1 := s.(fsm := fsm);
    if v.Pass? {
      ReportedExactly(s.tr, MeaningOf(key), value, m);
      NothingIfUp(s.tr, m);
    } else if v.IsCombo() {
      ComboReports(c, s1, v.heldMods, wake.at, m);
      LeavingReportsNothing(s1);
      if v.SwitchTo? {
        SameReported(LeaveTarget(s1).0.tr, v.slot in c.macSlots);
      }
    }
  }

  lemma NothingIfUp(t: TState, m: Meaning)
    ensures t.AllUp() ==> m !in Reported(t)
  {
  }

  /** What is reported after an event: what it takes, and what was reported and is not dropped. */
  lemma StepReports(c: Config, s: RState, wake: Wake, m: Meaning)
    requires QuietAtHome(s)
    ensures m in Reported(Step(c, s, wake).0.tr) <==>
      Takes(s, wake, m) || (m in Reported(s.tr) && !Drops(s, wake, m))
  {
    if IsKey(wake) {
      KeyReports(c, s, wake, m);
    } else {
      hide FlushRemote, FlushMouseNow, Reported, KeyStep;
      match wake {
        case Arrived(RelInput(axis, delta), _, _) => RelKeepsReported(s.tr, axis, delta);
        case Arrived(_, at, _) => FlushKeepsReported(c, s, at);
        case FlushTimer(at) => FlushKeepsReported(c, s, at);
        case RepairTimer(_) =>
      }
    }
  }

  // ---- Whole runs ------------------------------------------------------------------------

  lemma FlushKeepsQuiet(c: Config, s: RState, now: int)
    ensures FlushRemote(c, s, now).0.slot == s.slot
    ensures FlushMouseNow(s, now).0.slot == s.slot && (s.tr.AllUp() ==> FlushMouseNow(s, now).0.tr.AllUp())
  {
    hide MouseReports, SendAll;
  }

  lemma StepKeepsQuiet(c: Config, s: RState, wake: Wake)
    requires QuietAtHome(s)
    ensures QuietAtHome(Step(c, s, wake).0)
  {
    hide FlushRemote, FlushMouseNow, KeyStep, HandleMeaning, ReleaseKeys, AllReleased;
    ReleasedIsIdle(s.tr);
    match wake {
      case Arrived(KeyInput(key, value), at, _) =>
        var (fsm, v) := KeyStep(s.fsm, key, value);
        if v.IsCombo() {
          FlushKeepsQuiet(c, s.(fsm := fsm, tr := ReleaseKeys(s.tr, v.heldMods)), at);
        }
      case Arrived(_, at, _) => FlushKeepsQuiet(c, s, at);
      case FlushTimer(at) => FlushKeepsQuiet(c, s, at);
      case RepairTimer(_) =>
    }
  }

  /** Among the first `n` events one takes this meaning, and none since drops it. */
  ghost predicate Standing(c: Config, s: RState, wakes: seq<Wake>, n: nat, m: Meaning)
    requires n <= |wakes|
  {
    exists i: nat :: i < n && Takes(StateAt(c, s, wakes, i), wakes[i], m) && Undropped(c, s, wakes, i + 1, n, m)
  }

  ghost predicate Undropped(c: Config, s: RState, wakes: seq<Wake>, i: nat, n: nat, m: Meaning)
    requires n <= |wakes|
  {
    forall j: nat :: i <= j < n ==> !Drops(StateAt(c, s, wakes, j), wakes[j], m)
  }

  lemma StandingStep(c: Config, s: RState, wakes: seq<Wake>, n: nat, m: Meaning)
    requires n < |wakes|
    ensures Standing(c, s, wakes, n + 1, m) <==>
      Takes(StateAt(c, s, wakes, n), wakes[n], m)
      || (Standing(c, s, wakes, n, m) && !Drops(StateAt(c, s, wakes, n), wakes[n], m))
  {
    hide Takes, Drops, StateAt;
    if Takes(StateAt(c, s, wakes, n), wakes[n], m) {
      assert Undropped(c, s, wakes, n + 1, n + 1, m);
    } else if Standing(c, s, wakes, n + 1, m) {
      var i: nat :| i < n + 1 && Takes(StateAt(c, s, wakes, i), wakes[i], m)
                 && Undropped(c, s, wakes, i + 1, n + 1, m);
      assert Undropped(c, s, wakes, i + 1, n, m);
    } else if Standing(c, s, wakes, n, m) {
      var i: nat :| i < n && Takes(StateAt(c, s, wakes, i), wakes[i], m) && Undropped(c, s, wakes, i + 1, n, m);
      assert !Undropped(c, s, wakes, i + 1, n + 1, m);
    }
  }

  /**
   Over any run from a state that reports nothing, such as a start or right after a switch: something is
   reported if and only if a passed press took it and nothing has dropped it since.
  */
  lemma {:induction false} ReportedIsStanding(c: Config, s: RState, wakes: seq<Wake>, n: nat, m: Meaning)
    requires n <= |wakes| && s.tr.AllUp()
    ensures QuietAtHome(StateAt(c, s, wakes, n))
    ensures m in Reported(StateAt(c, s, wakes, n).tr) <==> Standing(c, s, wakes, n, m)
  {
    hide Step, Reported, Takes, Drops;
    if n == 0 {
      NothingReported(s.tr);
    } else {
      ReportedIsStanding(c, s, wakes, n - 1, m);
      StepReports(c, StateAt(c, s, wakes, n - 1), wakes[n - 1], m);
      StepKeepsQuiet(c, StateAt(c, s, wakes, n - 1), wakes[n - 1]);
      hide QuietAtHome, Standing;
      StandingStep(c, s, wakes, n - 1, m);
    }
  }

  /** The state after each event, and the run so far. */
  lemma {:induction false} RunIsStateAt(c: Config, s: RState, wakes: seq<Wake>, n: nat)
    requires n <= |wakes|
    ensures StateAt(c, s, wakes, n) == Run(c, s, wakes[..n]).0
  {
    hide Step;
    if n > 0 {
      RunIsStateAt(c, s, wakes, n - 1);
      assert wakes[..n] == wakes[..n - 1] + [wakes[n - 1]];
      LastReports.RunInParts(c, s, wakes[..n - 1], [wakes[n - 1]]);
      assert [wakes[n - 1]][1..] == [];
    }
  }

  // ---- What the host shows ---------------------------------------------------------------

  /** The host, whose layout may swap Left Alt and Left GUI, takes this to be held. */
  predicate HostHolds(v: HostView, mac: bool, m: Meaning) {
    match m
    case ModifierBit(bit) => bit in if mac then SwapBits(v.mods) else v.mods
    case KeyUsage(usage) => usage in v.usages
    case Button(bit) => bit in v.buttons
    case ConsumerUsage(code) => code != 0 && v.consumer == code
    case NoMeaning => false
  }

  lemma ShownIsReported(t: TState, v: HostView, m: Meaning)
    requires v == Shown(t)
    ensures HostHolds(v, t.mac, m) <==> m in Reported(t)
  {
    SwapBitsTwice(t.mods);
    hide SwapBits;
  }

  /**
   From the start of the hub through any tidy run to a SYN on a remote slot: its host takes a modifier,
   key, button or consumer key to be held if and only if a passed press took it and nothing has dropped
   it since.
  */
  lemma HostShowsWhatIsDown(c: Config, macros: map<KeyCombo, nat>, slot: nat, now: int, wakes: seq<Wake>,
                            at: int, bound: set<nat>, m: Meaning)
    requires var s0 := Start(c, macros, slot, now);
      TidyRun(c, s0, wakes) && StateAt(c, s0, wakes, |wakes|).slot != LOCAL_SLOT
    ensures var s0 := Start(c, macros, slot, now);
      var (s, out) := Run(c, s0, wakes);
      var w := ObserveAll(QUIET, out + Step(c, s, Arrived(Syn, at, bound)).1);
      HostHolds(w.View(s.slot), s.slot in c.macSlots, m) <==> Standing(c, s0, wakes, |wakes|, m)
  {
    var s0 := Start(c, macros, slot, now);
    StartIsInSync(c, macros, slot, now);
    assert s0.tr.AllUp();
    hide Start, Run, TidyRun, ObserveAll, Standing, StateAt, Reported, HostHolds, QuietAtHome;
    ReportedIsStanding(c, s0, wakes, |wakes|, m);
    RunIsStateAt(c, s0, wakes, |wakes|);
    assert wakes[..|wakes|] == wakes;
    var (s, out) := Run(c, s0, wakes);
    RunKeepsSync(c, s0, QUIET, wakes);
    SynShowsReported(c, s, ObserveAll(QUIET, out), at, bound, m);
    ObserveConcat(QUIET, out, Step(c, s, Arrived(Syn, at, bound)).1);
  }

  lemma SynShowsReported(c: Config, s: RState, w: World, at: int, bound: set<nat>, m: Meaning)
    requires InSync(c, s, w) && s.slot != LOCAL_SLOT
    ensures var w' := ObserveAll(w, Step(c, s, Arrived(Syn, at, bound)).1);
      HostHolds(w'.View(s.slot), s.slot in c.macSlots, m) <==> m in Reported(s.tr)
  {
    FlushReaches(c, s, at, w);
    hide FlushRemote, ObserveAll, Shown, HostHolds, Reported;
    ShownIsReported(s.tr, Shown(s.tr), m);
  }

  // ---- The keys themselves ---------------------------------------------------------------

  /** A modifier, or a button with one spelling: no other key means the same, and there is always room. */
  predicate OwnMeaning(key: KeyCode) {
    MeaningOf(key).ModifierBit? || (MeaningOf(key).Button? && MeaningOf(key).bit < 3)
  }

  /** The key was passed on since the target was last left. */
  ghost predicate PassedHere(c: Config, s: RState, wakes: seq<Wake>, n: nat, key: KeyCode)
    requires n <= |wakes|
  {
    exists i: nat :: i < n && Presses(StateAt(c, s, wakes, i), wakes[i], key) && Staying(c, s, wakes, i + 1, n)
  }

  ghost predicate Staying(c: Config, s: RState, wakes: seq<Wake>, i: nat, n: nat)
    requires n <= |wakes|
  {
    forall j: nat :: i <= j < n ==> !LeavesTarget(StateAt(c, s, wakes, j), wakes[j])
  }

  lemma PassedStep(c: Config, s: RState, wakes: seq<Wake>, n: nat, key: KeyCode)
    requires n < |wakes|
    ensures PassedHere(c, s, wakes, n + 1, key) <==>
      Presses(StateAt(c, s, wakes, n), wakes[n], key)
      || (PassedHere(c, s, wakes, n, key) && !LeavesTarget(StateAt(c, s, wakes, n), wakes[n]))
  {
    hide Presses, LeavesTarget, StateAt;
    if Presses(StateAt(c, s, wakes, n), wakes[n], key) {
      assert Staying(c, s, wakes, n + 1, n + 1);
    } else if PassedHere(c, s, wakes, n + 1, key) {
      var i: nat :| i < n + 1 && Presses(StateAt(c, s, wakes, i), wakes[i], key) && Staying(c, s, wakes, i + 1, n + 1);
      assert Staying(c, s, wakes, i + 1, n);
    } else if PassedHere(c, s, wakes, n, key) {
      var i: nat :| i < n && Presses(StateAt(c, s, wakes, i), wakes[i], key) && Staying(c, s, wakes, i + 1, n);
      assert !Staying(c, s, wakes, i + 1, n + 1);
    }
  }

  /** A press, a release or a repeat, and presses are of keys that are up. */
  predicate Plain(s: RState, wake: Wake) {
    IsKey(wake) ==> wake.input.value in {0, 1, 2} && (wake.input.value == 1 ==> wake.input.key !in s.fsm.held)
  }

  /** The key is let go, or a combination names it, or the target is left. */
  predicate LetsGo(s: RState, wake: Wake, key: KeyCode) {
    IsKey(wake)
    && var v := VerdictOn(s, wake);
       (v.Pass? && wake.input.value == 0 && wake.input.key == key) || v.Names(key) || LeavesTarget(s, wake)
  }

  /** Unless pressed now, a key stays live exactly as long as it is neither let go nor named. */
  lemma LiveStep(c: Config, s: RState, wake: Wake, key: KeyCode)
    requires SuppressedAreHeld(s.fsm) && Plain(s, wake)
    requires !Presses(s, wake, key) && !LeavesTarget(s, wake)
    ensures key in Live(Step(c, s, wake).0.fsm) <==> key in Live(s.fsm) && !LetsGo(s, wake, key)
  {
    StepTouchesFsm(c, s, wake);
    hide Step, MeaningOf;
    if IsKey(wake) {
      SuppressionStep(s.fsm, wake.input.key, wake.input.value, key);
    }
  }

  /** For a meaning of its own, dropping the meaning is letting go of the key. */
  lemma OwnDrops(s: RState, wake: Wake, key: KeyCode)
    requires OwnMeaning(key) && Plain(s, wake)
    ensures Drops(s, wake, MeaningOf(key)) <==> LetsGo(s, wake, key)
  {
    hide MeaningOf, KeyStep;
    if IsKey(wake) {
      if MeaningOf(wake.input.key) == MeaningOf(key) {
        MeaningsAreDistinct(wake.input.key, key);
      }
      if VerdictOn(s, wake).IsCombo() {
        NamedByMeaning(VerdictOn(s, wake), key);
      }
    }
  }

  lemma NamedByMeaning(v: Verdict, key: KeyCode)
    requires v.IsCombo() && OwnMeaning(key)
    ensures MeaningOf(key) in Meanings(ToSet(v.heldMods)) <==> key in v.heldMods
  {
    hide MeaningOf;
    if MeaningOf(key) in Meanings(ToSet(v.heldMods)) {
      var k :| k in ToSet(v.heldMods) && MeaningOf(k) == MeaningOf(key);
      MeaningsAreDistinct(k, key);
    }
  }

  lemma PressMakesLive(c: Config, s: RState, wake: Wake, key: KeyCode)
    requires Presses(s, wake, key)
    ensures key in Live(Step(c, s, wake).0.fsm) && !LeavesTarget(s, wake)
    ensures OwnMeaning(key) && s.slot != LOCAL_SLOT ==> Takes(s, wake, MeaningOf(key))
  {
    StepTouchesFsm(c, s, wake);
    hide Step, MeaningOf;
  }

  /** The slot changes with the target left, and then only. */
  lemma SlotStays(c: Config, s: RState, wake: Wake)
    ensures Step(c, s, wake).0.slot == if LeavesTarget(s, wake) then VerdictOn(s, wake).slot else s.slot
  {
    hide KeyStep, KeyboardFlushed, ConsumerFlushed, MouseFlushed, AllReleased, ReleaseKeys, TranslateKey;
  }

  lemma StepKeepsSuppressedHeld(c: Config, s: RState, wake: Wake)
    requires SuppressedAreHeld(s.fsm)
    ensures SuppressedAreHeld(Step(c, s, wake).0.fsm)
  {
    StepTouchesFsm(c, s, wake);
    hide Step, KeyStep, SuppressedAreHeld;
    if IsKey(wake) {
      SuppressedStayHeld(s.fsm, wake.input.key, wake.input.value);
    }
  }

  /** The key that was passed here is down for the target exactly if it is live. */
  predicate Follows(s: RState, key: KeyCode, here: bool) {
    if s.slot == LOCAL_SLOT then key in s.localHeld <==> key in Live(s.fsm) && here
    else OwnMeaning(key) ==> (MeaningOf(key) in Reported(s.tr) <==> key in Live(s.fsm) && here)
  }

  lemma RemoteKeyFollows(c: Config, s: RState, wake: Wake, key: KeyCode, here: bool, hereNow: bool)
    requires SuppressedAreHeld(s.fsm) && Plain(s, wake) && QuietAtHome(s) && OwnMeaning(key)
    requires s.slot != LOCAL_SLOT && !LeavesTarget(s, wake)
    requires MeaningOf(key) in Reported(s.tr) <==> key in Live(s.fsm) && here
    requires hereNow <==> Presses(s, wake, key) || here
    ensures var s1 := Step(c, s, wake).0; MeaningOf(key) in Reported(s1.tr) <==> key in Live(s1.fsm) && hereNow
  {
    StepReports(c, s, wake, MeaningOf(key));
    if Presses(s, wake, key) {
      PressMakesLive(c, s, wake, key);
    } else {
      TakenByItsKey(s, wake, key);
      LiveStep(c, s, wake, key);
      OwnDrops(s, wake, key);
    }
    hide Step, Reported, Takes, Live, Plain, MeaningOf;
  }

  /** On the hub itself the sink has the keys that were passed to it and not let go. */
  lemma SinkStep(c: Config, s: RState, wake: Wake, key: KeyCode)
    requires s.slot == LOCAL_SLOT && !LeavesTarget(s, wake) && Plain(s, wake)
    ensures key in Step(c, s, wake).0.localHeld <==>
      Presses(s, wake, key) || (key in s.localHeld && !LetsGo(s, wake, key))
  {
    hide KeyStep, MouseFlushed, FlushRemote;
  }

  lemma LocalKeyFollows(c: Config, s: RState, wake: Wake, key: KeyCode, here: bool, hereNow: bool)
    requires SuppressedAreHeld(s.fsm) && Plain(s, wake) && s.slot == LOCAL_SLOT && !LeavesTarget(s, wake)
    requires key in s.localHeld <==> key in Live(s.fsm) && here
    requires hereNow <==> Presses(s, wake, key) || here
    ensures var s1 := Step(c, s, wake).0; key in s1.localHeld <==> key in Live(s1.fsm) && hereNow
  {
    SinkStep(c, s, wake, key);
    if Presses(s, wake, key) {
      PressMakesLive(c, s, wake, key);
    } else {
      LiveStep(c, s, wake, key);
    }
    hide Step, Live, Plain;
  }

  lemma LeavingHoldsNothing(c: Config, s: RState, wake: Wake)
    requires LeavesTarget(s, wake) && QuietAtHome(s) && (s.slot != LOCAL_SLOT ==> s.localHeld == {})
    ensures Reported(Step(c, s, wake).0.tr) == {} && Step(c, s, wake).0.localHeld == {}
  {
    hide KeyStep, AllReleased, Reported;
    var s1 := s.(fsm := KeyStep(s.fsm, wake.input.key, wake.input.value).0);
    LeavingReportsNothing(s1);
    SameReported(LeaveTarget(s1).0.tr, VerdictOn(s, wake).slot in c.macSlots);
  }

  lemma KeyFollows(c: Config, s: RState, wake: Wake, key: KeyCode, here: bool, hereNow: bool)
    requires SuppressedAreHeld(s.fsm) && Plain(s, wake) && QuietAtHome(s) && Follows(s, key, here)
    requires s.slot != LOCAL_SLOT ==> s.localHeld == {}
    requires hereNow <==> Presses(s, wake, key) || (here && !LeavesTarget(s, wake))
    ensures Follows(Step(c, s, wake).0, key, hereNow)
  {
    SlotStays(c, s, wake);
    hide Step, Reported, Live, Plain, MeaningOf, LeavesTarget, Presses, OwnMeaning;
    if LeavesTarget(s, wake) {
      LeavingHoldsNothing(c, s, wake);
      LeavingPressesNothing(s, wake, key);
    } else if s.slot == LOCAL_SLOT {
      LocalKeyFollows(c, s, wake, key, here, hereNow);
    } else if OwnMeaning(key) {
      RemoteKeyFollows(c, s, wake, key, here, hereNow);
    }
  }

  lemma LeavingPressesNothing(s: RState, wake: Wake, key: KeyCode)
    requires LeavesTarget(s, wake)
    ensures !Presses(s, wake, key)
  {
    hide KeyStep;
  }

  lemma StepKeepsSinkEmpty(c: Config, s: RState, wake: Wake)
    requires s.slot != LOCAL_SLOT ==> s.localHeld == {}
    ensures var s1 := Step(c, s, wake).0; s1.slot != LOCAL_SLOT ==> s1.localHeld == {}
  {
    hide KeyStep, KeyboardFlushed, ConsumerFlushed, MouseFlushed, AllReleased, ReleaseKeys, TranslateKey;
  }

  lemma TakenByItsKey(s: RState, wake: Wake, key: KeyCode)
    requires OwnMeaning(key) && !Presses(s, wake, key)
    ensures !Takes(s, wake, MeaningOf(key))
  {
    if Takes(s, wake, MeaningOf(key)) {
      MeaningsAreDistinct(wake.input.key, key);
    }
    hide MeaningOf;
  }

  ghost predicate PlainRun(c: Config, s: RState, wakes: seq<Wake>) {
    forall i: nat :: i < |wakes| ==> Plain(StateAt(c, s, wakes, i), wakes[i])
  }

  /**
   What the target is told follows the keys: on the hub itself every key is down on the sink, and on a remote
   slot every modifier and plain button is reported, exactly if it was passed on here and is still live.
  */
  lemma {:induction false} TargetFollowsTheKeys(c: Config, s: RState, wakes: seq<Wake>, n: nat, key: KeyCode)
    requires n <= |wakes| && s.tr.AllUp() && s.localHeld == {} && SuppressedAreHeld(s.fsm) && PlainRun(c, s, wakes)
    ensures var s1 := StateAt(c, s, wakes, n);
      SuppressedAreHeld(s1.fsm) && QuietAtHome(s1) && (s1.slot != LOCAL_SLOT ==> s1.localHeld == {})
      && Follows(s1, key, PassedHere(c, s, wakes, n, key))
  {
    hide Step, Presses, LeavesTarget, SuppressedAreHeld, Reported, MeaningOf, Live, OwnMeaning;
    if n == 0 {
      NothingReported(s.tr);
    } else {
      hide Follows;
      TargetFollowsTheKeys(c, s, wakes, n - 1, key);
      var before, wake := StateAt(c, s, wakes, n - 1), wakes[n - 1];
      assert Plain(before, wake);
      hide Plain, PlainRun, PassedHere;
      PassedStep(c, s, wakes, n - 1, key);
      StepKeepsQuiet(c, before, wake);
      StepKeepsSinkEmpty(c, before, wake);
      StepKeepsSuppressedHeld(c, before, wake);
      KeyFollows(c, before, wake, key, PassedHere(c, s, wakes, n - 1, key), PassedHere(c, s, wakes, n, key));
    }
  }

  /**
   So the host shows the modifiers as they are: from the start of the hub through any tidy run of plain
   key events to a SYN on a remote slot, its host takes a modifier to be held if and only if the key was
   passed on since the slot became active and is still down and not claimed by a combination.
  */
  lemma HostShowsTheModifiersHeld(c: Config, macros: map<KeyCombo, nat>, slot: nat, now: int, wakes: seq<Wake>,
                                  at: int, bound: set<nat>, key: KeyCode)
    requires var s0 := Start(c, macros, slot, now);
      TidyRun(c, s0, wakes) && PlainRun(c, s0, wakes) && StateAt(c, s0, wakes, |wakes|).slot != LOCAL_SLOT
    requires OwnMeaning(key)
    ensures var s0 := Start(c, macros, slot, now);
      var (s, out) := Run(c, s0, wakes);
      var w := ObserveAll(QUIET, out + Step(c, s, Arrived(Syn, at, bound)).1);
      HostHolds(w.View(s.slot), s.slot in c.macSlots, MeaningOf(key)) <==>
      key in s.fsm.held && key !in s.fsm.suppressed && PassedHere(c, s0, wakes, |wakes|, key)
  {
    var s0 := Start(c, macros, slot, now);
    assert s0.tr.AllUp() && s0.localHeld == {} && SuppressedAreHeld(s0.fsm);
    hide Start, Run, TidyRun, ObserveAll, Standing, StateAt, Reported, HostHolds, QuietAtHome, PlainRun, PassedHere,
      MeaningOf, OwnMeaning, SuppressedAreHeld;
    HostShowsWhatIsDown(c, macros, slot, now, wakes, at, bound, MeaningOf(key));
    ReportedIsStanding(c, s0, wakes, |wakes|, MeaningOf(key));
    TargetFollowsTheKeys(c, s0, wakes, |wakes|, key);
    RunIsStateAt(c, s0, wakes, |wakes|);
    assert wakes[..|wakes|] == wakes;
  }

  /** And the sink has the keys as they are, at every moment at which the hub itself is the target. */
  lemma SinkHasTheKeysHeld(c: Config, macros: map<KeyCombo, nat>, slot: nat, now: int, wakes: seq<Wake>, key: KeyCode)
    requires var s0 := Start(c, macros, slot, now);
      TidyRun(c, s0, wakes) && PlainRun(c, s0, wakes) && StateAt(c, s0, wakes, |wakes|).slot == LOCAL_SLOT
    ensures var s0 := Start(c, macros, slot, now);
      var (s, out) := Run(c, s0, wakes);
      key in ObserveAll(QUIET, out).down <==>
      key in s.fsm.held && key !in s.fsm.suppressed && PassedHere(c, s0, wakes, |wakes|, key)
  {
    var s0 := Start(c, macros, slot, now);
    StartIsInSync(c, macros, slot, now);
    assert s0.tr.AllUp() && s0.localHeld == {} && SuppressedAreHeld(s0.fsm);
    hide Start, Run, TidyRun, ObserveAll, StateAt, Reported, QuietAtHome, PlainRun, PassedHere, SuppressedAreHeld;
    TargetFollowsTheKeys(c, s0, wakes, |wakes|, key);
    RunIsStateAt(c, s0, wakes, |wakes|);
    assert wakes[..|wakes|] == wakes;
    RunKeepsSync(c, s0, QUIET, wakes);
  }
}
