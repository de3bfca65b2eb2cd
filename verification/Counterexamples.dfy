/**
 Two short runs that show why the hypotheses of the safety theorems are needed: each starts
 from a fresh hub, and ends with something still held that no physical key accounts for.
*/
module Counterexamples {
  import opened Wrappers
  import opened Keys
  import opened Hotkey
  import opened HidReports
  import opened Keymap
  import opened Translate
  import opened RouterSpec
  import opened NoStuckKeys
  import opened HostViews

  const KEY_F2: KeyCode := 60
  const KEY_F3: KeyCode := 61
  const BTN_LEFT: KeyCode := 0x110
  const SETUP := Config(16_666, {})

  function Press(key: KeyCode): Wake {
    Arrived(KeyInput(key, 1), 0, {2, 3})
  }

  function Lift(key: KeyCode): Wake {
    Arrived(KeyInput(key, 0), 0, {2, 3})
  }

  lemma RunCons(s: RState, wake: Wake, rest: seq<Wake>)
    ensures var (s1, out) := Step(SETUP, s, wake);
      Run(SETUP, s, [wake] + rest) == (Run(SETUP, s1, rest).0, out + Run(SETUP, s1, rest).1)
  {
    assert ([wake] + rest)[1..] == rest;
  }

  // ---- A release that is still unsent at the switch --------------------------------------

  const BUTTON_RUN: seq<Wake> :=
    [Press(BTN_LEFT)] + ([Arrived(Syn, 0, {2, 3})] + ([Press(KEY_LEFTCTRL)] + ([Press(KEY_LEFTALT)]
    + ([Lift(BTN_LEFT)] + ([Press(KEY_F3)] + [])))))

  /** On remote slot 2, with these keys down; no key is claimed and no timer armed. */
  predicate Typing(s: RState, held: set<KeyCode>) {
    s.slot == 2 && s.fsm == Fsm(map[], held, {}, None) && s.repair == None
  }

  lemma KeyPasses(s: RState, held: set<KeyCode>, key: KeyCode)
    requires Typing(s, held) && (FkeySlot(key).None? || !AnyHeld(Alt, held + {key}))
    ensures var (s', out) := Step(SETUP, s, Press(key));
      out == [] && Typing(s', held + {key}) && s'.tr == TranslateKey(s.tr, key, 1)
    ensures var (s', out) := Step(SETUP, s, Lift(key));
      out == [] && Typing(s', held - {key}) && s'.tr == TranslateKey(s.tr, key, 0)
  {
    hide TranslateKey;
    var none: set<KeyCode> := {};
    assert none - {key} == none;
  }

  lemma SynReports(s: RState, held: set<KeyCode>, w: World)
    requires Typing(s, held) && UpToDate(s.tr, w.View(2))
    ensures var (s', out) := Step(SETUP, s, Arrived(Syn, 0, {2, 3}));
      && Typing(s', held) && s'.tr.buttons == s.tr.buttons
      && ObserveAll(w, out).View(2).buttons == s.tr.buttons
  {
    hide FlushRemote;
    FlushReaches(SETUP, s, 0, w);
  }

  lemma ThreeKeys(t: TState)
    ensures TranslateKey(t, BTN_LEFT, 1).buttons == t.buttons + {0}
    ensures TranslateKey(t, BTN_LEFT, 0).buttons == t.buttons - {0}
    ensures TranslateKey(t, KEY_LEFTCTRL, 1).buttons == TranslateKey(t, KEY_LEFTALT, 1).buttons == t.buttons
  {
    assert MeaningOf(BTN_LEFT) == Button(0);
    assert MeaningOf(KEY_LEFTCTRL) == ModifierBit(0) && MeaningOf(KEY_LEFTALT) == ModifierBit(2);
  }

  /** With Ctrl and Alt down, F3 switches to slot 3, and no button report is sent if none is held. */
  lemma SwitchWithoutButtons(s: RState, held: set<KeyCode>, w: World)
    requires Typing(s, held) && KEY_LEFTCTRL in held && KEY_LEFTALT in held && s.tr.buttons == {}
    ensures var (s', out) := Step(SETUP, s, Press(KEY_F3));
      s'.slot == 3 && s'.fsm.held == held + {KEY_F3} && ObserveAll(w, out).View(2).buttons == w.View(2).buttons
  {
    hide AllReleased, SendAll;
    assert KEY_LEFTCTRL in Ctrl.Keys() && KEY_LEFTALT in Alt.Keys();
    assert AnyHeld(Ctrl, held + {KEY_F3}) && AnyHeld(Alt, held + {KEY_F3});
    var (fsm, v) := KeyStep(s.fsm, KEY_F3, 1);
    assert v.SwitchTo? && v.slot == 3;
    var (left, out) := LeaveTarget(s.(fsm := fsm));
    ButtonsUnreported(w, s.tr);
    var rest := [SlotChanged(3)] + (if v.fireHooks then [HookSlot(3)] else []);
    assert out + [SlotChanged(3)] + (if v.fireHooks then [HookSlot(3)] else []) == out + rest;
    SilentTail(w, out, rest);
  }

  lemma ButtonsUnreported(w: World, t: TState)
    requires t.buttons == {}
    ensures ObserveAll(w, SendAll(2, AllReleased(t).1)).View(2).buttons == w.View(2).buttons
  {
    var v := w.View(2);
    var k := if t.mods != {} || t.keys != {} then [KeyboardReport({}, {})] else [];
    var m := if t.consumer != 0 then [ConsumerReport(0)] else [];
    ObserveSends(w, 2, AllReleased(t).1);
    assert AllReleased(t).1 == k + m;
    SeeConcat(v, k, m);
    SeeOne(v, KeyboardReport({}, {}));
    SeeOne(SeeAll(v, k), ConsumerReport(0));
  }

  lemma StartTypes()
    ensures Typing(Start(SETUP, map[], 2, 0), {}) && Start(SETUP, map[], 2, 0).tr == FRESH
    ensures UpToDate(TranslateKey(FRESH, BTN_LEFT, 1), QUIET.View(2))
  {
    IdleIsUpToDate(FRESH);
    KeysKeepUpToDate(FRESH, MeaningOf(BTN_LEFT), 1, QUIET.View(2));
  }

  /** A run whose first step is silent, or whose only sounds come first and last. */
  lemma RunOfSix(s0: RState, k0: Wake, k1: Wake, k2: Wake, k3: Wake, k4: Wake, k5: Wake) returns (s: seq<RState>)
    ensures |s| == 7 && s[0] == s0
    ensures s[1] == Step(SETUP, s[0], k0).0 && s[2] == Step(SETUP, s[1], k1).0 && s[3] == Step(SETUP, s[2], k2).0
    ensures s[4] == Step(SETUP, s[3], k3).0 && s[5] == Step(SETUP, s[4], k4).0 && s[6] == Step(SETUP, s[5], k5).0
    ensures var wakes := [k0] + ([k1] + ([k2] + ([k3] + ([k4] + ([k5] + [])))));
      Run(SETUP, s0, wakes) == (s[6],
        Step(SETUP, s[0], k0).1 + (Step(SETUP, s[1], k1).1 + (Step(SETUP, s[2], k2).1
        + (Step(SETUP, s[3], k3).1 + (Step(SETUP, s[4], k4).1 + (Step(SETUP, s[5], k5).1 + []))))))
  {
    hide Step;
    var s1 := Step(SETUP, s0, k0).0;
    var s2 := Step(SETUP, s1, k1).0;
    var s3 := Step(SETUP, s2, k2).0;
    var s4 := Step(SETUP, s3, k3).0;
    var s5 := Step(SETUP, s4, k4).0;
    var s6 := Step(SETUP, s5, k5).0;
    RunCons(s5, k5, []);
    RunCons(s4, k4, [k5] + []);
    RunCons(s3, k3, [k4] + ([k5] + []));
    RunCons(s2, k2, [k3] + ([k4] + ([k5] + [])));
    RunCons(s1, k1, [k2] + ([k3] + ([k4] + ([k5] + []))));
    RunCons(s0, k0, [k1] + ([k2] + ([k3] + ([k4] + ([k5] + [])))));
    s := [s0, s1, s2, s3, s4, s5, s6];
  }

  /**
   The left button goes down and is reported; it is let go, and before the mouse's SYN arrives
   the keyboard switches from slot 2 to slot 3. Host 2 is left with the button held.
  */
  lemma UnsentButtonReleaseSticks()
    ensures var (s, out) := Run(SETUP, Start(SETUP, map[], 2, 0), BUTTON_RUN);
      BTN_LEFT !in s.fsm.held && s.slot == 3 && ObserveAll(QUIET, out).View(2).buttons == {0}
  {
    hide TranslateKey, Step, Observe, Typing, Run;
    var s := RunOfSix(Start(SETUP, map[], 2, 0),
                      Press(BTN_LEFT), Arrived(Syn, 0, {2, 3}), Press(KEY_LEFTCTRL), Press(KEY_LEFTALT),
                      Lift(BTN_LEFT), Press(KEY_F3));
    StartTypes();
    KeyPasses(s[0], {}, BTN_LEFT);
    ThreeKeys(s[0].tr);
    var held := {} + {BTN_LEFT};
    SynReports(s[1], held, QUIET);
    KeyPasses(s[2], held, KEY_LEFTCTRL);
    ThreeKeys(s[2].tr);
    KeyPasses(s[3], held + {KEY_LEFTCTRL}, KEY_LEFTALT);
    ThreeKeys(s[3].tr);
    KeyPasses(s[4], held + {KEY_LEFTCTRL} + {KEY_LEFTALT}, BTN_LEFT);
    ThreeKeys(s[4].tr);
    var out2 := Step(SETUP, s[1], Arrived(Syn, 0, {2, 3})).1;
    var out6 := Step(SETUP, s[5], Press(KEY_F3)).1;
    SwitchWithoutButtons(s[5], held + {KEY_LEFTCTRL} + {KEY_LEFTALT} - {BTN_LEFT}, ObserveAll(QUIET, out2));
    ObserveConcat(QUIET, out2, out6);
    assert [] + (out2 + ([] + ([] + ([] + (out6 + []))))) == out2 + out6;
  }

  // ---- A trigger that was already down ---------------------------------------------------

  const REPRESS_RUN: seq<Wake> :=
    [Press(KEY_F2)] + ([Press(KEY_LEFTCTRL)] + ([Press(KEY_LEFTALT)] + ([Press(KEY_F2)]
    + ([Lift(KEY_F2)] + ([Arrived(OtherInput, 0, {2, 3})] + [])))))

  lemma F2SendsUsage()
    ensures MeaningOf(KEY_F2).KeyUsage?
  {
    FunctionKeysInOrder(2);
  }

  /** Pressing F2 again with Ctrl and Alt down re-asserts slot 2; the usage that is down stays down. */
  lemma ReassertKeepsUsage(s: RState, held: set<KeyCode>, u: byte)
    requires Typing(s, held) && KEY_LEFTCTRL in held && KEY_LEFTALT in held && KEY_F2 in held
    requires MeaningOf(KEY_F2) == KeyUsage(u) && u in s.tr.keys
    ensures var (s1, _) := Step(SETUP, s, Press(KEY_F2));
      var (s2, _) := Step(SETUP, s1, Lift(KEY_F2));
      var (s3, _) := Step(SETUP, s2, Arrived(OtherInput, 0, {2, 3}));
      s3.slot == 2 && s3.fsm.held == held - {KEY_F2} && u in s3.tr.keys
  {
    hide FlushRemote, MeaningOf, ReleaseKeys;
    assert KEY_LEFTCTRL in Ctrl.Keys() && KEY_LEFTALT in Alt.Keys();
    assert held + {KEY_F2} == held;
    assert AnyHeld(Ctrl, held) && AnyHeld(Alt, held);
    var (fsm, v) := KeyStep(s.fsm, KEY_F2, 1);
    assert v.SwitchTo? && v.slot == 2 && KEY_F2 in fsm.suppressed;
    UsageSurvives(s.tr, v.heldMods, u);
    var calm := s.(fsm := fsm, tr := ReleaseKeys(s.tr, v.heldMods));
    FlushKeepsKeys(calm);
  }

  lemma FlushKeepsKeys(s: RState)
    ensures var s' := FlushRemote(SETUP, s, 0).0;
      s'.tr.keys == s.tr.keys && s'.fsm == s.fsm && s'.slot == s.slot
  {
    hide MouseReports, SendAll;
  }

  lemma {:induction false} UsageSurvives(t: TState, mods: seq<KeyCode>, u: byte)
    requires u in t.keys && forall m :: m in mods ==> IsModifier(m)
    ensures u in ReleaseKeys(t, mods).keys
    decreases |mods|
  {
    hide MeaningOf;
    if mods != [] {
      assert mods[0] in mods && forall m :: m in mods[1..] ==> m in mods;
      UsageSurvives(TranslateKey(t, mods[0], 0), mods[1..], u);
    }
  }

  /** F2 is down when Ctrl+Alt+F2 is completed by a second F2 press: letting go of it is swallowed. */
  lemma RepressedTriggerSticks()
    ensures MeaningOf(KEY_F2).KeyUsage?
    ensures var (s, out) := Run(SETUP, Start(SETUP, map[], 2, 0), REPRESS_RUN);
      s.slot == 2 && KEY_F2 !in s.fsm.held && MeaningOf(KEY_F2).usage in s.tr.keys && !Justified(s)
  {
    hide TranslateKey, Step, Observe, Typing, Run, MeaningOf;
    var s := RunOfSix(Start(SETUP, map[], 2, 0),
                      Press(KEY_F2), Press(KEY_LEFTCTRL), Press(KEY_LEFTALT), Press(KEY_F2),
                      Lift(KEY_F2), Arrived(OtherInput, 0, {2, 3}));
    StartTypes();
    F2SendsUsage();
    var u := MeaningOf(KEY_F2).usage;
    KeyPasses(s[0], {}, KEY_F2);
    KeyPasses(s[1], {} + {KEY_F2}, KEY_LEFTCTRL);
    KeyPasses(s[2], {} + {KEY_F2} + {KEY_LEFTCTRL}, KEY_LEFTALT);
    PressedUsage(s[0].tr, u);
    var held := {} + {KEY_F2} + {KEY_LEFTCTRL} + {KEY_LEFTALT};
    ReassertKeepsUsage(s[3], held, u);
    UnjustifiedUsage(s[6], u);
  }

  /** A reported usage whose one key is up is not justified. */
  lemma UnjustifiedUsage(s: RState, u: byte)
    requires u in s.tr.keys && MeaningOf(KEY_F2) == KeyUsage(u) && KEY_F2 !in s.fsm.held
    ensures !Justified(s)
  {
    hide MeaningOf;
    HeldIsReported(s.tr);
    if KeyUsage(u) in Meanings(Live(s.fsm)) {
      var j :| j in Live(s.fsm) && MeaningOf(j) == KeyUsage(u);
      MeaningsAreDistinct(j, KEY_F2);
      assert false;
    }
  }

  lemma PressedUsage(t: TState, u: byte)
    requires MeaningOf(KEY_F2) == KeyUsage(u) && t.keys == {}
    ensures u in TranslateKey(TranslateKey(TranslateKey(t, KEY_F2, 1), KEY_LEFTCTRL, 1), KEY_LEFTALT, 1).keys
  {
    assert MeaningOf(KEY_LEFTCTRL) == ModifierBit(0) && MeaningOf(KEY_LEFTALT) == ModifierBit(2);
  }
}