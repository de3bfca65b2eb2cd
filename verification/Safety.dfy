/**
 The two safety arguments together, from the start of the hub to what the hosts and the sink are
 left with: if every physical key is up, nothing is held anywhere.
*/
module Safety {
  import opened Keys
  import opened HidReports
  import opened RouterSpec
  import opened Slots
  import opened NoStuckKeys
  import opened HostViews

  /** Timers fire when armed, and only keys that are up are pressed. */
  predicate WellFormed(c: Config, s: RState, wakes: seq<Wake>)
    decreases |wakes|
  {
    wakes == []
    || (Enabled(s, wakes[0])
        && (wakes[0].Arrived? && wakes[0].input.KeyInput? && wakes[0].input.value == 1 ==>
              wakes[0].input.key !in s.fsm.held)
        && WellFormed(c, Step(c, s, wakes[0]).0, wakes[1..]))
  }

  lemma {:induction false} WellFormedIsClean(c: Config, s: RState, wakes: seq<Wake>)
    requires Justified(s) && WellFormed(c, s, wakes)
    ensures CleanRun(c, s, wakes)
    decreases |wakes|
  {
    hide Step, Justified, Strands;
    if wakes != [] {
      var wake := wakes[0];
      if wake.Arrived? && wake.input.KeyInput? {
        FreshPressesStrandNothing(s, wake.input.key, wake.input.value, wake.bound);
      }
      StepKeepsJustified(c, s, wake);
      WellFormedIsClean(c, Step(c, s, wake).0, wakes[1..]);
    }
  }

  /** After a well-formed and tidy run, the hub is justified and agrees with the world. */
  lemma RunIsSafe(c: Config, macros: map<KeyCombo, nat>, slot: nat, now: int, wakes: seq<Wake>)
    requires var s0 := Start(c, macros, slot, now); WellFormed(c, s0, wakes) && TidyRun(c, s0, wakes)
    ensures var (s, out) := Run(c, Start(c, macros, slot, now), wakes);
      Justified(s) && InSync(c, s, ObserveAll(QUIET, out))
  {
    var s0 := Start(c, macros, slot, now);
    StartIsJustified(c, macros, slot, now);
    StartIsInSync(c, macros, slot, now);
    hide Start, Justified, InSync, Run, TidyRun, CleanRun, WellFormed, ObserveAll;
    WellFormedIsClean(c, s0, wakes);
    RunKeepsJustified(c, s0, wakes);
    RunKeepsSync(c, s0, QUIET, wakes);
  }

  /**
   From a start, over any run that presses only keys that are up and switches only with no release
   unsent: whenever all physical keys are up, the next SYN leaves no key down on the local sink and
   no modifier, key, button or consumer usage held on any host, whatever switches, macros and
   claimed combinations came before.
  */
  lemma AllKeysUpMeansNothingHeldAnywhere(c: Config, macros: map<KeyCombo, nat>, slot: nat, now: int, wakes: seq<Wake>,
                                          at: int, bound: set<nat>, host: nat)
    requires var s0 := Start(c, macros, slot, now); WellFormed(c, s0, wakes) && TidyRun(c, s0, wakes)
    requires Run(c, Start(c, macros, slot, now), wakes).0.fsm.held == {}
    ensures var (s, out) := Run(c, Start(c, macros, slot, now), wakes);
      var more := Step(c, s, Arrived(Syn, at, bound)).1;
      var w := ObserveAll(QUIET, out + more);
      w.down == {} && w.View(host) == NOTHING_HELD
  {
    var (s, out) := Run(c, Start(c, macros, slot, now), wakes);
    var w := ObserveAll(QUIET, out);
    RunIsSafe(c, macros, slot, now, wakes);
    AllUpMeansNothingHeld(s);
    hide Run, Start, WellFormed, TidyRun, Justified;
    var more := Step(c, s, Arrived(Syn, at, bound)).1;
    ObserveConcat(QUIET, out, more);
    if s.slot == LOCAL_SLOT {
      hide FlushRemote, ObserveAll;
      assert more == [] && ObserveAll(w, []) == w by { ObserveNothing(w); }
      assert SwapBits({}) == {};
    } else {
      SyncedSynShowsNothing(c, s, w, at, bound, host);
    }
  }

  lemma ObserveNothing(w: World)
    ensures ObserveAll(w, []) == w
  {
  }

  lemma SyncedSynShowsNothing(c: Config, s: RState, w: World, at: int, bound: set<nat>, host: nat)
    requires InSync(c, s, w) && s.slot != LOCAL_SLOT && s.tr.AllUp()
    ensures var w1 := ObserveAll(w, Step(c, s, Arrived(Syn, at, bound)).1);
      w1.down == {} && w1.View(host) == NOTHING_HELD
  {
    AfterSynHostShowsPhysicalState(c, s, w, at, bound);
    hide InSync, FlushRemote, ObserveAll;
    var s1 := Step(c, s, Arrived(Syn, at, bound)).0;
    var v := ObserveAll(w, Step(c, s, Arrived(Syn, at, bound)).1).View(s1.slot);
    assert SwapBits({}) == {};
    if s1.slot in c.macSlots {
      SwapBitsTwice(v.mods);
    }
  }
}
