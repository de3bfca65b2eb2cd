/**
 Motion through the router: while a remote slot stays active, what was moved on each axis is what its
 reports carry plus what is still pending. On the hub itself every movement and every passed key
 event goes to the sink as it came.
*/
module RouterMotion {
  import opened Keys
  import opened Hotkey
  import opened HidReports
  import opened Translate
  import opened RouterSpec
  import opened Slots
  import opened LastReports
  import opened PassedKeys
  import TranslateRuns

  function Delta(wake: Wake, axis: Axis): int {
    if wake.Arrived? && wake.input.RelInput? && wake.input.axis == axis then wake.input.delta else 0
  }

  /** The movement of one event. */
  function Moved(wake: Wake): Motion {
    Motion(Delta(wake, RelX), Delta(wake, RelY), Delta(wake, RelWheel))
  }

  function MovedBy(wakes: seq<Wake>): Motion {
    if wakes == [] then STILL else Moved(wakes[0]).Plus(MovedBy(wakes[1..]))
  }

  // ---- What a step sends -----------------------------------------------------------------

  lemma {:induction false} SentToConcat<F>(a: seq<Effect<F>>, b: seq<Effect<F>>, slot: nat)
    ensures SentTo(a + b, slot) == SentTo(a, slot) + SentTo(b, slot)
    decreases |a|
  {
    if a == [] {
      assert a + b == b;
    } else {
      assert (a + b)[1..] == a[1..] + b;
      SentToConcat(a[1..], b, slot);
    }
  }

  lemma {:induction false} SentToItself<F>(slot: nat, frames: seq<F>)
    ensures SentTo(SendAll(slot, frames), slot) == frames
    decreases |frames|
  {
    if frames != [] {
      assert SendAll(slot, frames)[0] == Send(slot, frames[0]);
      assert SendAll(slot, frames)[1..] == SendAll(slot, frames[1..]);
      SentToItself(slot, frames[1..]);
    }
  }

  lemma {:induction false} NothingSent<F>(out: seq<Effect<F>>, slot: nat)
    requires forall e :: e in out ==> !e.Send?
    ensures SentTo(out, slot) == []
  {
    if out != [] {
      assert out[0] in out && forall e :: e in out[1..] ==> e in out;
      NothingSent(out[1..], slot);
    }
  }

  /** The books of one step balance. */
  predicate Balances(t: TState, sent: seq<Report>, t1: TState, moved: Motion) {
    Travel(sent).Plus(t1.pending) == t.pending.Plus(moved)
  }

  lemma FlushBalances(s: RState, now: int)
    ensures var (s1, out) := FlushMouseNow(s, now); Balances(s.tr, SentTo(out, s.slot), s1.tr, STILL)
  {
    hide MouseReports, SendAll, Travel;
    var reports := MouseFlushed(s.tr).1;
    SentToItself(s.slot, reports);
    TranslateRuns.ReportsCarryTheMotion(s.tr.buttons, s.tr.pending);
    TranslateRuns.TravelOfOther(ConsumerReport(0));
  }

  lemma KeyFlushesTravelNowhere(t: TState, slot: nat)
    ensures var (t1, keyboard) := KeyboardFlushed(t);
      var (t2, consumer) := ConsumerFlushed(t1);
      t2.pending == t.pending && Travel(SentTo(SendAll(slot, keyboard) + SendAll(slot, consumer), slot)) == STILL
  {
    hide SendAll, Travel, SentTo, TState.KeyboardNow;
    var (t1, keyboard) := KeyboardFlushed(t);
    var (t2, consumer) := ConsumerFlushed(t1);
    assert t2.pending == t.pending;
    assert Travel(keyboard) == STILL by {
      KeyboardNowIsNoMotion(t);
      TranslateRuns.TravelOfOther(t.KeyboardNow());
    }
    assert Travel(consumer) == STILL by {
      TranslateRuns.TravelOfOther(ConsumerReport(t.consumer));
    }
    hide KeyboardFlushed, ConsumerFlushed;
    NothingMoves(keyboard, consumer, slot);
  }

  lemma KeyboardNowIsNoMotion(t: TState)
    ensures !t.KeyboardNow().MouseReport?
  {
  }

  lemma NothingMoves(a: seq<Report>, b: seq<Report>, slot: nat)
    requires Travel(a) == STILL && Travel(b) == STILL
    ensures Travel(SentTo(SendAll(slot, a) + SendAll(slot, b), slot)) == STILL
  {
    hide *;
    SentToItself(slot, a);
    SentToItself(slot, b);
    SentToConcat(SendAll(slot, a), SendAll(slot, b), slot);
    TravelConcat(a, b);
    TranslateRuns.PlusStill(STILL);
  }

  lemma RemoteFlushBalances(c: Config, s: RState, now: int)
    ensures var (s1, out) := FlushRemote(c, s, now); Balances(s.tr, SentTo(out, s.slot), s1.tr, STILL)
  {
    hide SendAll, Travel, SentTo, FlushMouseNow, KeyboardFlushed, ConsumerFlushed;
    var (t1, keyboard) := KeyboardFlushed(s.tr);
    var (t2, consumer) := ConsumerFlushed(t1);
    KeyFlushesTravelNowhere(s.tr, s.slot);
    var sent := SendAll(s.slot, keyboard) + SendAll(s.slot, consumer);
    var s2 := s.(tr := t2);
    FlushBalances(s2, now);
    var mouse := FlushMouseNow(s2, now).1;
    SentToConcat(sent, mouse, s.slot);
    TravelConcat(SentTo(sent, s.slot), SentTo(mouse, s.slot));
  }

  lemma {:induction false} ReleasesKeepPending(t: TState, keys: seq<KeyCode>)
    ensures ReleaseKeys(t, keys).pending == t.pending
    decreases |keys|
  {
    if keys != [] {
      ReleasesKeepPending(TranslateKey(t, keys[0], 0), keys[1..]);
    }
  }

  lemma ComboBalances(c: Config, s: RState, mods: seq<KeyCode>, now: int)
    requires s.slot != LOCAL_SLOT
    ensures var (s1, out) := ReleaseComboMods(c, s, mods, now); Balances(s.tr, SentTo(out, s.slot), s1.tr, STILL)
  {
    hide FlushRemote, ReleaseKeys, Travel;
    ReleasesKeepPending(s.tr, mods);
    RemoteFlushBalances(c, s.(tr := ReleaseKeys(s.tr, mods)), now);
  }

  lemma NoticesSendNothing<F>(out: seq<Effect<F>>, notices: seq<Effect<F>>, slot: nat)
    requires forall e :: e in notices ==> !e.Send?
    ensures SentTo(out + notices, slot) == SentTo(out, slot) == SentTo(notices + out, slot)
  {
    SentToConcat(out, notices, slot);
    SentToConcat(notices, out, slot);
    NothingSent(notices, slot);
    assert SentTo(out, slot) + [] == SentTo(out, slot) == [] + SentTo(out, slot);
  }

  lemma SilenceBalances(t: TState, out: seq<Effect<Report>>, slot: nat)
    requires forall e :: e in out ==> !e.Send?
    ensures Balances(t, SentTo(out, slot), t, STILL)
  {
    NothingSent(out, slot);
    TranslateRuns.TravelOfOther(ConsumerReport(0));
    hide Travel, SentTo;
  }

  lemma KeyBalances(c: Config, s: RState, wake: Wake)
    requires s.slot != LOCAL_SLOT && IsKey(wake) && !LeavesTarget(s, wake)
    ensures var (s1, out) := Step(c, s, wake); Balances(s.tr, SentTo(out, s.slot), s1.tr, STILL)
  {
    hide KeyStep, ReleaseComboMods, Travel, SentTo;
    var (fsm, v) := KeyStep(s.fsm, wake.input.key, wake.input.value);
    if v.IsCombo() {
      var s1 := s.(fsm := fsm);
      ComboBalances(c, s1, v.heldMods, wake.at);
      var out := ReleaseComboMods(c, s1, v.heldMods, wake.at).1;
      match v {
        case RunMacro(index, _) => NoticesSendNothing(out, [HookMacro(index)], s.slot);
        case SwitchTo(slot, fire, _) =>
          var tail := [Repaint] + (if fire then [HookSlot(slot)] else []);
          NoticesSendNothing(out, tail, s.slot);
          NoticesSendNothing(out, [OpenPairingWindow(slot)], s.slot);
          assert out + [Repaint] + (if fire then [HookSlot(slot)] else []) == out + tail;
      }
    } else {
      SilenceBalances(s.tr, [], s.slot);
    }
  }

  lemma StepBalances(c: Config, s: RState, wake: Wake)
    requires s.slot != LOCAL_SLOT && !LeavesTarget(s, wake)
    ensures var (s1, out) := Step(c, s, wake); Balances(s.tr, SentTo(out, s.slot), s1.tr, Moved(wake))
  {
    hide FlushRemote, FlushMouseNow, KeyStep, Travel, SentTo, LeavesTarget;
    SilenceBalances(s.tr, [], s.slot);
    if IsKey(wake) {
      KeyBalances(c, s, wake);
    } else {
      match wake {
        case Arrived(_, at, _) => RemoteFlushBalances(c, s, at);
        case FlushTimer(at) => FlushBalances(s, at);
        case RepairTimer(_) => SilenceBalances(s.tr, Step(c, s, wake).1, s.slot);
      }
    }
  }

  /** No event leaves the target. */
  predicate StaysOnTarget(c: Config, s: RState, wakes: seq<Wake>)
    decreases |wakes|
  {
    wakes == [] || (!LeavesTarget(s, wakes[0]) && StaysOnTarget(c, Step(c, s, wakes[0]).0, wakes[1..]))
  }

  /**
   While a remote slot stays active: on each axis, what its reports carry and what is still pending add up to
   what was pending before and what was moved.
  */
  lemma {:induction false} MotionReachesTheHost(c: Config, s: RState, wakes: seq<Wake>)
    requires s.slot != LOCAL_SLOT && StaysOnTarget(c, s, wakes)
    ensures var (s1, out) := Run(c, s, wakes);
      s1.slot == s.slot && Travel(SentTo(out, s.slot)).Plus(s1.tr.pending) == s.tr.pending.Plus(MovedBy(wakes))
    decreases |wakes|
  {
    hide Step, LeavesTarget, Moved, Motion.Plus;
    if wakes == [] {
      TranslateRuns.TravelOfOther(ConsumerReport(0));
      TranslateRuns.PlusStill(s.tr.pending);
    } else {
      hide Travel;
      var (s1, out) := Step(c, s, wakes[0]);
      var (s2, more) := Run(c, s1, wakes[1..]);
      SlotStays(c, s, wakes[0]);
      StepBalances(c, s, wakes[0]);
      MotionReachesTheHost(c, s1, wakes[1..]);
      SentToConcat(out, more, s.slot);
      TravelConcat(SentTo(out, s.slot), SentTo(more, s.slot));
      TranslateRuns.AccountsAdd(Travel(SentTo(out, s.slot)), Travel(SentTo(more, s.slot)), s.tr.pending, s1.tr.pending,
                                s2.tr.pending, Moved(wakes[0]), MovedBy(wakes[1..]));
    }
  }

  // ---- The sink --------------------------------------------------------------------------

  /** The events written to the sink, as they came in. */
  function SinkInputs(out: seq<Effect<Report>>): seq<Input>
    decreases |out|
  {
    if out == [] then [] else
    (match out[0]
     case SinkKey(key, value) => [KeyInput(key, value)]
     case SinkRel(axis, delta) => [RelInput(axis, delta)]
     case _ => []) + SinkInputs(out[1..])
  }

  /** The event is for the hub itself: it is motion, or a key event that passes. */
  function ForHome(s: RState, wake: Wake): seq<Input> {
    if s.slot == LOCAL_SLOT && wake.Arrived? && (wake.input.RelInput? || (IsKey(wake) && VerdictOn(s, wake).Pass?))
    then [wake.input] else []
  }

  function AllForHome(c: Config, s: RState, wakes: seq<Wake>): seq<Input>
    decreases |wakes|
  {
    if wakes == [] then [] else ForHome(s, wakes[0]) + AllForHome(c, Step(c, s, wakes[0]).0, wakes[1..])
  }

  lemma {:induction false} SinkInputsConcat(a: seq<Effect<Report>>, b: seq<Effect<Report>>)
    ensures SinkInputs(a + b) == SinkInputs(a) + SinkInputs(b)
    decreases |a|
  {
    if a == [] {
      assert a + b == b;
    } else {
      assert (a + b)[1..] == a[1..] + b;
      SinkInputsConcat(a[1..], b);
    }
  }

  predicate NotToSink(out: seq<Effect<Report>>) {
    forall e :: e in out ==> !e.SinkKey? && !e.SinkRel?
  }

  lemma {:induction false} NothingToSink(out: seq<Effect<Report>>)
    requires NotToSink(out)
    ensures SinkInputs(out) == []
  {
    if out != [] {
      assert out[0] in out && forall e :: e in out[1..] ==> e in out;
      NothingToSink(out[1..]);
    }
  }

  lemma FlushesSkipTheSink(c: Config, s: RState, now: int)
    ensures NotToSink(FlushMouseNow(s, now).1) && NotToSink(FlushRemote(c, s, now).1)
  {
    hide MouseReports, KeyboardFlushed, ConsumerFlushed;
  }

  lemma CombosSkipTheSink(c: Config, s: RState, mods: seq<KeyCode>, now: int)
    ensures NotToSink(ReleaseComboMods(c, s, mods, now).1) && NotToSink(LeaveTarget(s).1)
  {
    hide FlushRemote, ReleaseKeys, AllReleased;
    FlushesSkipTheSink(c, s.(tr := ReleaseKeys(s.tr, mods)), now);
  }

  lemma OneToSink(e: Effect<Report>)
    ensures SinkInputs([]) == [] && SinkInputs([e]) ==
      match e
      case SinkKey(key, value) => [KeyInput(key, value)]
      case SinkRel(axis, delta) => [RelInput(axis, delta)]
      case _ => []
  {
    assert [e][1..] == [];
  }

  lemma KeyToSink(c: Config, s: RState, wake: Wake)
    requires IsKey(wake)
    ensures SinkInputs(Step(c, s, wake).1) == ForHome(s, wake)
  {
    hide KeyStep, ReleaseComboMods, LeaveTarget, SinkInputs;
    var (fsm, v) := KeyStep(s.fsm, wake.input.key, wake.input.value);
    OneToSink(SinkKey(wake.input.key, wake.input.value));
    if v.IsCombo() {
      CombosSkipTheSink(c, s.(fsm := fsm), v.heldMods, wake.at);
      NothingToSink(Step(c, s, wake).1);
    }
  }

  lemma StepToSink(c: Config, s: RState, wake: Wake)
    ensures SinkInputs(Step(c, s, wake).1) == ForHome(s, wake)
  {
    if IsKey(wake) {
      KeyToSink(c, s, wake);
    } else {
      hide KeyStep, FlushRemote, FlushMouseNow, SinkInputs;
      OneToSink(Repaint);
      match wake {
        case Arrived(RelInput(axis, delta), _, _) => OneToSink(SinkRel(axis, delta));
        case Arrived(_, at, _) =>
          FlushesSkipTheSink(c, s, at);
          NothingToSink(Step(c, s, wake).1);
        case FlushTimer(at) =>
          FlushesSkipTheSink(c, s, at);
          NothingToSink(Step(c, s, wake).1);
        case RepairTimer(_) => NothingToSink(Step(c, s, wake).1);
      }
    }
  }

  /** Over any run the sink gets the motion and the passed key events of its turns, as they came and in order. */
  lemma {:induction false} SinkGetsWhatIsForIt(c: Config, s: RState, wakes: seq<Wake>)
    ensures SinkInputs(Run(c, s, wakes).1) == AllForHome(c, s, wakes)
    decreases |wakes|
  {
    hide Step, ForHome;
    if wakes != [] {
      var (s1, out) := Step(c, s, wakes[0]);
      StepToSink(c, s, wakes[0]);
      SinkGetsWhatIsForIt(c, s1, wakes[1..]);
      SinkInputsConcat(out, Run(c, s1, wakes[1..]).1);
    }
  }
}
