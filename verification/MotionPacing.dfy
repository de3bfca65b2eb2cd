/**
 Motion is paced: a batch of mouse reports that carries no button change goes out at least one
 interval after the batch before it, no motion is forgotten, and so a window of k intervals
 holds at most k + 1 such batches.
*/
module MotionPacing {
  import opened Wrappers
  import opened Keys
  import opened Hotkey
  import opened HidReports
  import opened Translate
  import opened RouterSpec
  import opened Slots
  import opened HostViews

  /** A set deadline is one interval after the last batch and only exists on a remote slot. */
  predicate Paced(c: Config, s: RState) {
    s.flushAt.Some? ==> s.flushAt.value == s.lastSent + c.interval && s.slot != LOCAL_SLOT
  }

  predicate HasMouse(out: seq<Effect<Report>>) {
    exists i :: 0 <= i < |out| && out[i].Send? && out[i].frame.MouseReport?
  }

  /** A batch flushed in this step; the release report of a real switch is not one. */
  predicate Batch(c: Config, s: RState, wake: Wake) {
    !Switches(s, wake) && HasMouse(Step(c, s, wake).1)
  }

  predicate MotionBatch(c: Config, s: RState, wake: Wake) {
    Batch(c, s, wake) && !s.tr.buttonsDirty
  }

  // ---- The flush -------------------------------------------------------------------------

  lemma NoMouse(out: seq<Effect<Report>>)
    requires forall e :: e in out ==> !(e.Send? && e.frame.MouseReport?)
    ensures !HasMouse(out)
  {
  }

  lemma MouseInConcat(a: seq<Effect<Report>>, b: seq<Effect<Report>>)
    ensures HasMouse(a + b) <==> HasMouse(a) || HasMouse(b)
  {
    if i :| 0 <= i < |a| && a[i].Send? && a[i].frame.MouseReport? {
      assert (a + b)[i] == a[i];
    }
    if i :| 0 <= i < |b| && b[i].Send? && b[i].frame.MouseReport? {
      assert (a + b)[|a| + i] == b[i];
    }
  }

  /** What one call may do to the pacing state. */
  predicate KeepsPace(c: Config, s: RState, s': RState, out: seq<Effect<Report>>, now: int) {
    && (s'.lastSent == s.lastSent || s'.lastSent == now)
    && (HasMouse(out) ==> s'.lastSent == now)
    && (HasMouse(out) && !s.tr.buttonsDirty ==> now >= s.lastSent + c.interval)
    && s'.slot == s.slot
    && (s.slot != LOCAL_SLOT ==> Paced(c, s'))
  }

  lemma FlushNowKeepsPace(c: Config, s: RState, now: int)
    requires s.tr.buttonsDirty || now >= s.lastSent + c.interval
    ensures KeepsPace(c, s, FlushMouseNow(s, now).0, FlushMouseNow(s, now).1, now)
    ensures FlushMouseNow(s, now).0.tr.pending == STILL
  {
    hide MouseReports;
    var reports := MouseFlushed(s.tr).1;
    if reports == [] {
      assert SendAll<Report>(s.slot, reports) == [];
    }
  }

  lemma FlushKeepsPace(c: Config, s: RState, now: int)
    requires Paced(c, s) && s.slot != LOCAL_SLOT
    ensures KeepsPace(c, s, FlushRemote(c, s, now).0, FlushRemote(c, s, now).1, now)
    ensures FlushRemote(c, s, now).0.tr.pending != STILL ==> FlushRemote(c, s, now).0.flushAt.Some?
  {
    hide FlushMouseNow, HasMouse;
    var (t1, keyboard) := KeyboardFlushed(s.tr);
    var (t2, consumer) := ConsumerFlushed(t1);
    var s2 := s.(tr := t2);
    var sent := SendAll(s.slot, keyboard) + SendAll(s.slot, consumer);
    NoMouse(sent);
    if t2.buttonsDirty || now >= s.lastSent + c.interval {
      FlushNowKeepsPace(c, s2, now);
      MouseInConcat(sent, FlushMouseNow(s2, now).1);
    }
  }

  lemma {:induction false} ReleasesKeepButtons(t: TState, keys: seq<KeyCode>)
    requires forall k :: k in keys ==> IsModifier(k)
    ensures ReleaseKeys(t, keys).buttonsDirty == t.buttonsDirty
    decreases |keys|
  {
    if keys != [] {
      assert keys[0] in keys && forall k :: k in keys[1..] ==> k in keys;
      ReleasesKeepButtons(TranslateKey(t, keys[0], 0), keys[1..]);
    }
  }

  lemma ComboKeepsPace(c: Config, s: RState, mods: seq<KeyCode>, now: int)
    requires Paced(c, s) && forall k :: k in mods ==> IsModifier(k)
    ensures var (s', out) := ReleaseComboMods(c, s, mods, now);
      KeepsPace(c, s, s', out, now) && Paced(c, s')
  {
    hide FlushRemote;
    if s.slot == LOCAL_SLOT {
      NoMouse(ReleaseComboMods(c, s, mods, now).1);
    } else {
      ReleasesKeepButtons(s.tr, mods);
      FlushKeepsPace(c, s.(tr := ReleaseKeys(s.tr, mods)), now);
    }
  }

  // ---- One step --------------------------------------------------------------------------

  lemma HandleKeepsPace(c: Config, s: RState, key: KeyCode, value: int, now: int, bound: set<nat>)
    requires Paced(c, s) && !Switches(s, Arrived(KeyInput(key, value), now, bound))
    ensures var (s', out) := Handle(c, s, KeyInput(key, value), now, bound);
      KeepsPace(c, s, s', out, now) && Paced(c, s')
  {
    hide ReleaseComboMods, HasMouse, TranslateKey;
    var (fsm, v) := KeyStep(s.fsm, key, value);
    var s1 := s.(fsm := fsm);
    if v.IsCombo() {
      ComboKeepsPace(c, s1, v.heldMods, now);
      var out := ReleaseComboMods(c, s1, v.heldMods, now).1;
      if v.RunMacro? {
        QuietEnd(out, [HookMacro(v.index)]);
      } else {
        var tail := [Repaint] + (if v.fireHooks then [HookSlot(v.slot)] else []);
        QuietEnd(out, tail);
        QuietEnd(out, [OpenPairingWindow(v.slot)]);
        assert out + [Repaint] + (if v.fireHooks then [HookSlot(v.slot)] else []) == out + tail;
      }
    } else {
      NoMouse(Handle(c, s, KeyInput(key, value), now, bound).1);
    }
  }

  lemma QuietEnd(out: seq<Effect<Report>>, end: seq<Effect<Report>>)
    requires forall e :: e in end ==> !e.Send?
    ensures HasMouse(out + end) == HasMouse(end + out) == HasMouse(out)
  {
    NoMouse(end);
    MouseInConcat(out, end);
    MouseInConcat(end, out);
  }

  /** A real switch disarms the deadline and leaves the clock alone. */
  lemma SwitchKeepsPace(c: Config, s: RState, key: KeyCode, value: int, now: int, bound: set<nat>)
    requires Paced(c, s) && Switches(s, Arrived(KeyInput(key, value), now, bound))
    ensures var s' := Handle(c, s, KeyInput(key, value), now, bound).0;
      Paced(c, s') && s'.lastSent == s.lastSent
  {
    hide KeyStep, AllReleased;
  }

  /** Deadlines stay exact; a batch resets the clock; a motion batch waits out the interval. */
  lemma StepKeepsPace(c: Config, s: RState, wake: Wake)
    requires Paced(c, s) && Enabled(s, wake)
    ensures var s' := Step(c, s, wake).0;
      && Paced(c, s')
      && (s'.lastSent == s.lastSent || s'.lastSent == wake.at)
      && (Batch(c, s, wake) ==> s'.lastSent == wake.at)
      && (MotionBatch(c, s, wake) ==> wake.at >= s.lastSent + c.interval)
  {
    hide KeyStep, FlushRemote, FlushMouseNow, HasMouse, Handle;
    match wake
    case FlushTimer(at) => FlushNowKeepsPace(c, s, at);
    case RepairTimer(_) => NoMouse(FireRepair(s).1);
    case Arrived(input, at, bound) =>
      InputKeepsPace(c, s, input, at, bound);
  }

  lemma InputKeepsPace(c: Config, s: RState, input: Input, now: int, bound: set<nat>)
    requires Paced(c, s)
    ensures var (s', out) := Handle(c, s, input, now, bound);
      && Paced(c, s')
      && (s'.lastSent == s.lastSent || s'.lastSent == now)
      && (!Switches(s, Arrived(input, now, bound)) && HasMouse(out) ==> s'.lastSent == now)
      && (!Switches(s, Arrived(input, now, bound)) && HasMouse(out) && !s.tr.buttonsDirty ==>
            now >= s.lastSent + c.interval)
  {
    hide KeyStep, FlushRemote, HasMouse;
    match input
    case Syn =>
      NoMouse([]);
      if s.slot != LOCAL_SLOT {
        FlushKeepsPace(c, s, now);
      }
    case RelInput(axis, delta) => NoMouse(Handle(c, s, input, now, bound).1);
    case OtherInput => NoMouse([]);
    case KeyInput(key, value) =>
      if Switches(s, Arrived(input, now, bound)) {
        SwitchKeepsPace(c, s, key, value, now, bound);
      } else {
        HandleKeepsPace(c, s, key, value, now, bound);
      }
  }

  /** After a SYN on a remote slot, motion that was held back has a deadline. */
  lemma SynNeverForgetsMotion(c: Config, s: RState, at: int, bound: set<nat>)
    requires Paced(c, s) && s.slot != LOCAL_SLOT
    ensures var s' := Step(c, s, Arrived(Syn, at, bound)).0;
      s'.tr.pending != STILL ==> s'.flushAt == Some(s'.lastSent + c.interval)
  {
    hide FlushRemote;
    FlushKeepsPace(c, s, at);
  }

  /** A SYN holds motion back exactly if no button changed and the interval is not over: the first goes out at once. */
  lemma SynHoldsBackExactlyWhen(c: Config, s: RState, at: int, bound: set<nat>)
    requires s.slot != LOCAL_SLOT
    ensures Step(c, s, Arrived(Syn, at, bound)).0.tr.pending ==
      if s.tr.buttonsDirty || at >= s.lastSent + c.interval then STILL else s.tr.pending
  {
    hide MouseReports;
  }

  lemma FlushSendsOrKeepsTheClock(c: Config, s: RState, now: int)
    ensures HasMouse(FlushMouseNow(s, now).1) || FlushMouseNow(s, now).0.lastSent == s.lastSent
    ensures HasMouse(FlushRemote(c, s, now).1) || FlushRemote(c, s, now).0.lastSent == s.lastSent
  {
    FlushSends(s, now);
    var (t1, keyboard) := KeyboardFlushed(s.tr);
    var (t2, consumer) := ConsumerFlushed(t1);
    var s2 := s.(tr := t2);
    FlushSends(s2, now);
    MouseInConcat(SendAll(s.slot, keyboard) + SendAll(s.slot, consumer), FlushMouseNow(s2, now).1);
    hide FlushMouseNow, HasMouse;
  }

  lemma FlushSends(s: RState, now: int)
    ensures HasMouse(FlushMouseNow(s, now).1) || FlushMouseNow(s, now).0.lastSent == s.lastSent
  {
    hide MouseReports;
    var reports := MouseFlushed(s.tr).1;
    if reports != [] {
      assert reports[0].MouseReport? by { AllMouse(s.tr.buttons, s.tr.pending); }
      assert SendAll(s.slot, reports)[0] == Send(s.slot, reports[0]);
    }
  }

  lemma AllMouse(buttons: set<nat>, m: Motion)
    ensures MouseReports(buttons, m)[0].MouseReport?
  {
  }

  /** The clock of the last batch moves only with a batch. */
  lemma ClockMovesWithBatches(c: Config, s: RState, wake: Wake)
    requires Step(c, s, wake).0.lastSent != s.lastSent
    ensures HasMouse(Step(c, s, wake).1)
  {
    hide KeyStep, FlushRemote, FlushMouseNow, HasMouse, ReleaseKeys, AllReleased, TranslateKey;
    match wake {
      case Arrived(KeyInput(key, value), at, bound) =>
        var (fsm, v) := KeyStep(s.fsm, key, value);
        if v.IsCombo() {
          var s1 := s.(fsm := fsm, tr := ReleaseKeys(s.tr, v.heldMods));
          FlushSendsOrKeepsTheClock(c, s1, at);
          var out := FlushRemote(c, s1, at).1;
          if v.RunMacro? {
            QuietEnd(out, [HookMacro(v.index)]);
          } else {
            var tail := [Repaint] + (if v.fireHooks then [HookSlot(v.slot)] else []);
            QuietEnd(out, tail);
            QuietEnd(out, [OpenPairingWindow(v.slot)]);
            assert out + [Repaint] + (if v.fireHooks then [HookSlot(v.slot)] else []) == out + tail;
          }
        }
      case Arrived(_, at, _) => FlushSendsOrKeepsTheClock(c, s, at);
      case FlushTimer(at) => FlushSendsOrKeepsTheClock(c, s, at);
      case RepairTimer(_) =>
    }
  }

  /** The interval is the longest whole number of microseconds at which the rate is still met. */
  lemma IntervalFitsTheRate(rateHz: nat)
    ensures rateHz > 0 ==> MouseInterval(rateHz) * rateHz <= 1_000_000 < (MouseInterval(rateHz) + 1) * rateHz
    ensures MouseInterval(0) == 1_000_000
  {
  }

  /** When the deadline comes, everything pending goes out. */
  lemma DeadlineFlushesAll(c: Config, s: RState, at: int)
    requires Paced(c, s) && Enabled(s, FlushTimer(at))
    ensures Step(c, s, FlushTimer(at)).0.tr.pending == STILL && at >= s.lastSent + c.interval
  {
    FlushNowKeepsPace(c, s, at);
  }

  // ---- Whole runs ------------------------------------------------------------------------

  /** The loop's clock never runs backwards and timers fire when armed. */
  predicate Timely(c: Config, s: RState, wakes: seq<Wake>)
    decreases |wakes|
  {
    wakes == []
    || (Enabled(s, wakes[0]) && s.lastSent <= wakes[0].at
        && Timely(c, Step(c, s, wakes[0]).0, wakes[1..]))
  }

  datatype Sending = Sending(at: int, motion: bool) {
    /** How long it waits after the batch before it. */
    function Gap(interval: int): int {
      if motion then interval else 0
    }
  }

  /** All batches of the run, button batches included. */
  function Batches(c: Config, s: RState, wakes: seq<Wake>): seq<Sending>
    decreases |wakes|
  {
    if wakes == [] then []
    else (if Batch(c, s, wakes[0]) then [Sending(wakes[0].at, MotionBatch(c, s, wakes[0]))] else [])
         + Batches(c, Step(c, s, wakes[0]).0, wakes[1..])
  }

  /** Each batch comes after the one before it, the first after `last`; a motion batch at least an interval after. */
  predicate MotionWaits(batches: seq<Sending>, last: int, interval: int) {
    (batches != [] ==> batches[0].at >= last + batches[0].Gap(interval))
    && forall i :: 0 < i < |batches| ==> batches[i].at >= batches[i - 1].at + batches[i].Gap(interval)
  }

  lemma OneBatchMore(first: Sending, rest: seq<Sending>, last: int, interval: int)
    requires MotionWaits(rest, first.at, interval) && first.at >= last + first.Gap(interval)
    ensures MotionWaits([first] + rest, last, interval)
  {
    var batches := [first] + rest;
    forall i | 0 < i < |batches| ensures batches[i].at >= batches[i - 1].at + batches[i].Gap(interval) {
      assert batches[i] == rest[i - 1] && batches[i - 1] == if i == 1 then first else rest[i - 2];
    }
  }

  lemma WaitsFromEarlier(batches: seq<Sending>, last: int, earlier: int, interval: int)
    requires MotionWaits(batches, last, interval) && earlier <= last
    ensures MotionWaits(batches, earlier, interval)
  {
  }

  /**
   Over any run, every motion batch is at least one interval after the batch before it, whether that
   carried a button change or not, and the first is from the last batch before the run.
  */
  lemma {:induction false} MotionBatchesAreSpaced(c: Config, s: RState, wakes: seq<Wake>)
    requires Paced(c, s) && Timely(c, s, wakes)
    ensures MotionWaits(Batches(c, s, wakes), s.lastSent, c.interval)
    decreases |wakes|
  {
    hide Step, Batch, MotionBatch, Paced;
    if wakes != [] {
      var s1 := Step(c, s, wakes[0]).0;
      StepKeepsPace(c, s, wakes[0]);
      MotionBatchesAreSpaced(c, s1, wakes[1..]);
      var rest := Batches(c, s1, wakes[1..]);
      if Batch(c, s, wakes[0]) {
        OneBatchMore(Sending(wakes[0].at, MotionBatch(c, s, wakes[0])), rest, s.lastSent, c.interval);
      } else {
        assert Batches(c, s, wakes) == rest;
        WaitsFromEarlier(rest, s1.lastSent, s.lastSent, c.interval);
      }
    }
  }

  /** How many of the batches are motion batches. */
  function MotionCount(batches: seq<Sending>): nat {
    if batches == [] then 0
    else MotionCount(batches[..|batches| - 1]) + (if batches[|batches| - 1].motion then 1 else 0)
  }

  /** From one batch to a later one it takes an interval for each motion batch in between and for the last. */
  lemma {:induction false} MotionTakesTime(batches: seq<Sending>, last: int, interval: int, i: nat, j: nat)
    requires MotionWaits(batches, last, interval) && i <= j < |batches|
    ensures batches[j].at >= batches[i].at + MotionCount(batches[i + 1..j + 1]) * interval
    decreases j
  {
    if i < j {
      MotionTakesTime(batches, last, interval, i, j - 1);
      var between := batches[i + 1..j + 1];
      assert between[..|between| - 1] == batches[i + 1..j];
      OneIntervalMore(MotionCount(batches[i + 1..j]), interval);
    }
  }

  lemma OneIntervalMore(n: int, interval: int)
    ensures (n + 1) * interval == n * interval + interval
  {
  }

  lemma {:induction false} CountFromTheFirst(batches: seq<Sending>)
    requires batches != []
    ensures MotionCount(batches) <= MotionCount(batches[1..]) + 1
  {
    var n := |batches| - 1;
    if n > 0 {
      CountFromTheFirst(batches[..n]);
      assert batches[1..][..n - 1] == batches[..n][1..];
    } else {
      assert batches[..0] == [];
    }
  }

  lemma MoreGapsAreLonger(n: int, k: int, gap: int)
    requires gap > 0
    ensures n > k ==> n * gap > k * gap
  {
    if n > k {
      assert (n - k) * gap > 0;
    }
  }

  /** Of the batches of any run that fall within k intervals, at most k + 1 are motion batches. */
  lemma WindowHoldsFewBatches(c: Config, s: RState, wakes: seq<Wake>, i: nat, j: nat, k: nat)
    requires Paced(c, s) && Timely(c, s, wakes) && c.interval > 0
    requires var batches := Batches(c, s, wakes);
      i <= j < |batches| && batches[j].at - batches[i].at <= k * c.interval
    ensures MotionCount(Batches(c, s, wakes)[i..j + 1]) <= k + 1
  {
    hide Batches, Timely, Paced, MotionCount;
    var batches := Batches(c, s, wakes);
    MotionBatchesAreSpaced(c, s, wakes);
    MotionTakesTime(batches, s.lastSent, c.interval, i, j);
    CountFromTheFirst(batches[i..j + 1]);
    assert batches[i..j + 1][1..] == batches[i + 1..j + 1];
    MoreGapsAreLonger(MotionCount(batches[i + 1..j + 1]), k, c.interval);
  }
}
