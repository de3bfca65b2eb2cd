/**
 What the translator keeps over any sequence of calls: motion is conserved, a flush emits as
 few reports as the 8-bit range allows, and the six-entry array is the set of held keys minus
 the presses that found it full.
*/
module TranslateRuns {
  import opened HidReports
  import opened Keymap
  import opened Translate

  datatype Call =
    | Key(m: Meaning, value: int)
    | Rel(axis: Axis, delta: int)
    | FlushKeyboard
    | FlushConsumer
    | FlushMouse
    | ReleaseAll
    | SetMacLayout(on: bool)

  function Apply(t: TState, call: Call): (TState, seq<Report>) {
    match call
    case Key(m, value) => (HandleMeaning(t, m, value), [])
    case Rel(axis, delta) => (TranslateRel(t, axis, delta), [])
    case FlushKeyboard => KeyboardFlushed(t)
    case FlushConsumer => ConsumerFlushed(t)
    case FlushMouse => MouseFlushed(t)
    case ReleaseAll => AllReleased(t)
    case SetMacLayout(on) => (t.(mac := on), [])
  }

  function Run(t: TState, calls: seq<Call>): (TState, seq<Report>)
    decreases |calls|
  {
    if calls == [] then (t, [])
    else
      var (t1, out) := Apply(t, calls[0]);
      var (t2, more) := Run(t1, calls[1..]);
      (t2, out + more)
  }

  // ---- Motion ----------------------------------------------------------------------------

  function Delta(call: Call, axis: Axis): int {
    if call.Rel? && call.axis == axis then call.delta else 0
  }

  /** The motion one call feeds in, axis by axis. */
  function FedBy(call: Call): Motion {
    Motion(Delta(call, RelX), Delta(call, RelY), Delta(call, RelWheel))
  }

  function Fed(calls: seq<Call>): Motion {
    if calls == [] then STILL else FedBy(calls[0]).Plus(Fed(calls[1..]))
  }

  predicate InRange(m: Motion) {
    -127 <= m.dx <= 127 && -127 <= m.dy <= 127 && -127 <= m.wheel <= 127
  }

  /** The reports of one flush carry all pending motion, each of them within -127..127. */
  lemma {:induction false} ReportsCarryTheMotion(buttons: set<nat>, m: Motion)
    ensures Travel(MouseReports(buttons, m)) == m
    ensures forall r :: r in MouseReports(buttons, m) ==> r.MouseReport? && r.buttons == buttons && InRange(r.motion)
    decreases Size(m)
  {
    var first := MouseReport(buttons, Chunk(m));
    OneReportTravels(buttons, Chunk(m));
    ChunkAndRest(m);
    RestIsSmaller(m);
    hide Chunk, Rest, Travel, Size;
    if Rest(m) == STILL {
      assert MouseReports(buttons, m) == [first];
    } else {
      var more := MouseReports(buttons, Rest(m));
      ReportsCarryTheMotion(buttons, Rest(m));
      TravelConcat([first], more);
      assert MouseReports(buttons, m) == [first] + more;
    }
  }

  lemma OneReportTravels(buttons: set<nat>, m: Motion)
    ensures Travel([MouseReport(buttons, m)]) == m
  {
    assert [MouseReport(buttons, m)][1..] == [];
  }

  lemma ChunkAndRest(m: Motion)
    ensures InRange(Chunk(m)) && Chunk(m).Plus(Rest(m)) == m
    ensures Rest(m) == STILL ==> Chunk(m) == m
  {
  }

  lemma TravelOfOther(r: Report)
    requires !r.MouseReport?
    ensures Travel([r]) == STILL && Travel([]) == STILL
  {
    assert [r][1..] == [];
  }

  lemma FedOne(call: Call)
    ensures Fed([call]) == FedBy(call)
  {
    assert [call][1..] == [];
  }

  lemma ApplyConservesMotion(t: TState, call: Call)
    requires !call.ReleaseAll?
    ensures var (t', out) := Apply(t, call);
      Travel(out).Plus(t'.pending) == t.pending.Plus(Fed([call]))
  {
    hide Travel, Fed, MouseReports;
    FedOne(call);
    TravelOfOther(t.KeyboardNow());
    TravelOfOther(ConsumerReport(t.consumer));
    ReportsCarryTheMotion(t.buttons, t.pending);
  }

  /** Two accounts that balance one after the other balance together. */
  lemma AccountsAdd(out: Motion, more: Motion, p: Motion, p1: Motion, p2: Motion, fed: Motion, fedLater: Motion)
    requires out.Plus(p1) == p.Plus(fed) && more.Plus(p2) == p1.Plus(fedLater)
    ensures out.Plus(more).Plus(p2) == p.Plus(fed.Plus(fedLater))
  {
  }

  /** Emitted plus pending motion is what was pending before plus what was fed in. */
  lemma {:induction false} MotionConserved(t: TState, calls: seq<Call>)
    requires ReleaseAll !in calls
    ensures var (t', out) := Run(t, calls);
      Travel(out).Plus(t'.pending) == t.pending.Plus(Fed(calls))
    decreases |calls|
  {
    hide Apply, Travel;
    if calls == [] {
      TravelOfOther(ConsumerReport(0));
    } else {
      hide Motion.Plus;
      var (t1, out) := Apply(t, calls[0]);
      var (t2, more) := Run(t1, calls[1..]);
      ApplyConservesMotion(t, calls[0]);
      FedOne(calls[0]);
      MotionConserved(t1, calls[1..]);
      TravelConcat(out, more);
      AccountsAdd(Travel(out), Travel(more), t.pending, t1.pending, t2.pending, Fed([calls[0]]), Fed(calls[1..]));
    }
  }

  /** The motion that was pending at each release, which drops it. */
  function DroppedMotion(t: TState, calls: seq<Call>): Motion
    decreases |calls|
  {
    if calls == [] then STILL
    else (if calls[0].ReleaseAll? then t.pending else STILL).Plus(DroppedMotion(Apply(t, calls[0]).0, calls[1..]))
  }

  lemma DroppedMotionOne(t: TState, call: Call)
    ensures DroppedMotion(t, [call]) == if call.ReleaseAll? then t.pending else STILL
  {
    assert [call][1..] == [];
  }

  lemma ReleaseTravelsNowhere(t: TState)
    ensures Travel(AllReleased(t).1) == STILL && AllReleased(t).0.pending == STILL
  {
    var keyboard := if t.mods != {} || t.keys != {} then [KeyboardReport({}, {})] else [];
    var mouse := if t.buttons != {} then [MouseReport({}, STILL)] else [];
    var consumer := if t.consumer != 0 then [ConsumerReport(0)] else [];
    TravelOfOther(KeyboardReport({}, {}));
    TravelOfOther(ConsumerReport(0));
    OneReportTravels({}, STILL);
    TravelConcat(keyboard, mouse);
    TravelConcat(keyboard + mouse, consumer);
    hide Travel;
  }

  lemma PlusStill(m: Motion)
    ensures m.Plus(STILL) == m == STILL.Plus(m)
  {
  }

  lemma ApplyAccountsForMotion(t: TState, call: Call)
    ensures var (t', out) := Apply(t, call);
      Travel(out).Plus(DroppedMotion(t, [call])).Plus(t'.pending) == t.pending.Plus(Fed([call]))
  {
    DroppedMotionOne(t, call);
    FedOne(call);
    hide Travel, Fed, DroppedMotion, AllReleased, Motion.Plus;
    if call.ReleaseAll? {
      ReleaseTravelsNowhere(t);
      PlusStill(t.pending);
    } else {
      PlusStill(Travel(Apply(t, call).1));
      hide Apply;
      ApplyConservesMotion(t, call);
    }
  }

  lemma LossesAdd(out: Motion, more: Motion, lost: Motion, lostLater: Motion, p: Motion, p1: Motion, p2: Motion,
                  fed: Motion, fedLater: Motion)
    requires out.Plus(lost).Plus(p1) == p.Plus(fed) && more.Plus(lostLater).Plus(p2) == p1.Plus(fedLater)
    ensures out.Plus(more).Plus(lost.Plus(lostLater)).Plus(p2) == p.Plus(fed.Plus(fedLater))
  {
  }

  /**
   Over any calls, releases included: what was emitted, what the releases dropped, and what is
   pending add up to what was pending at the start and what was fed in.
  */
  lemma {:induction false} MotionIsAccountedFor(t: TState, calls: seq<Call>)
    ensures var (t', out) := Run(t, calls);
      Travel(out).Plus(DroppedMotion(t, calls)).Plus(t'.pending) == t.pending.Plus(Fed(calls))
    decreases |calls|
  {
    hide Apply, Travel, Motion.Plus;
    if calls == [] {
      TravelOfOther(ConsumerReport(0));
      PlusStill(t.pending);
      PlusStill(STILL);
    } else {
      var (t1, out) := Apply(t, calls[0]);
      var (t2, more) := Run(t1, calls[1..]);
      ApplyAccountsForMotion(t, calls[0]);
      FedOne(calls[0]);
      DroppedMotionOne(t, calls[0]);
      MotionIsAccountedFor(t1, calls[1..]);
      TravelConcat(out, more);
      LossesAdd(Travel(out), Travel(more), DroppedMotion(t, [calls[0]]), DroppedMotion(t1, calls[1..]),
                t.pending, t1.pending, t2.pending, Fed([calls[0]]), Fed(calls[1..]));
    }
  }

  lemma NothingHeldNothingReleased(t: TState)
    requires t.AllUp()
    ensures AllReleased(t).1 == []
  {
  }

  lemma RunTwo(t: TState, a: Call, b: Call)
    ensures var (t1, out) := Apply(t, a);
      var (t2, more) := Apply(t1, b);
      Run(t, [a, b]) == (t2, out + more)
      && DroppedMotion(t, [a, b]) == DroppedMotion(t, [a]).Plus(DroppedMotion(t1, [b]))
  {
    hide Apply, Motion.Plus;
    assert [a, b][1..] == [b] && [b][1..] == [];
    var t1 := Apply(t, a).0;
    var (t2, more) := Apply(t1, b);
    assert Run(t2, []) == (t2, []) && more + [] == more;
    assert Run(t1, [b]) == (t2, more);
    DroppedMotionOne(t, a);
    PlusStill(DroppedMotion(t, [a]));
  }

  /** The input: any motion that is fed and not flushed before a release is dropped. */
  lemma UnflushedMotionIsDropped(axis: Axis, delta: int)
    ensures var (t, out) := Run(FRESH, [Rel(axis, delta), ReleaseAll]);
      out == [] && t.pending == STILL
      && DroppedMotion(FRESH, [Rel(axis, delta), ReleaseAll]) == FedBy(Rel(axis, delta))
  {
    hide Run, DroppedMotion, AllReleased, Motion.Plus;
    var fed := TranslateRel(FRESH, axis, delta);
    RunTwo(FRESH, Rel(axis, delta), ReleaseAll);
    NothingHeldNothingReleased(fed);
    ReleaseTravelsNowhere(fed);
    DroppedMotionOne(FRESH, Rel(axis, delta));
    DroppedMotionOne(fed, ReleaseAll);
    PlusStill(fed.pending);
    PlusStill(AxisMotion(axis, delta));
  }

  lemma {:induction false} RunConcat(t: TState, a: seq<Call>, b: seq<Call>)
    ensures Run(t, a + b) == (Run(Run(t, a).0, b).0, Run(t, a).1 + Run(Run(t, a).0, b).1)
    decreases |a|
  {
    if a == [] {
      assert a + b == b && [] + Run(t, b).1 == Run(t, b).1;
    } else {
      var (t1, out) := Apply(t, a[0]);
      assert (a + b)[1..] == a[1..] + b;
      RunConcat(t1, a[1..], b);
      assert out + (Run(t1, a[1..]).1 + Run(Run(t1, a[1..]).0, b).1)
          == (out + Run(t1, a[1..]).1) + Run(Run(t1, a[1..]).0, b).1;
    }
  }

  /** Since the last release, whatever came before it, everything fed in has been emitted or is pending. */
  lemma MotionConservedSinceRelease(t: TState, before: seq<Call>, since: seq<Call>)
    requires ReleaseAll !in since
    ensures
      var earlier := Run(t, before + [ReleaseAll]).1;
      var (t', out) := Run(t, before + [ReleaseAll] + since);
      earlier <= out && Travel(out[|earlier|..]).Plus(t'.pending) == Fed(since)
  {
    hide Travel, Fed, AllReleased;
    RunConcat(t, before, [ReleaseAll]);
    RunConcat(t, before + [ReleaseAll], since);
    var t0 := Run(t, before + [ReleaseAll]).0;
    PendingAfterRelease(Run(t, before).0);
    MotionConserved(t0, since);
  }

  lemma PendingAfterRelease(t: TState)
    ensures Run(t, [ReleaseAll]).0.pending == STILL
  {
    assert [ReleaseAll][1..] == [];
  }

  // ---- How many reports a flush takes ----------------------------------------------------

  function Max3(a: nat, b: nat, c: nat): nat {
    if a >= b && a >= c then a else if b >= c then b else c
  }

  /** The smallest number of 127-unit steps that covers `v`. */
  function StepsFor(v: nat): nat {
    (v + 126) / 127
  }

  function Extent(m: Motion): nat {
    Max3(Abs(m.dx), Abs(m.dy), Abs(m.wheel))
  }

  lemma RestIsOneStepShorter(m: Motion)
    ensures Rest(m) == STILL <==> Extent(m) <= 127
    ensures Rest(m) != STILL ==> Extent(Rest(m)) == Extent(m) - 127
  {
  }

  lemma {:induction false} ReportCount(buttons: set<nat>, m: Motion)
    ensures |MouseReports(buttons, m)| == if Extent(m) == 0 then 1 else StepsFor(Extent(m))
    decreases Size(m)
  {
    RestIsOneStepShorter(m);
    RestIsSmaller(m);
    hide Rest, Chunk, Extent, Size;
    if Rest(m) != STILL {
      ReportCount(buttons, Rest(m));
    }
  }

  /** No way of splitting the motion into 8-bit steps takes fewer reports. */
  lemma {:induction false} NoShorterSplit(reports: seq<Report>)
    requires forall r :: r in reports ==> r.MouseReport? && InRange(r.motion)
    ensures StepsFor(Extent(Travel(reports))) <= |reports|
  {
    if reports != [] {
      assert reports[0] in reports;
      assert forall r :: r in reports[1..] ==> r in reports;
      NoShorterSplit(reports[1..]);
    }
  }

  /** A flush with anything due emits the minimum: max(1, ceil(max(|dx|, |dy|, |wheel|) / 127)) reports. */
  lemma FlushEmitsTheMinimum(t: TState)
    ensures var out := MouseFlushed(t).1;
      |out| == if !t.buttonsDirty && t.pending == STILL then 0
               else if t.pending == STILL then 1
               else StepsFor(Extent(t.pending))
  {
    ReportCount(t.buttons, t.pending);
    ExtentOfStill(t.pending);
    hide MouseReports, Extent, StepsFor;
  }

  lemma ExtentOfStill(m: Motion)
    ensures Extent(m) == 0 <==> m == STILL
  {
  }

  // ---- The key array ---------------------------------------------------------------------

  /** The key-page usages that are down, and those among them whose press found the array full. */
  datatype KeyLedger = KeyLedger(down: set<byte>, dropped: set<byte>)

  function Track(t: TState, l: KeyLedger, call: Call): KeyLedger {
    if call.ReleaseAll? then KeyLedger({}, {})
    else if !call.Key? || !call.m.KeyUsage? || call.value == 2 then l
    else
      var u := call.m.usage;
      if call.value != 1 then KeyLedger(l.down - {u}, l.dropped - {u})
      else KeyLedger(l.down + {u}, if u in t.keys then l.dropped
                                   else if |t.keys| == ROLLOVER then l.dropped + {u}
                                   else l.dropped - {u})
  }

  function TrackAll(t: TState, l: KeyLedger, calls: seq<Call>): KeyLedger
    decreases |calls|
  {
    if calls == [] then l else TrackAll(Apply(t, calls[0]).0, Track(t, l, calls[0]), calls[1..])
  }

  /** At most six usages are reported; the ones that are down split into reported and dropped. */
  predicate Balanced(keys: set<byte>, l: KeyLedger) {
    |keys| <= ROLLOVER && keys + l.dropped == l.down && keys !! l.dropped
  }

  lemma BalancedStep(t: TState, l: KeyLedger, call: Call)
    requires Balanced(t.keys, l)
    ensures Balanced(Apply(t, call).0.keys, Track(t, l, call))
  {
    if call.Key? && call.m.KeyUsage? {
      BalancedKeyStep(t, l, call.m.usage, call.value);
    } else if !call.ReleaseAll? {
      OnlyKeyCallsChangeKeys(t, call);
    }
  }

  lemma PressBalances(keys: set<byte>, l: KeyLedger, u: byte)
    requires Balanced(keys, l)
    ensures u in keys ==> keys + {u} == keys && Balanced(keys, KeyLedger(l.down + {u}, l.dropped))
    ensures u !in keys && |keys| == ROLLOVER ==> Balanced(keys, KeyLedger(l.down + {u}, l.dropped + {u}))
    ensures u !in keys && |keys| < ROLLOVER ==> Balanced(keys + {u}, KeyLedger(l.down + {u}, l.dropped - {u}))
  {
    if u in keys {
      assert keys + {u} == keys;
    } else {
      assert |keys + {u}| == |keys| + 1;
    }
  }

  lemma ReleaseBalances(keys: set<byte>, l: KeyLedger, u: byte)
    requires Balanced(keys, l)
    ensures Balanced(keys - {u}, KeyLedger(l.down - {u}, l.dropped - {u}))
  {
    assert keys - {u} <= keys;
  }

  lemma BalancedKeyStep(t: TState, l: KeyLedger, u: byte, value: int)
    requires Balanced(t.keys, l)
    ensures Balanced(HandleMeaning(t, KeyUsage(u), value).keys, Track(t, l, Key(KeyUsage(u), value)))
  {
    assert |t.keys| <= ROLLOVER;
    PressBalances(t.keys, l, u);
    ReleaseBalances(t.keys, l, u);
    hide Balanced;
  }

  lemma OnlyKeyCallsChangeKeys(t: TState, call: Call)
    requires !call.ReleaseAll? && !(call.Key? && call.m.KeyUsage?)
    ensures Apply(t, call).0.keys == t.keys
  {
    hide MouseReports;
  }

  lemma {:induction false} KeysAreHeldMinusDropped(t: TState, l: KeyLedger, calls: seq<Call>)
    requires Balanced(t.keys, l)
    ensures Balanced(Run(t, calls).0.keys, TrackAll(t, l, calls))
    decreases |calls|
  {
    hide Apply, Track, Balanced;
    if calls != [] {
      BalancedStep(t, l, calls[0]);
      KeysAreHeldMinusDropped(Apply(t, calls[0]).0, Track(t, l, calls[0]), calls[1..]);
    }
  }

  /** From a fresh translator, the reported usages are all the held ones exactly when none is still dropped. */
  lemma KeysAreAllHeldExactlyWhenNoneDropped(calls: seq<Call>)
    ensures var l := TrackAll(FRESH, KeyLedger({}, {}), calls);
      && |Run(FRESH, calls).0.keys| <= ROLLOVER
      && (Run(FRESH, calls).0.keys == l.down <==> l.dropped == {})
      && (|l.down| <= ROLLOVER || l.dropped != {})
  {
    KeysAreHeldMinusDropped(FRESH, KeyLedger({}, {}), calls);
  }
}
