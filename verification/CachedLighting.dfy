/**
 The push cache agrees with pushing everything: over any run of frames and device readings, the
 hardware driven through the cache is, at every step, the hardware driven without one.
*/
module CachedLighting {
  import opened Wrappers
  import opened WireFormat
  import opened Lighting
  import opened LightingCache

  /** What a device was last told. */
  datatype Panel = Panel(mode: Option<Mode>, leds: Option<seq<u32>>)

  type Hardware = map<u32, Panel>

  function PanelOf(hw: Hardware, d: u32): Panel {
    if d in hw then hw[d] else Panel(None, None)
  }

  function Obey(hw: Hardware, c: Command): Hardware {
    match c
    case SetMode(d, mode) => hw[d := PanelOf(hw, d).(mode := Some(mode))]
    case SetLeds(d, color, count) => hw[d := PanelOf(hw, d).(leds := Some(Repeat(color.ToWire(), count)))]
  }

  function ObeyAll(hw: Hardware, commands: seq<Command>): Hardware {
    if commands == [] then hw else Obey(ObeyAll(hw, commands[..|commands| - 1]), commands[|commands| - 1])
  }

  lemma {:induction false} ObeyConcat(hw: Hardware, a: seq<Command>, b: seq<Command>)
    ensures ObeyAll(hw, a + b) == ObeyAll(ObeyAll(hw, a), b)
  {
    hide Obey;
    if b == [] {
      assert a + b == a;
    } else {
      assert (a + b)[..|a + b| - 1] == a + b[..|b| - 1];
      ObeyConcat(hw, a, b[..|b| - 1]);
    }
  }

  lemma ObeyOne(hw: Hardware, c: Command)
    ensures ObeyAll(hw, [c]) == Obey(hw, c)
  {
    assert [c][..0] == [];
  }

  // ---- Two ways to drive the hardware ----------------------------------------------------

  /** `found` is the hardware as it is when the devices are read: any state at all. */
  datatype Work = Show(frame: Frame) | ReadDevices(devices: seq<Device>, found: Hardware)

  /** The cached driver and its hardware, and the plain driver's targets and hardware. */
  datatype Rig = Rig(cache: Cache, hardware: Hardware, plain: seq<Target>, plainHardware: Hardware)

  function StepRig(r: Rig, w: Work): Rig {
    match w
    case Show(frame) =>
      var (cache, commands) := Applied(r.cache, frame);
      Rig(cache, ObeyAll(r.hardware, commands), r.plain, ObeyAll(r.plainHardware, CommandsAll(r.plain, frame)))
    case ReadDevices(devices, found) =>
      Rig(Enumerated(devices), found, TargetsOf(devices), found)
  }

  function RunRig(run: seq<Work>): Rig {
    if run == [] then Rig(Cache([], None), map[], [], map[]) else StepRig(RunRig(run[..|run| - 1]), run[|run| - 1])
  }

  /** The server numbers its devices. */
  predicate Numbered(run: seq<Work>) {
    forall w :: w in run && w.ReadDevices? ==>
      forall i, j :: 0 <= i < j < |w.devices| ==> w.devices[i].index != w.devices[j].index
  }

  // ---- One target ------------------------------------------------------------------------

  /** Adjusting a mode forgets the frame it was adjusted for before. */
  lemma AdjustingForgets(m: Mode, perLed: bool, f: Frame, g: Frame)
    ensures Adjusted(Adjusted(m, perLed, f), perLed, g) == Adjusted(m, perLed, g)
  {
    hide Rgb.ToWire;
  }

  /** The same device, in modes that every frame makes equal. */
  ghost predicate Kin(t: Target, p: Target) {
    t.devIdx == p.devIdx && t.ledCount == p.ledCount && t.perLed == p.perLed
    && forall f :: Adjusted(t.mode, t.perLed, f) == Adjusted(p.mode, p.perLed, f)
  }

  /** What the cache believes of the hardware is so. */
  predicate Trusted(t: Target, hw: Hardware) {
    t.modePushed ==> t.devIdx in hw && hw[t.devIdx].mode == Some(t.mode)
  }

  /** The device shows the frame. */
  predicate Displays(p: Target, f: Frame, hw: Hardware) {
    p.devIdx in hw
    && hw[p.devIdx].mode == Some(Adjusted(p.mode, p.perLed, f))
    && (p.perLed ==> hw[p.devIdx].leds == Some(Repeat(f.color.ToWire(), p.ledCount)))
  }

  lemma AllIs(hw: Hardware, p: Target, f: Frame)
    ensures var moded := Obey(hw, SetMode(p.devIdx, Adjusted(p.mode, p.perLed, f)));
      ObeyAll(hw, AllCommands(p, f)) == ObeyAll(moded, LedCommands(p, f))
      && ObeyAll(moded, LedCommands(p, f)) ==
         if p.perLed then Obey(moded, SetLeds(p.devIdx, f.color, p.ledCount)) else moded
  {
    hide Adjusted, Obey;
    var setMode := SetMode(p.devIdx, Adjusted(p.mode, p.perLed, f));
    ObeyConcat(hw, [setMode], LedCommands(p, f));
    ObeyOne(hw, setMode);
    if p.perLed {
      ObeyOne(Obey(hw, setMode), SetLeds(p.devIdx, f.color, p.ledCount));
    }
  }

  lemma TargetAgrees(hw: Hardware, t: Target, p: Target, f: Frame)
    requires Kin(t, p) && Trusted(t, hw)
    ensures ObeyAll(hw, NeededCommands(t, f)) == ObeyAll(hw, AllCommands(p, f))
    ensures Kin(Pushed(t, f), p) && Pushed(t, f).mode == Adjusted(p.mode, p.perLed, f)
  {
    AllIs(hw, p, f);
    forall g ensures Adjusted(Pushed(t, f).mode, t.perLed, g) == Adjusted(p.mode, p.perLed, g) {
      AdjustingForgets(t.mode, t.perLed, f, g);
    }
    hide Adjusted;
    var setMode := SetMode(t.devIdx, Adjusted(t.mode, t.perLed, f));
    if t.modePushed && Adjusted(t.mode, t.perLed, f) == t.mode {
      assert Obey(hw, setMode) == hw;
      assert [] + LedCommands(t, f) == LedCommands(t, f);
    }
    hide Obey;
  }

  lemma AllDisplays(hw: Hardware, p: Target, f: Frame, d: u32)
    ensures var after := ObeyAll(hw, AllCommands(p, f));
      Displays(p, f, after) && (d != p.devIdx ==> (d in after <==> d in hw) && PanelOf(after, d) == PanelOf(hw, d))
    ensures Displays(p, f, hw) ==> ObeyAll(hw, AllCommands(p, f)) == hw
  {
    AllIs(hw, p, f);
    hide Adjusted, AllCommands, LedCommands, ObeyAll, Rgb.ToWire;
  }

  // ---- All targets -----------------------------------------------------------------------

  ghost predicate Faithful(targets: seq<Target>, plain: seq<Target>, hw: Hardware) {
    |targets| == |plain| && forall i :: 0 <= i < |targets| ==> Kin(targets[i], plain[i]) && Trusted(targets[i], hw)
  }

  predicate Distinct(targets: seq<Target>) {
    forall i, j :: 0 <= i < j < |targets| ==> targets[i].devIdx != targets[j].devIdx
  }

  predicate AllDisplay(plain: seq<Target>, f: Frame, hw: Hardware) {
    forall p :: p in plain ==> Displays(p, f, hw)
  }

  lemma {:induction false} OthersUntouched(hw: Hardware, plain: seq<Target>, f: Frame, d: u32)
    requires forall p :: p in plain ==> p.devIdx != d
    ensures var after := ObeyAll(hw, CommandsAll(plain, f));
      (d in after <==> d in hw) && PanelOf(after, d) == PanelOf(hw, d)
  {
    hide Obey, AllCommands, PanelOf;
    if plain != [] {
      var rest, p := plain[..|plain| - 1], plain[|plain| - 1];
      assert p in plain;
      OthersUntouched(hw, rest, f, d);
      ObeyConcat(hw, CommandsAll(rest, f), AllCommands(p, f));
      AllDisplays(ObeyAll(hw, CommandsAll(rest, f)), p, f, d);
      hide Displays;
    }
  }

  lemma {:induction false} TargetsAgree(hw: Hardware, targets: seq<Target>, plain: seq<Target>, f: Frame)
    requires Faithful(targets, plain, hw) && Distinct(plain)
    ensures ObeyAll(hw, NeededAll(targets, f)) == ObeyAll(hw, CommandsAll(plain, f))
  {
    hide Obey, NeededCommands, AllCommands, Kin;
    if targets != [] {
      var n := |targets| - 1;
      var rest := plain[..n];
      TargetsAgree(hw, targets[..n], rest, f);
      var hw1 := ObeyAll(hw, CommandsAll(rest, f));
      ObeyConcat(hw, NeededAll(targets[..n], f), NeededCommands(targets[n], f));
      ObeyConcat(hw, CommandsAll(rest, f), AllCommands(plain[n], f));
      assert Kin(targets[n], plain[n]) && Trusted(targets[n], hw);
      StillTrusted(hw, rest, targets[n], plain[n], f);
      TargetAgrees(hw1, targets[n], plain[n], f);
    }
  }

  lemma StillTrusted(hw: Hardware, rest: seq<Target>, t: Target, p: Target, f: Frame)
    requires Trusted(t, hw) && Kin(t, p) && forall q :: q in rest ==> q.devIdx != p.devIdx
    ensures Trusted(t, ObeyAll(hw, CommandsAll(rest, f)))
  {
    hide ObeyAll, CommandsAll, Adjusted;
    OthersUntouched(hw, rest, f, p.devIdx);
  }

  lemma {:induction false} TargetsDisplay(hw: Hardware, plain: seq<Target>, f: Frame)
    requires Distinct(plain)
    ensures AllDisplay(plain, f, ObeyAll(hw, CommandsAll(plain, f)))
  {
    hide Obey, AllCommands, Displays;
    if plain != [] {
      var rest, p := plain[..|plain| - 1], plain[|plain| - 1];
      TargetsDisplay(hw, rest, f);
      var hw1 := ObeyAll(hw, CommandsAll(rest, f));
      ObeyConcat(hw, CommandsAll(rest, f), AllCommands(p, f));
      var hw2 := ObeyAll(hw1, AllCommands(p, f));
      AllDisplays(hw1, p, f, p.devIdx);
      forall q | q in rest ensures Displays(q, f, hw2) {
        var i :| 0 <= i < |rest| && rest[i] == q;
        assert plain[i] == q;
        assert q.devIdx != p.devIdx;
        AllDisplays(hw1, p, f, q.devIdx);
        DisplaysByPanel(q, f, hw1, hw2);
      }
      assert forall q :: q in plain ==> q in rest || q == p;
    }
  }

  lemma DisplaysByPanel(p: Target, f: Frame, hw: Hardware, hw1: Hardware)
    requires Displays(p, f, hw) && (p.devIdx in hw1 <==> p.devIdx in hw)
    requires PanelOf(hw1, p.devIdx) == PanelOf(hw, p.devIdx)
    ensures Displays(p, f, hw1)
  {
    hide Adjusted;
  }

  lemma {:induction false} RepeatingChangesNothing(hw: Hardware, plain: seq<Target>, f: Frame)
    requires AllDisplay(plain, f, hw)
    ensures ObeyAll(hw, CommandsAll(plain, f)) == hw
  {
    hide Obey, AllCommands, Displays;
    if plain != [] {
      var rest, p := plain[..|plain| - 1], plain[|plain| - 1];
      assert p in plain && forall q :: q in rest ==> q in plain;
      RepeatingChangesNothing(hw, rest, f);
      ObeyConcat(hw, CommandsAll(rest, f), AllCommands(p, f));
      AllDisplays(hw, p, f, p.devIdx);
    }
  }

  // ---- Whole runs ------------------------------------------------------------------------

  ghost predicate RigSound(r: Rig) {
    && r.hardware == r.plainHardware
    && Distinct(r.plain)
    && Faithful(r.cache.targets, r.plain, r.hardware)
    && (r.cache.last.Some? ==> AllDisplay(r.plain, r.cache.last.value, r.hardware))
  }

  lemma ShowKeepsSound(r: Rig, f: Frame)
    requires RigSound(r)
    ensures RigSound(StepRig(r, Show(f)))
    ensures AllDisplay(r.plain, f, StepRig(r, Show(f)).hardware)
  {
    hide ObeyAll, NeededAll, CommandsAll, Kin, Trusted, Displays, Distinct;
    if r.cache.last == Some(f) {
      RepeatingChangesNothing(r.hardware, r.plain, f);
      assert ObeyAll(r.hardware, []) == r.hardware by { ObeyNothing(r.hardware); }
    } else {
      TargetsAgree(r.hardware, r.cache.targets, r.plain, f);
      TargetsDisplay(r.hardware, r.plain, f);
      var hw := ObeyAll(r.hardware, CommandsAll(r.plain, f));
      var targets := PushedAll(r.cache.targets, f);
      forall i | 0 <= i < |targets| ensures Kin(targets[i], r.plain[i]) && Trusted(targets[i], hw) {
        PushedIsFaithful(r.cache.targets[i], r.plain[i], f, r.hardware, hw);
      }
    }
  }

  lemma ObeyNothing(hw: Hardware)
    ensures ObeyAll(hw, []) == hw
  {
  }

  lemma PushedIsFaithful(t: Target, p: Target, f: Frame, hw: Hardware, hw1: Hardware)
    requires Kin(t, p) && Trusted(t, hw) && Displays(p, f, hw1)
    ensures Kin(Pushed(t, f), p) && Trusted(Pushed(t, f), hw1)
  {
    TargetAgrees(hw, t, p, f);
    hide Adjusted, ObeyAll, NeededCommands, AllCommands;
  }

  lemma {:induction false} TargetsAreNumbered(devices: seq<Device>)
    requires forall i, j :: 0 <= i < j < |devices| ==> devices[i].index != devices[j].index
    ensures Distinct(TargetsOf(devices))
  {
    hide ChosenMode;
    if devices != [] {
      var n := |devices| - 1;
      TargetsAreNumbered(devices[..n]);
      var rest := TargetsOf(devices[..n]);
      forall t | t in rest ensures t.devIdx != devices[n].index {
        var d :| d in devices[..n] && t.devIdx == d.index;
        var i :| 0 <= i < n && devices[i] == d;
      }
    }
  }

  lemma ReadKeepsSound(r: Rig, devices: seq<Device>, found: Hardware)
    requires forall i, j :: 0 <= i < j < |devices| ==> devices[i].index != devices[j].index
    ensures RigSound(StepRig(r, ReadDevices(devices, found)))
  {
    TargetsAreNumbered(devices);
    hide Adjusted;
    var targets := TargetsOf(devices);
    assert forall i :: 0 <= i < |targets| ==> targets[i] in targets && !targets[i].modePushed;
    hide TargetsOf;
  }

  lemma {:induction false} RunIsSound(run: seq<Work>)
    requires Numbered(run)
    ensures RigSound(RunRig(run))
  {
    if run != [] {
      var before, w := run[..|run| - 1], run[|run| - 1];
      assert w in run && forall x :: x in before ==> x in run;
      RunIsSound(before);
      hide RigSound, StepRig;
      match w {
        case Show(f) => ShowKeepsSound(RunRig(before), f);
        case ReadDevices(devices, found) => ReadKeepsSound(RunRig(before), devices, found);
      }
    }
  }

  /** At every step of any run, the cached driver's hardware is the plain driver's. */
  lemma CachedEqualsPlain(run: seq<Work>)
    requires Numbered(run)
    ensures RunRig(run).hardware == RunRig(run).plainHardware
  {
    RunIsSound(run);
    hide RunRig, Distinct, Faithful, AllDisplay;
  }

  /** And after each frame every driven device shows it, whatever was pushed or left out before. */
  lemma ShownFrameIsDisplayed(run: seq<Work>, f: Frame)
    requires Numbered(run)
    ensures var r := RunRig(run + [Show(f)]);
      forall p :: p in r.plain ==> Displays(p, f, r.hardware)
  {
    assert (run + [Show(f)])[..|run|] == run;
    RunIsSound(run);
    ShowKeepsSound(RunRig(run), f);
    hide RigSound, Displays, Applied, CommandsAll;
  }
}
