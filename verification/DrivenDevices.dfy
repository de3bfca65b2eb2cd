/**
 What the hardware shows, from the descriptions it gave and the frame alone: after each frame, every device
 whose mode takes a color has that color and brightness and is otherwise as it was described; the
 others are left alone. And the packets written say so, read from the first byte on.
*/
module DrivenDevices {
  import opened Wrappers
  import opened HidReports
  import opened WireFormat
  import opened WireProofs
  import opened Lighting
  import opened LightingCache
  import opened CachedLighting

  // ---- A device that shows a frame -------------------------------------------------------

  /** Red in the low byte, then green, then blue. */
  function Packed(color: Rgb): int {
    color.r + 256 * color.g + 65536 * color.b
  }

  /** The share of the mode's range that the frame asks for, rounded down. */
  predicate IsBrightness(b: u32, m: Mode, percent: nat) {
    if m.brightnessMax <= m.brightnessMin then b == m.brightnessMin
    else
      var asked := (m.brightnessMax - m.brightnessMin) * (if percent < 100 then percent else 100);
      100 * (b - m.brightnessMin) <= asked < 100 * (b - m.brightnessMin) + 100
  }

  /** The mode sent is the one described, in the frame's brightness if it has any. */
  predicate IsDimmed(sent: Mode, m: Mode, f: Frame) {
    sent == m.(brightness := sent.brightness, colors := sent.colors, colorMode := sent.colorMode)
    && (if HasBrightness(m) then IsBrightness(sent.brightness, m, f.brightness) else sent.brightness == m.brightness)
  }

  /** The LEDs have the frame's color, each by itself or as the mode's first color. */
  predicate IsColored(p: Panel, sent: Mode, d: Device, m: Mode, f: Frame) {
    if HasPerLedColor(m) then
      sent.colors == m.colors && sent.colorMode == m.colorMode
      && p.leds.Some? && |p.leds.value| == d.ledCount
      && forall i :: 0 <= i < d.ledCount ==> p.leds.value[i] == Packed(f.color)
    else
      sent.colorMode == 2 && |sent.colors| == (if m.colors == [] then 1 else |m.colors|)
      && sent.colors[0] == Packed(f.color) && forall i :: 0 < i < |sent.colors| ==> sent.colors[i] == m.colors[i]
  }

  predicate ShowsFrame(p: Panel, d: Device, m: Mode, f: Frame) {
    p.mode.Some? && IsDimmed(p.mode.value, m, f) && IsColored(p, p.mode.value, d, m, f)
  }

  /** The mode picked for the device takes a color for each LED or one for all. */
  predicate TakesColor(d: Device) {
    var mode := ChosenMode(d);
    mode.Some? && (HasPerLedColor(mode.value) || HasModeSpecificColor(mode.value))
  }

  // ---- One device ------------------------------------------------------------------------

  lemma MappedIsTheShare(percent: byte, m: Mode)
    ensures IsBrightness(MapBrightness(percent, m), m, percent)
  {
  }

  lemma AdjustedShows(p: Panel, d: Device, m: Mode, f: Frame)
    requires p.mode == Some(Adjusted(m, HasPerLedColor(m), f))
    requires HasPerLedColor(m) ==> p.leds == Some(Repeat(f.color.ToWire(), d.ledCount))
    ensures ShowsFrame(p, d, m, f)
  {
    MappedIsTheShare(f.brightness, m);
    hide MapBrightness, IsBrightness;
  }

  lemma DisplayedIsShown(d: Device, f: Frame, hw: Hardware)
    requires TakesColor(d) && TargetOf(d).Some? && Displays(TargetOf(d).value, f, hw)
    ensures d.index in hw && ShowsFrame(hw[d.index], d, ChosenMode(d).value, f)
  {
    hide ChosenMode, Adjusted;
    AdjustedShows(hw[d.index], d, ChosenMode(d).value, f);
  }

  lemma DrivenIfColored(d: Device)
    ensures TargetOf(d).Some? <==> TakesColor(d)
    ensures TargetOf(d).Some? ==> TargetOf(d).value.devIdx == d.index
  {
    hide ChosenMode;
  }

  lemma {:induction false} TargetsAreTheDriven(devices: seq<Device>, d: Device)
    ensures d in devices && TakesColor(d) ==> TargetOf(d).Some? && TargetOf(d).value in TargetsOf(devices)
    ensures forall t :: t in TargetsOf(devices) ==> exists e :: e in devices && TakesColor(e) && e.index == t.devIdx
  {
    hide TakesColor, TargetOf;
    if devices != [] {
      var n := |devices| - 1;
      TargetsAreTheDriven(devices[..n], d);
      DrivenIfColored(devices[n]);
      DrivenIfColored(d);
      assert d in devices ==> d in devices[..n] || d == devices[n];
      assert forall e :: e in devices[..n] ==> e in devices;
    }
  }

  // ---- Since the devices were read -------------------------------------------------------

  function ShowAll(frames: seq<Frame>): (r: seq<Work>)
    ensures |r| == |frames|
  {
    seq(|frames|, i requires 0 <= i < |frames| => Show(frames[i]))
  }

  function Since(before: seq<Work>, devices: seq<Device>, found: Hardware, frames: seq<Frame>): seq<Work> {
    before + [ReadDevices(devices, found)] + ShowAll(frames)
  }

  lemma SinceStep(before: seq<Work>, devices: seq<Device>, found: Hardware, frames: seq<Frame>)
    ensures var run := Since(before, devices, found, frames);
      if frames == [] then RunRig(run) == StepRig(RunRig(before), ReadDevices(devices, found))
      else
        var rest, last := frames[..|frames| - 1], frames[|frames| - 1];
        run == Since(before, devices, found, rest) + [Show(last)]
        && RunRig(run) == StepRig(RunRig(Since(before, devices, found, rest)), Show(last))
  {
    hide StepRig;
    var run := Since(before, devices, found, frames);
    if frames == [] {
      assert run == before + [ReadDevices(devices, found)];
      assert run[..|run| - 1] == before;
    } else {
      var rest, last := frames[..|frames| - 1], frames[|frames| - 1];
      assert ShowAll(frames) == ShowAll(rest) + [Show(last)];
      assert run == Since(before, devices, found, rest) + [Show(last)];
      assert run[..|run| - 1] == Since(before, devices, found, rest);
    }
  }

  /** The targets stay those of the devices read, and a device that is no target is not touched. */
  lemma {:induction false} OthersStayAsFound(before: seq<Work>, devices: seq<Device>, found: Hardware,
                                             frames: seq<Frame>, index: u32)
    requires forall t :: t in TargetsOf(devices) ==> t.devIdx != index
    ensures var r := RunRig(Since(before, devices, found, frames));
      r.plain == TargetsOf(devices) && (index in r.plainHardware <==> index in found)
      && PanelOf(r.plainHardware, index) == PanelOf(found, index)
  {
    hide RunRig, Applied, ObeyAll, CommandsAll, PanelOf, TargetsOf, Since;
    SinceStep(before, devices, found, frames);
    if frames != [] {
      var rest, last := frames[..|frames| - 1], frames[|frames| - 1];
      OthersStayAsFound(before, devices, found, rest, index);
      OthersUntouched(RunRig(Since(before, devices, found, rest)).plainHardware, TargetsOf(devices), last, index);
    }
  }

  lemma {:induction false} TargetsStay(before: seq<Work>, devices: seq<Device>, found: Hardware, frames: seq<Frame>)
    ensures RunRig(Since(before, devices, found, frames)).plain == TargetsOf(devices)
  {
    hide RunRig, Applied, ObeyAll, CommandsAll, TargetsOf, Since;
    SinceStep(before, devices, found, frames);
    if frames != [] {
      TargetsStay(before, devices, found, frames[..|frames| - 1]);
    }
  }

  /**
   At any time, after the devices were read and at least one frame was shown: a device whose mode takes a
   color shows the last frame, and any other is as it was found.
  */
  lemma EveryDeviceShowsTheFrame(before: seq<Work>, devices: seq<Device>, found: Hardware, frames: seq<Frame>,
                                 d: Device)
    requires Numbered(Since(before, devices, found, frames)) && d in devices && frames != []
    ensures var hw := RunRig(Since(before, devices, found, frames)).hardware;
      if TakesColor(d) then
        d.index in hw && ShowsFrame(hw[d.index], d, ChosenMode(d).value, frames[|frames| - 1])
      else
        (d.index in hw <==> d.index in found) && PanelOf(hw, d.index) == PanelOf(found, d.index)
  {
    var rest, last := frames[..|frames| - 1], frames[|frames| - 1];
    var run := Since(before, devices, found, frames);
    assert ReadDevices(devices, found) in run;
    assert forall e :: e in devices && e.index == d.index ==> e == d;
    SinceStep(before, devices, found, frames);
    assert Numbered(Since(before, devices, found, rest)) by {
      assert forall w :: w in Since(before, devices, found, rest) ==> w in run;
    }
    hide RunRig, StepRig, Displays, TakesColor, TargetOf, TargetsOf, ShowsFrame, ChosenMode, Since, Numbered, PanelOf;
    TargetsStay(before, devices, found, frames);
    TargetsAreTheDriven(devices, d);
    CachedEqualsPlain(run);
    if TakesColor(d) {
      ShownFrameIsDisplayed(Since(before, devices, found, rest), last);
      DisplayedIsShown(d, last, RunRig(run).hardware);
    } else {
      OthersStayAsFound(before, devices, found, frames, d.index);
    }
  }

  // ---- On the wire -----------------------------------------------------------------------

  /** The packet, read by its fields, says what the command says. */
  predicate Says(p: Packet, c: Command) {
    p.devIdx == c.devIdx && U32At(p.data, 0) == Got(|p.data|, 4)
    && match c
       case SetMode(_, mode) =>
         p.id == 1101 && I32At(p.data, 4) == Got(mode.index, 8) && ModeAt(p.data, 8, mode.index) == Got(mode, |p.data|)
       case SetLeds(_, color, count) =>
         p.id == 1050 && U16At(p.data, 4) == Got(count, 6) && IsCopies(U32sAt(p.data, 6, count), color, count, |p.data|)
  }

  predicate IsCopies(r: Read<seq<u32>>, color: Rgb, count: nat, end: nat) {
    r.Got? && r.end == end && |r.value| == count && forall i :: 0 <= i < count ==> r.value[i] == Packed(color)
  }

  predicate Sendable(c: Command) {
    c.SetMode? ==> Encodable(c.mode)
  }

  /** The packet that the command is written as. */
  function PacketOf(c: Command): Packet {
    match c
    case SetMode(devIdx, mode) => Packet(devIdx, UPDATE_MODE, ModeBytes(mode))
    case SetLeds(devIdx, color, count) => Packet(devIdx, UPDATE_LEDS, LedBytes(color, count))
  }

  lemma PacketSays(c: Command)
    requires Sendable(c)
    ensures Says(PacketOf(c), c) && |PacketOf(c).data| <= MAX_PACKET && Encoded(c) == Framed(PacketOf(c))
  {
    match c
    case SetMode(_, mode) =>
      ModePacketReadsBack(mode);
      hide ModeBytes, U32At, I32At, ModeAt, Framed, Encodable;
    case SetLeds(_, color, count) =>
      LedPacketReadsBack(color, count);
      hide LedBytes, U32At, U16At, U32sAt, Framed;
  }

  lemma {:induction false} FramedAllConcat(a: seq<Packet>, b: seq<Packet>)
    ensures FramedAll(a + b) == FramedAll(a) + FramedAll(b)
    decreases |a|
  {
    hide Framed;
    if a == [] {
      assert a + b == b;
    } else {
      assert (a + b)[1..] == a[1..] + b;
      FramedAllConcat(a[1..], b);
    }
  }

  function PacketsOf(commands: seq<Command>): (r: seq<Packet>)
    ensures |r| == |commands|
  {
    seq(|commands|, i requires 0 <= i < |commands| => PacketOf(commands[i]))
  }

  lemma {:induction false} EncodedIsFramed(commands: seq<Command>)
    requires forall c :: c in commands ==> Sendable(c)
    ensures EncodedAll(commands) == FramedAll(PacketsOf(commands))
  {
    hide Encoded, Framed, PacketOf, Sendable, Says;
    if commands != [] {
      var rest, last := commands[..|commands| - 1], commands[|commands| - 1];
      assert last in commands && forall c :: c in rest ==> c in commands;
      EncodedIsFramed(rest);
      PacketSays(last);
      assert PacketsOf(commands) == PacketsOf(rest) + [PacketOf(last)];
      FramedAllConcat(PacketsOf(rest), [PacketOf(last)]);
      assert [PacketOf(last)][1..] == [] && Framed(PacketOf(last)) + [] == Framed(PacketOf(last));
    }
  }

  /** Whatever commands are written, the server reads them off the stream in order, and nothing else. */
  lemma CommandsReadBack(commands: seq<Command>)
    requires forall c :: c in commands ==> Sendable(c)
    ensures var (packets, stop) := ReadAll(EncodedAll(commands));
      stop == StreamEnded && |packets| == |commands|
      && forall i :: 0 <= i < |commands| ==> Says(packets[i], commands[i])
  {
    hide Encoded, Framed, PacketOf, Sendable, Says, EncodedAll, FramedAll;
    var packets := PacketsOf(commands);
    forall i | 0 <= i < |commands| ensures Says(packets[i], commands[i]) && |packets[i].data| <= MAX_PACKET {
      PacketSays(commands[i]);
    }
    EncodedIsFramed(commands);
    PacketsReadBack(packets, []);
    assert FramedAll(packets) + [] == FramedAll(packets) && packets + [] == packets;
    assert ReadAll([]) == ([], StreamEnded);
  }
}
