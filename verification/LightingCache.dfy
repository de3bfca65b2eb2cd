/**
 Driving OpenRGB devices (src/rgb/mod.rs): the program remembers what it last pushed and leaves
 out packets that would change nothing. Whatever frames come and however often the devices are
 read again, the hardware ends up as if every packet had been sent every time.
*/
module LightingCache {
  import opened Wrappers
  import opened HidReports
  import opened WireFormat
  import opened OpenRgb
  import opened Lighting

  const MODE_COLORS_MODE_SPECIFIC: u32 := 2

  predicate HasBrightness(m: Mode) { m.flags / 16 % 2 == 1 }

  predicate HasPerLedColor(m: Mode) { m.flags / 32 % 2 == 1 }

  predicate HasModeSpecificColor(m: Mode) { m.flags / 64 % 2 == 1 && m.colorsMax > 0 }

  /** The flags are bits 4, 5 and 6 of the word, whatever the others say. */
  lemma FlagsByPosition(m: Mode, high: nat, specific: nat, perLed: nat, brightness: nat, low: nat)
    requires m.flags == 128 * high + 64 * specific + 32 * perLed + 16 * brightness + low
    requires specific < 2 && perLed < 2 && brightness < 2 && low < 16
    ensures HasBrightness(m) <==> brightness == 1
    ensures HasPerLedColor(m) <==> perLed == 1
    ensures HasModeSpecificColor(m) <==> specific == 1 && m.colorsMax > 0
  {
    assert m.flags / 16 == 8 * high + 4 * specific + 2 * perLed + brightness;
    assert m.flags / 32 == 4 * high + 2 * specific + perLed;
    assert m.flags / 64 == 2 * high + specific;
  }

  /** One device we drive, in the mode picked for it. */
  datatype Target = Target(devIdx: u32, ledCount: u16, mode: Mode, perLed: bool, modePushed: bool)

  datatype Cache = Cache(targets: seq<Target>, last: Option<Frame>)

  // ---- Which mode ------------------------------------------------------------------------

  function LowerByte(b: byte): byte {
    if 0x41 <= b <= 0x5A then b + 0x20 else b
  }

  const DIRECT: seq<byte> := [0x64, 0x69, 0x72, 0x65, 0x63, 0x74]

  predicate IsDirect(m: Mode) {
    |m.name| == |DIRECT| && forall i :: 0 <= i < |DIRECT| ==> LowerByte(m.name[i]) == DIRECT[i]
  }

  /** The mode at `i` is the first with the property. */
  predicate FirstAt(modes: seq<Mode>, p: Mode -> bool, i: int) {
    0 <= i < |modes| && p(modes[i]) && forall j :: 0 <= j < i ==> !p(modes[j])
  }

  /** The first mode with the property. */
  function FirstMode(modes: seq<Mode>, p: Mode -> bool): (r: Option<Mode>)
    ensures r.Some? ==> exists i :: FirstAt(modes, p, i) && modes[i] == r.value
    ensures r.None? ==> forall m :: m in modes ==> !p(m)
  {
    if modes == [] then None
    else if p(modes[0]) then
      assert FirstAt(modes, p, 0);
      Some(modes[0])
    else
      var r := FirstMode(modes[1..], p);
      assert r.Some? ==> exists i :: FirstAt(modes, p, i) && modes[i] == r.value by {
        if r.Some? {
          var i :| FirstAt(modes[1..], p, i) && modes[1..][i] == r.value;
          assert FirstAt(modes, p, i + 1);
        }
      }
      r
  }

  predicate Direct(d: Device) {
    exists m :: m in d.modes && IsDirect(m)
  }

  predicate PerLed(d: Device) {
    exists m :: m in d.modes && HasPerLedColor(m)
  }

  /** The active mode if there is such a mode, else the first. */
  function Fallback(d: Device): int {
    if 0 <= d.activeMode < |d.modes| then d.activeMode else 0
  }

  /** An explicit direct mode, else any per-LED mode, else the active one, else the first. */
  function ChosenMode(d: Device): (r: Option<Mode>)
    ensures r.Some? <==> d.modes != []
    ensures Direct(d) ==> exists i :: FirstAt(d.modes, (m: Mode) => IsDirect(m), i) && r == Some(d.modes[i])
    ensures !Direct(d) && PerLed(d) ==>
      exists i :: FirstAt(d.modes, (m: Mode) => HasPerLedColor(m), i) && r == Some(d.modes[i])
    ensures !Direct(d) && !PerLed(d) && d.modes != [] ==> r == Some(d.modes[Fallback(d)])
  {
    var direct := FirstMode(d.modes, (m: Mode) => IsDirect(m));
    if direct.Some? then direct
    else
      var perLed := FirstMode(d.modes, (m: Mode) => HasPerLedColor(m));
      if perLed.Some? then perLed
      else if 0 <= d.activeMode < |d.modes| then Some(d.modes[d.activeMode])
      else if d.modes != [] then Some(d.modes[0])
      else None
  }

  function TargetOf(d: Device): Option<Target> {
    var mode := ChosenMode(d);
    if mode.None? || (!HasPerLedColor(mode.value) && !HasModeSpecificColor(mode.value)) then None
    else Some(Target(d.index, d.ledCount, mode.value, HasPerLedColor(mode.value), false))
  }

  function TargetsOf(devices: seq<Device>): (r: seq<Target>)
    ensures forall t :: t in r ==> !t.modePushed && exists d :: d in devices && t.devIdx == d.index
  {
    if devices == [] then []
    else
      var n := |devices| - 1;
      var t := TargetOf(devices[n]);
      TargetsOf(devices[..n]) + (if t.Some? then [t.value] else [])
  }

  /** Reading the devices again: everything is to be pushed anew. */
  function Enumerated(devices: seq<Device>): Cache {
    Cache(TargetsOf(devices), None)
  }

  // ---- What a frame asks for -------------------------------------------------------------

  /** A brightness in percent, mapped into the mode's own range. */
  function MapBrightness(percent: byte, m: Mode): (r: u32)
    ensures m.brightnessMin <= r && (r <= m.brightnessMax || r == m.brightnessMin)
    ensures percent >= 100 && m.brightnessMin <= m.brightnessMax ==> r == m.brightnessMax
    ensures percent == 0 ==> r == m.brightnessMin
  {
    if m.brightnessMax <= m.brightnessMin then m.brightnessMin
    else
      var span := m.brightnessMax - m.brightnessMin;
      var p := if percent > 100 then 100 else percent;
      m.brightnessMin + PercentOf(span, p)
  }

  function PercentOf(span: nat, p: nat): (r: nat)
    requires p <= 100
    ensures r <= span && (p == 100 ==> r == span) && (p == 0 ==> r == 0)
  {
    assert span * p <= span * 100;
    span * p / 100
  }

  lemma PercentIsMonotone(span: nat, p: nat, q: nat)
    requires p <= q <= 100
    ensures PercentOf(span, p) <= PercentOf(span, q)
  {
    assert span * p <= span * q;
    DivisionIsMonotone(span * p, span * q);
  }

  lemma DivisionIsMonotone(a: nat, b: nat)
    requires a <= b
    ensures a / 100 <= b / 100
  {
  }

  lemma BrightnessIsMonotone(low: byte, high: byte, m: Mode)
    requires low <= high
    ensures MapBrightness(low, m) <= MapBrightness(high, m)
  {
    if m.brightnessMax > m.brightnessMin {
      PercentIsMonotone(m.brightnessMax - m.brightnessMin, if low > 100 then 100 else low,
                        if high > 100 then 100 else high);
    }
    hide PercentOf;
  }

  /** The mode as this frame wants it. */
  function Adjusted(m: Mode, perLed: bool, frame: Frame): Mode {
    var lit := if HasBrightness(m) then m.(brightness := MapBrightness(frame.brightness, m)) else m;
    if perLed then lit
    else
      lit.(colors := if lit.colors == [] then [frame.color.ToWire()] else lit.colors[0 := frame.color.ToWire()],
           colorMode := MODE_COLORS_MODE_SPECIFIC)
  }

  datatype Command = SetMode(devIdx: u32, mode: Mode) | SetLeds(devIdx: u32, color: Rgb, count: u16)

  function LedCommands(t: Target, frame: Frame): seq<Command> {
    if t.perLed then [SetLeds(t.devIdx, frame.color, t.ledCount)] else []
  }

  /** Everything the frame asks of the device. */
  function AllCommands(t: Target, frame: Frame): seq<Command> {
    [SetMode(t.devIdx, Adjusted(t.mode, t.perLed, frame))] + LedCommands(t, frame)
  }

  /** What is left of it when the mode is known to be there already. */
  function NeededCommands(t: Target, frame: Frame): seq<Command> {
    (if !t.modePushed || Adjusted(t.mode, t.perLed, frame) != t.mode then
       [SetMode(t.devIdx, Adjusted(t.mode, t.perLed, frame))]
     else [])
    + LedCommands(t, frame)
  }

  function Pushed(t: Target, frame: Frame): Target {
    t.(mode := Adjusted(t.mode, t.perLed, frame), modePushed := true)
  }

  function PushedAll(targets: seq<Target>, frame: Frame): (r: seq<Target>)
    ensures |r| == |targets| && forall i :: 0 <= i < |r| ==> r[i] == Pushed(targets[i], frame)
  {
    if targets == [] then []
    else PushedAll(targets[..|targets| - 1], frame) + [Pushed(targets[|targets| - 1], frame)]
  }

  function NeededAll(targets: seq<Target>, frame: Frame): seq<Command> {
    if targets == [] then []
    else NeededAll(targets[..|targets| - 1], frame) + NeededCommands(targets[|targets| - 1], frame)
  }

  function CommandsAll(targets: seq<Target>, frame: Frame): seq<Command> {
    if targets == [] then []
    else CommandsAll(targets[..|targets| - 1], frame) + AllCommands(targets[|targets| - 1], frame)
  }

  function Applied(c: Cache, frame: Frame): (Cache, seq<Command>) {
    if c.last == Some(frame) then (c, [])
    else (Cache(PushedAll(c.targets, frame), Some(frame)), NeededAll(c.targets, frame))
  }

  // ---- The connection --------------------------------------------------------------------

  function Encoded(c: Command): seq<byte> {
    match c
    case SetMode(devIdx, mode) => Framed(Packet(devIdx, UPDATE_MODE, ModeBytes(mode)))
    case SetLeds(devIdx, color, count) => Framed(Packet(devIdx, UPDATE_LEDS, LedBytes(color, count)))
  }

  function EncodedAll(commands: seq<Command>): seq<byte> {
    if commands == [] then []
    else EncodedAll(commands[..|commands| - 1]) + Encoded(commands[|commands| - 1])
  }

  lemma {:induction false} EncodedConcat(a: seq<Command>, b: seq<Command>)
    ensures EncodedAll(a + b) == EncodedAll(a) + EncodedAll(b)
  {
    hide Encoded;
    if b == [] {
      assert a + b == a;
    } else {
      assert (a + b)[..|a + b| - 1] == a + b[..|b| - 1];
      EncodedConcat(a, b[..|b| - 1]);
    }
  }

  class Conn {
    var targets: seq<Target>
    var last: Option<Frame>
    /** The bytes written to the server so far. */
    var written: seq<byte>

    function State(): Cache
      reads this
    {
      Cache(targets, last)
    }

    constructor ()
      ensures State() == Cache([], None) && written == []
    {
      targets, last, written := [], None, [];
    }

    /** Read every device's description again; an error leaves the connection to be dropped. */
    method Enumerate(descriptions: seq<seq<byte>>) returns (r: Result<(), ReadError>)
      requires |descriptions| < 0x1_0000_0000
      modifies this
      ensures r.Success? <==> forall i :: 0 <= i < |descriptions| ==> DeviceAt(i, descriptions[i]).Got?
      ensures r.Success? ==> State() == Enumerated(Described(descriptions))
      ensures written == old(written)
    {
      hide DeviceAt, ChosenMode;
      var found: seq<Target> := [];
      for i := 0 to |descriptions|
        invariant forall j :: 0 <= j < i ==> DeviceAt(j, descriptions[j]).Got?
        invariant State() == old(State()) && written == old(written)
        invariant found == TargetsOf(Described(descriptions[..i]))
      {
        var d := ParseDevice(i, descriptions[i]);
        if d.Failure? {
          return Failure(d.error);
        }
        DescribedMore(descriptions, i);
        var t := TargetOf(d.value);
        if t.Some? {
          found := found + [t.value];
        }
      }
      assert descriptions[..|descriptions|] == descriptions;
      targets, last := found, None;
      return Success(());
    }

    method Apply(frame: Frame)
      modifies this
      ensures var (c, commands) := Applied(old(State()), frame);
        State() == c && written == old(written) + EncodedAll(commands)
    {
      hide Encoded, Adjusted, NeededCommands;
      if last == Some(frame) {
        return;
      }
      ghost var before := targets;
      for i := 0 to |targets|
        invariant |targets| == |before|
        invariant forall j :: 0 <= j < i ==> targets[j] == Pushed(before[j], frame)
        invariant forall j :: i <= j < |targets| ==> targets[j] == before[j]
        invariant written == old(written) + EncodedAll(NeededAll(before[..i], frame))
      {
        var t, commands := Update(targets[i], frame);
        assert before[..i + 1][..i] == before[..i];
        EncodedConcat(NeededAll(before[..i], frame), commands);
        targets := targets[i := t];
        Write(commands);
      }
      assert before[..|before|] == before;
      assert targets == PushedAll(before, frame);
      last := Some(frame);
    }

    /** One target: note what changes and list the packets it takes. */
    method Update(target: Target, frame: Frame) returns (t: Target, commands: seq<Command>)
      ensures t == Pushed(target, frame) && commands == NeededCommands(target, frame)
    {
      var pushMode := !target.modePushed;
      t := target;
      commands := [];
      if HasBrightness(t.mode) {
        var wanted := MapBrightness(frame.brightness, t.mode);
        if t.mode.brightness != wanted {
          t := t.(mode := t.mode.(brightness := wanted));
          pushMode := true;
        }
      }
      if !t.perLed {
        var wire := frame.color.ToWire();
        if t.mode.colors == [] || t.mode.colors[0] != wire || t.mode.colorMode != MODE_COLORS_MODE_SPECIFIC {
          var colors := if t.mode.colors == [] then [wire] else t.mode.colors[0 := wire];
          t := t.(mode := t.mode.(colors := colors, colorMode := MODE_COLORS_MODE_SPECIFIC));
          pushMode := true;
        }
      }
      if pushMode {
        commands := [SetMode(t.devIdx, t.mode)];
        t := t.(modePushed := true);
      }
      if t.perLed {
        commands := commands + [SetLeds(t.devIdx, frame.color, t.ledCount)];
      }
    }

    method Write(commands: seq<Command>)
      modifies `written
      ensures written == old(written) + EncodedAll(commands)
    {
      hide ModeBytes, LedBytes, Framed;
      assert commands[..0] == [];
      for i := 0 to |commands|
        invariant written == old(written) + EncodedAll(commands[..i])
      {
        assert commands[..i + 1][..i] == commands[..i];
        var packet;
        match commands[i] {
          case SetMode(devIdx, mode) => packet := UpdateMode(devIdx, mode);
          case SetLeds(devIdx, color, count) => packet := UpdateLeds(devIdx, color, count);
        }
        written := written + packet;
      }
      assert commands[..|commands|] == commands;
    }
  }

  /** The devices these descriptions describe. */
  function Described(descriptions: seq<seq<byte>>): (r: seq<Device>)
    requires |descriptions| < 0x1_0000_0000
    requires forall i :: 0 <= i < |descriptions| ==> DeviceAt(i, descriptions[i]).Got?
    ensures |r| == |descriptions| && forall i :: 0 <= i < |r| ==> r[i] == DeviceAt(i, descriptions[i]).value
  {
    seq(|descriptions|, i requires 0 <= i < |descriptions| => DeviceAt(i, descriptions[i]).value)
  }

  lemma DescribedMore(descriptions: seq<seq<byte>>, i: nat)
    requires i < |descriptions| < 0x1_0000_0000
    requires forall j :: 0 <= j <= i ==> DeviceAt(j, descriptions[j]).Got?
    ensures var more := Described(descriptions[..i + 1]);
      more[..i] == Described(descriptions[..i]) && more[i] == DeviceAt(i, descriptions[i]).value
  {
    hide DeviceAt;
  }
}
