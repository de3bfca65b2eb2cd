/**
 What the hub's own LEDs should show (src/rgb/mod.rs): a slot color, pairing and bind animations
 over it, and an idle gate that fades everything out when nobody is there. Times are integers in
 microseconds.
*/
module Lighting {
  import opened Wrappers
  import opened Slots
  import opened HidReports
  import opened WireFormat

  const BLINK: int := 500_000
  const FLASH: int := 180_000
  const FADE_TICK: int := 40_000
  const FADE_IN: int := 250_000
  const FADE_OUT: int := 1_000_000
  const ACTIVITY_COALESCE: int := 1_000_000

  /** Level moved per fade tick, rounded up so that a fade reaches its end. */
  function FadeStep(total: int): (r: byte)
    requires total > 0
  {
    var step := (255 * FADE_TICK + total - 1) / total;
    if step > 255 then 255 else step
  }

  const FADE_IN_STEP: byte := FadeStep(FADE_IN)
  const FADE_OUT_STEP: byte := FadeStep(FADE_OUT)

  const OFF := Rgb(0, 0, 0)

  datatype Frame = Frame(color: Rgb, brightness: byte)

  datatype Anim = Steady | Pairing(lit: bool) | Flashing(left: nat, lit: bool)

  datatype LightEvent = PairingOpen | PairingClosed | Bound | Repaint

  /** Colors and brightness per slot (src/config.rs), and how long the desk may stay quiet. */
  datatype Settings = Settings(
    brightness: byte, localColor: Rgb, pairingColor: Rgb, boundColor: Rgb, idleTimeout: Option<int>,
    palette: seq<Rgb>, colors: map<Slot, Rgb>, brightnesses: map<Slot, byte>)
  {
    function SlotColor(slot: Slot): Rgb {
      if slot == LOCAL_SLOT then localColor
      else if slot in colors then colors[slot]
      else if palette == [] then localColor
      else palette[(if slot > LOCAL_SLOT + 1 then slot - (LOCAL_SLOT + 1) else 0) % |palette|]
    }

    function SlotBrightness(slot: Slot): byte {
      if slot in brightnesses then brightnesses[slot] else brightness
    }
  }

  /** `level` is the idle gate, 255 lit down to 0 dark; `dark` says where it is heading. */
  datatype Lamp = Lamp(
    slot: Slot, anim: Anim, animTick: Option<int>, level: byte, dark: bool, idleAt: Option<int>, fadeTick: Option<int>)
  {
    function Goal(): byte {
      if dark then 0 else 255
    }
  }

  function After(start: int, timeout: Option<int>): Option<int> {
    if timeout.Some? then Some(start + timeout.value) else None
  }

  predicate Due(at: Option<int>, now: int) {
    at.Some? && now >= at.value
  }

  // ---- Brightness of a color -------------------------------------------------------------

  /** One channel scaled toward black along a squared curve. */
  function Scale(c: byte, level: byte): (r: byte)
    ensures r <= c
  {
    ScaleFits(c, level);
    c * (level * level) / (255 * 255)
  }

  lemma ScaleFits(c: byte, level: byte)
    ensures 0 <= c * (level * level) / (255 * 255) <= c
  {
    SquareIsMonotone(level, 255);
    assert c * (level * level) <= c * (255 * 255);
  }

  lemma SquareIsMonotone(a: nat, b: nat)
    requires a <= b
    ensures a * a <= b * b
  {
    assert a * a <= a * b <= b * b;
  }

  function Dim(color: Rgb, level: byte): Rgb {
    if level == 255 then color else Rgb(Scale(color.r, level), Scale(color.g, level), Scale(color.b, level))
  }

  predicate Darker(a: Rgb, b: Rgb) {
    a.r <= b.r && a.g <= b.g && a.b <= b.b
  }

  lemma ScaleIsMonotone(c: byte, d: byte, low: byte, high: byte)
    requires c <= d && low <= high
    ensures Scale(c, low) <= Scale(d, high)
  {
    SquareIsMonotone(low, high);
    assert c * (low * low) <= d * (low * low);
    assert d * (low * low) <= d * (high * high);
  }

  lemma ScaleEnds(c: byte)
    ensures Scale(c, 255) == c && Scale(c, 0) == 0
  {
  }

  /** A higher level never shows a channel darker; full level is the color itself, and level 0 is black. */
  lemma DimIsAFade(color: Rgb, low: byte, high: byte)
    requires low <= high
    ensures Darker(Dim(color, low), Dim(color, high)) && Darker(Dim(color, high), color)
    ensures Dim(color, 255) == color && Dim(color, 0) == OFF
  {
    ScaleIsMonotone(color.r, color.r, low, high);
    ScaleIsMonotone(color.g, color.g, low, high);
    ScaleIsMonotone(color.b, color.b, low, high);
    ScaleEnds(color.r);
    ScaleEnds(color.g);
    ScaleEnds(color.b);
    hide Scale;
  }

  /** In between, a channel is the color's share by the square of the level, rounded down. */
  lemma DimFollowsTheSquare(color: Rgb, level: byte)
    ensures var dim := Dim(color, level);
      IsSquaredShare(dim.r, color.r, level) && IsSquaredShare(dim.g, color.g, level)
      && IsSquaredShare(dim.b, color.b, level)
  {
    if level == 255 {
      ScaleEnds(color.r);
      ScaleEnds(color.g);
      ScaleEnds(color.b);
    }
    ScaleIsShare(color.r, level);
    ScaleIsShare(color.g, level);
    ScaleIsShare(color.b, level);
    hide Scale, IsSquaredShare;
  }

  predicate IsSquaredShare(dim: byte, c: byte, level: byte) {
    65025 * dim <= c * level * level < 65025 * (dim + 1)
  }

  lemma ScaleIsShare(c: byte, level: byte)
    ensures IsSquaredShare(Scale(c, level), c, level)
  {
    assert c * (level * level) == c * level * level;
  }

  // ---- The lamp's steps ------------------------------------------------------------------

  function NewLamp(s: Settings, slot: Slot, now: int): Lamp {
    Lamp(slot, Steady, None, 255, false, After(now, s.idleTimeout), None)
  }

  function Blinking(s: Settings, l: Lamp, lit: bool, color: Rgb): Frame {
    Frame(if lit then color else OFF, s.SlotBrightness(l.slot))
  }

  /** The animation's frame, before the idle gate. */
  function Rendered(s: Settings, l: Lamp): Frame {
    match l.anim
    case Steady => Frame(s.SlotColor(l.slot), s.SlotBrightness(l.slot))
    case Pairing(lit) => Blinking(s, l, lit, s.pairingColor)
    case Flashing(_, lit) => Blinking(s, l, lit, s.boundColor)
  }

  function Shown(s: Settings, l: Lamp): Frame {
    Rendered(s, l).(color := Dim(Rendered(s, l).color, l.level))
  }

  function Least(a: Option<int>, b: Option<int>): Option<int> {
    if a.None? then b else if b.None? then a else if b.value < a.value then b else a
  }

  function NextTick(l: Lamp): Option<int> {
    Least(Least(l.animTick, l.fadeTick), l.idleAt)
  }

  function Happened(l: Lamp, event: LightEvent, now: int): Lamp {
    match event
    case PairingOpen => l.(anim := Pairing(true), animTick := Some(now + BLINK))
    case PairingClosed => if l.anim.Pairing? then l.(anim := Steady, animTick := None) else l
    case Bound => l.(anim := Flashing(3, true), animTick := Some(now + FLASH))
    case Repaint => l
  }

  function FadeSynced(l: Lamp, now: int): Lamp {
    l.(fadeTick := if l.level == l.Goal() then None else Some(now + FADE_TICK))
  }

  function Touched(s: Settings, l: Lamp, at: int, now: int): Lamp {
    FadeSynced(l.(dark := false, idleAt := After(at, s.idleTimeout)), now)
  }

  function Idled(l: Lamp, now: int): Lamp {
    if Due(l.idleAt, now) then FadeSynced(l.(dark := true, idleAt := None), now) else l
  }

  /** One fade step from this level. */
  function Stepped(level: byte, dark: bool): byte {
    if dark then (if level < FADE_OUT_STEP then 0 else level - FADE_OUT_STEP)
    else (if level + FADE_IN_STEP > 255 then 255 else level + FADE_IN_STEP)
  }

  function Faded(l: Lamp, now: int): Lamp {
    if Due(l.fadeTick, now) then FadeSynced(l.(level := Stepped(l.level, l.dark)), now) else l
  }

  function Animated(l: Lamp, now: int): Lamp {
    if !Due(l.animTick, now) then l
    else
      match l.anim
      case Steady => l.(animTick := None)
      case Pairing(lit) => l.(anim := Pairing(!lit), animTick := Some(l.animTick.value + BLINK))
      case Flashing(left, lit) =>
        if left == 0 then l.(anim := Steady, animTick := None)
        else l.(anim := Flashing(left - 1, !lit), animTick := Some(l.animTick.value + FLASH))
  }

  function Ticked(l: Lamp, now: int): Lamp {
    Animated(Faded(Idled(l, now), now), now)
  }

  // ---- The objects -----------------------------------------------------------------------

  class Lights {
    const settings: Settings
    var slot: Slot
    var anim: Anim
    var animTick: Option<int>
    var level: byte
    var dark: bool
    var idleAt: Option<int>
    var fadeTick: Option<int>

    function State(): Lamp
      reads this
    {
      Lamp(slot, anim, animTick, level, dark, idleAt, fadeTick)
    }

    constructor (settings: Settings, slot: Slot, now: int)
      ensures State() == NewLamp(settings, slot, now) && this.settings == settings
    {
      this.settings, this.slot := settings, slot;
      anim, animTick, level, dark, fadeTick := Steady, None, 255, false, None;
      idleAt := After(now, settings.idleTimeout);
    }

    method SetSlot(slot: Slot)
      modifies this
      ensures State() == old(State()).(slot := slot)
    {
      this.slot := slot;
    }

    method OnEvent(event: LightEvent, now: int)
      modifies this
      ensures State() == Happened(old(State()), event, now)
    {
      match event {
        case PairingOpen =>
          anim, animTick := Pairing(true), Some(now + BLINK);
        case PairingClosed =>
          if anim.Pairing? {
            anim, animTick := Steady, None;
          }
        case Bound =>
          anim, animTick := Flashing(3, true), Some(now + FLASH);
        case Repaint =>
      }
    }

    method OnActivity(at: int, now: int)
      modifies this
      ensures State() == Touched(settings, old(State()), at, now)
    {
      dark := false;
      idleAt := After(at, settings.idleTimeout);
      SyncFade(now);
    }

    method Tick(now: int)
      modifies this
      ensures State() == Ticked(old(State()), now)
    {
      if Due(idleAt, now) {
        dark, idleAt := true, None;
        SyncFade(now);
      }
      if Due(fadeTick, now) {
        StepFade(now);
      }
      if Due(animTick, now) {
        TickAnim(now);
      }
    }

    method SyncFade(now: int)
      modifies `fadeTick
      ensures State() == FadeSynced(old(State()), now)
    {
      var settled := level == if dark then 0 else 255;
      fadeTick := if settled then None else Some(now + FADE_TICK);
    }

    method StepFade(now: int)
      modifies `level, `fadeTick
      ensures State() == FadeSynced(old(State()).(level := Stepped(old(level), dark)), now)
    {
      if dark {
        level := if level < FADE_OUT_STEP then 0 else level - FADE_OUT_STEP;
      } else {
        level := if level + FADE_IN_STEP > 255 then 255 else level + FADE_IN_STEP;
      }
      SyncFade(now);
    }

    method TickAnim(now: int)
      requires Due(animTick, now)
      modifies `anim, `animTick
      ensures State() == Animated(old(State()), now)
    {
      match anim {
        case Steady => animTick := None;
        case Pairing(lit) =>
          anim := Pairing(!lit);
          animTick := Some(animTick.value + BLINK);
        case Flashing(left, lit) =>
          if left == 0 {
            anim, animTick := Steady, None;
          } else {
            anim := Flashing(left - 1, !lit);
            animTick := Some(animTick.value + FLASH);
          }
      }
    }
  }

  /** When "the user is here" was last sent, after an input event at `now`: at most once a second. */
  function LastPing(lastSent: int, now: int): int {
    if now >= lastSent + ACTIVITY_COALESCE then now else lastSent
  }

  /** The router's coalesced "the user is here". */
  class Activity {
    var lastSent: int

    constructor (now: int)
      ensures lastSent == now - ACTIVITY_COALESCE
    {
      lastSent := now - ACTIVITY_COALESCE;
    }

    method Ping(now: int) returns (sent: bool)
      modifies this
      ensures sent == (now >= old(lastSent) + ACTIVITY_COALESCE)
      ensures lastSent == LastPing(old(lastSent), now)
    {
      if now < lastSent + ACTIVITY_COALESCE {
        return false;
      }
      lastSent := now;
      return true;
    }
  }
}
