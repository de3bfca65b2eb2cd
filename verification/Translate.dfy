/**
 Stateful translation of key and motion events into input reports (src/hid/translate.rs).

 `TState` is the translator with its bit fields and its six-entry array read as sets. The
 class `Translator` keeps the bytes and the array, works on them in place, and is proved to
 be that set machine; the reports it emits are proved to decode to the set machine's reports.
*/
module Translate {
  import opened Keys
  import opened HidReports
  import opened Keymap

  const ROLLOVER: nat := 6

  datatype Axis = RelX | RelY | RelWheel | OtherAxis

  datatype TState = TState(
    mods: set<nat>,
    keys: set<byte>,
    kbdDirty: bool,
    buttons: set<nat>,
    buttonsDirty: bool,
    consumer: nat,
    consumerDirty: bool,
    pending: Motion,
    mac: bool)
  {
    /** Nothing is reported as held. */
    predicate AllUp() {
      mods == {} && keys == {} && buttons == {} && consumer == 0
    }

    predicate Idle() {
      AllUp() && !kbdDirty && !buttonsDirty && !consumerDirty && pending == STILL
    }

    function KeyboardNow(): Report {
      KeyboardReport(if mac then SwapBits(mods) else mods, keys)
    }
  }

  const FRESH := TState({}, {}, false, {}, false, 0, false, STILL, false)

  // ---- The set machine -------------------------------------------------------------------

  function Toggle(s: set<nat>, bit: nat, pressed: bool): set<nat> {
    if pressed then s + {bit} else s - {bit}
  }

  /** One key event; repeats are ignored, a seventh key is dropped. */
  function HandleMeaning(t: TState, m: Meaning, value: int): TState {
    if value == 2 then t
    else
      var pressed := value == 1;
      match m
      case ConsumerUsage(code) =>
        var new' := if pressed then code else if t.consumer == code then 0 else t.consumer;
        t.(consumer := new', consumerDirty := t.consumerDirty || new' != t.consumer)
      case Button(bit) =>
        var new' := Toggle(t.buttons, bit, pressed);
        t.(buttons := new', buttonsDirty := t.buttonsDirty || new' != t.buttons)
      case ModifierBit(bit) =>
        var new' := Toggle(t.mods, bit, pressed);
        t.(mods := new', kbdDirty := t.kbdDirty || new' != t.mods)
      case KeyUsage(usage) =>
        var new' := if !pressed then t.keys - {usage}
                    else if |t.keys| < ROLLOVER then t.keys + {usage}
                    else t.keys;
        t.(keys := new', kbdDirty := t.kbdDirty || new' != t.keys)
      case NoMeaning => t
  }

  function TranslateKey(t: TState, key: KeyCode, value: int): TState {
    HandleMeaning(t, MeaningOf(key), value)
  }

  function TranslateRel(t: TState, axis: Axis, value: int): TState {
    t.(pending := t.pending.Plus(AxisMotion(axis, value)))
  }

  function AxisMotion(axis: Axis, value: int): Motion {
    match axis
    case RelX => Motion(value, 0, 0)
    case RelY => Motion(0, value, 0)
    case RelWheel => Motion(0, 0, value)
    case OtherAxis => STILL
  }

  function KeyboardFlushed(t: TState): (TState, seq<Report>) {
    if t.kbdDirty then (t.(kbdDirty := false), [t.KeyboardNow()]) else (t, [])
  }

  function ConsumerFlushed(t: TState): (TState, seq<Report>) {
    if t.consumerDirty then (t.(consumerDirty := false), [ConsumerReport(t.consumer)]) else (t, [])
  }

  function Clamp(v: int): (c: int)
    ensures -127 <= c <= 127
  {
    if v < -127 then -127 else if v > 127 then 127 else v
  }

  function Chunk(m: Motion): Motion {
    Motion(Clamp(m.dx), Clamp(m.dy), Clamp(m.wheel))
  }

  function Rest(m: Motion): Motion {
    Motion(m.dx - Clamp(m.dx), m.dy - Clamp(m.dy), m.wheel - Clamp(m.wheel))
  }

  function Abs(v: int): nat {
    if v < 0 then -v else v
  }

  function Size(m: Motion): nat {
    Abs(m.dx) + Abs(m.dy) + Abs(m.wheel)
  }

  /** At least one report; further ones for as long as motion beyond the 8-bit range is left. */
  function MouseReports(buttons: set<nat>, m: Motion): (r: seq<Report>)
    ensures |r| > 0
    decreases Size(m)
  {
    [MouseReport(buttons, Chunk(m))] + (if Rest(m) == STILL then [] else MouseReports(buttons, Rest(m)))
  }

  function MouseFlushed(t: TState): (TState, seq<Report>) {
    if !t.buttonsDirty && t.pending == STILL then (t, [])
    else (t.(pending := STILL, buttonsDirty := false), MouseReports(t.buttons, t.pending))
  }

  /** Everything up; a report goes out only for the parts that are not up already. */
  function AllReleased(t: TState): (TState, seq<Report>) {
    (FRESH.(mac := t.mac),
     (if t.mods != {} || t.keys != {} then [KeyboardReport({}, {})] else [])
     + (if t.buttons != {} then [MouseReport({}, STILL)] else [])
     + (if t.consumer != 0 then [ConsumerReport(0)] else []))
  }

  // ---- The object ------------------------------------------------------------------------

  ghost predicate NoUsageTwice(s: seq<byte>) {
    forall i, j :: 0 <= i < j < |s| && s[j] != 0 ==> s[i] != s[j]
  }

  ghost predicate UsedFirst(s: seq<byte>) {
    forall i, j :: 0 <= i < j < |s| && s[j] != 0 ==> s[i] != 0
  }

  ghost predicate Packed(s: seq<byte>) {
    NoUsageTwice(s) && UsedFirst(s)
  }

  lemma {:induction false} PackedCount(s: seq<byte>, n: nat)
    requires n <= |s| && Packed(s)
    requires forall i :: 0 <= i < n ==> s[i] != 0
    requires forall i :: n <= i < |s| ==> s[i] == 0
    ensures |NonZero(s)| == n
    decreases n
  {
    if n == 0 {
      assert NonZero(s) == {};
    } else {
      var t := s[n - 1 := 0];
      PackedCount(t, n - 1);
      assert NonZero(s) == NonZero(t) + {s[n - 1]} by {
        assert forall i :: 0 <= i < |s| && i != n - 1 ==> t[i] == s[i];
      }
      assert s[n - 1] !in NonZero(t);
    }
  }

  lemma SameElementsSameSet(a: seq<byte>, b: seq<byte>)
    requires multiset(a) == multiset(b)
    ensures NonZero(a) == NonZero(b)
  {
    forall x: byte ensures x in NonZero(a) <==> x in NonZero(b) {
      assert x in a <==> x in multiset(a);
      assert x in b <==> x in multiset(b);
    }
  }

  lemma FreeSlot(s: seq<byte>, slot: nat)
    requires |s| == ROLLOVER && Packed(s) && slot <= |s|
    requires forall i :: 0 <= i < slot ==> s[i] != 0
    requires slot < |s| ==> s[slot] == 0
    ensures |NonZero(s)| == slot
  {
    PackedCount(s, slot);
  }

  lemma FillSlot(s: seq<byte>, slot: nat, usage: byte)
    requires slot < |s| && Packed(s) && s[slot] == 0 && usage != 0 && usage !in s
    requires forall i :: 0 <= i < slot ==> s[i] != 0
    ensures Packed(s[slot := usage]) && NonZero(s[slot := usage]) == NonZero(s) + {usage}
  {
    var t := s[slot := usage];
    assert forall i :: 0 <= i < |s| && i != slot ==> t[i] == s[i];
    assert t[slot] == usage;
  }

  lemma EmptySlot(s: seq<byte>, slot: nat)
    requires slot < |s| && Packed(s) && s[slot] != 0
    ensures NonZero(s[slot := 0]) == NonZero(s) - {s[slot]}
    ensures NoUsageTwice(s[slot := 0])
  {
    var t := s[slot := 0];
    assert forall i :: 0 <= i < |s| && i != slot ==> t[i] == s[i];
  }

  /** Rearranging keeps usages distinct. */
  lemma CompactedIsPacked(a: seq<byte>, b: seq<byte>)
    requires multiset(a) == multiset(b)
    requires NoUsageTwice(a) && UsedFirst(b)
    ensures Packed(b)
  {
    forall i, j | 0 <= i < j < |b| && b[j] != 0 ensures b[i] != b[j] {
      if b[i] == b[j] {
        Repeated(b, i, j);
        Unrepeated(a, b[j]);
      }
    }
  }

  lemma Repeated(s: seq<byte>, i: nat, j: nat)
    requires i < j < |s| && s[i] == s[j]
    ensures multiset(s)[s[j]] >= 2
  {
    assert s == s[..i] + [s[i]] + s[i + 1..j] + [s[j]] + s[j + 1..];
  }

  lemma {:induction false} Unrepeated(s: seq<byte>, x: byte)
    requires x != 0 && NoUsageTwice(s)
    ensures multiset(s)[x] <= 1
  {
    if s != [] {
      assert s == [s[0]] + s[1..];
      Unrepeated(s[1..], x);
      if s[0] == x {
        assert x !in s[1..];
      }
    }
  }

  ghost predicate Rearranged(a: seq<byte>, b: seq<byte>) {
    multiset(a) == multiset(b)
  }

  lemma ExchangeRearranges(s: seq<byte>, i: nat, j: nat)
    requires i <= j < |s|
    ensures Rearranged(s, s[i := s[j]][j := s[i]])
  {
  }

  lemma RearrangedSteps(a: seq<byte>, b: seq<byte>, c: seq<byte>)
    ensures Rearranged(a, a)
    ensures Rearranged(a, b) && Rearranged(b, c) ==> Rearranged(a, c)
  {
  }

  function ToggleByte(b: bv8, bit: nat, pressed: bool): bv8
    requires bit < 8
  {
    if pressed then b | Mask(bit) else b & !Mask(bit)
  }

  lemma ToggleByteTogglesBit(b: bv8, bit: nat, pressed: bool)
    requires bit < 8
    ensures Bits(ToggleByte(b, bit, pressed)) == Toggle(Bits(b), bit, pressed)
    ensures ToggleByte(b, bit, pressed) == b <==> Toggle(Bits(b), bit, pressed) == Bits(b)
  {
    hide Mask, Bits;
    SetAndClearBit(b, bit);
    if ToggleByte(b, bit, pressed) != b {
      BitsDetermineByte(ToggleByte(b, bit, pressed), b);
    }
  }

  lemma DecodeNone()
    ensures DecodeAll([]) == []
    ensures forall r: seq<Report> :: [] + r == r
  {
  }

  /** Sending one chunk of the motion leaves exactly the reports of the rest to send. */
  lemma RestIsSmaller(m: Motion)
    ensures Rest(m) != STILL ==> Size(Rest(m)) < Size(m)
  {
  }

  lemma ChunkStep(out: seq<HidFrame>, buttons: bv8, m: Motion)
    ensures var frame := Mouse(buttons, AsByte(Clamp(m.dx)), AsByte(Clamp(m.dy)), AsByte(Clamp(m.wheel)));
      DecodeAll(out) + MouseReports(Bits(buttons), m)
      == if Rest(m) == STILL then DecodeAll(out + [frame])
         else DecodeAll(out + [frame]) + MouseReports(Bits(buttons), Rest(m))
  {
    hide Bits;
    var frame := Mouse(buttons, AsByte(Clamp(m.dx)), AsByte(Clamp(m.dy)), AsByte(Clamp(m.wheel)));
    DecodeAllConcat(out, [frame]);
    DecodeOne(frame);
    assert Decode(frame) == MouseReport(Bits(buttons), Chunk(m));
    var first := [Decode(frame)];
    if Rest(m) == STILL {
      assert first + [] == first;
    } else {
      var more := MouseReports(Bits(buttons), Rest(m));
      assert DecodeAll(out) + (first + more) == (DecodeAll(out) + first) + more;
    }
  }

  class Translator {
    var modifiers: bv8
    const keys: array<byte>
    var kbdDirty: bool
    var buttons: bv8
    var dx: int
    var dy: int
    var wheel: int
    var buttonsDirty: bool
    var consumer: nat
    var consumerDirty: bool
    var macLayout: bool

    ghost predicate Valid()
      reads this, keys
    {
      keys.Length == ROLLOVER && consumer < 0x1_0000 && Packed(keys[..])
    }

    ghost function State(): TState
      reads this, keys
    {
      TState(Bits(modifiers), NonZero(keys[..]), kbdDirty, Bits(buttons), buttonsDirty, consumer, consumerDirty,
             Motion(dx, dy, wheel), macLayout)
    }

    constructor ()
      ensures Valid() && fresh(keys) && State() == FRESH
    {
      modifiers, buttons, consumer := 0, 0, 0;
      dx, dy, wheel := 0, 0, 0;
      kbdDirty, buttonsDirty, consumerDirty, macLayout := false, false, false, false;
      keys := new byte[ROLLOVER](i => 0);
      new;
      BitsOfZero(0);
    }

    method SetMacLayout(on: bool)
      requires Valid()
      modifies this
      ensures Valid() && State() == old(State()).(mac := on)
    {
      macLayout := on;
    }

    /** The first entry holding this value, or the length when there is none. */
    method Position(value: byte) returns (slot: nat)
      ensures slot <= keys.Length
      ensures slot < keys.Length ==> keys[slot] == value
      ensures forall i :: 0 <= i < slot ==> keys[i] != value
    {
      slot := 0;
      while slot < keys.Length && keys[slot] != value
        invariant slot <= keys.Length
        invariant forall i :: 0 <= i < slot ==> keys[i] != value
      {
        slot := slot + 1;
      }
    }

    method Exchange(i: nat, j: nat)
      requires i <= j < keys.Length
      modifies keys
      ensures Rearranged(old(keys[..]), keys[..])
      ensures keys[i] == old(keys[j]) && keys[j] == old(keys[i])
      ensures forall k :: 0 <= k < keys.Length && k != i && k != j ==> keys[k] == old(keys[k])
    {
      ghost var last := keys[..];
      keys[i], keys[j] := keys[j], keys[i];
      assert keys[..] == last[i := last[j]][j := last[i]];
      ExchangeRearranges(last, i, j);
    }

    /** Sort by "is empty": the used entries come first, in some order. */
    method Compact()
      modifies keys
      ensures Rearranged(old(keys[..]), keys[..])
      ensures UsedFirst(keys[..])
    {
      hide Rearranged;
      ghost var before := keys[..];
      var used := 0;
      RearrangedSteps(before, before, before);
      for i := 0 to keys.Length
        invariant used <= i
        invariant Rearranged(before, keys[..])
        invariant forall j :: 0 <= j < used ==> keys[j] != 0
        invariant forall j :: used <= j < i ==> keys[j] == 0
      {
        if keys[i] != 0 {
          ghost var last := keys[..];
          Exchange(used, i);
          RearrangedSteps(before, last, keys[..]);
          used := used + 1;
        }
      }
    }

    method PressKey(usage: byte)
      requires Valid() && usage != 0
      modifies this, keys
      ensures Valid() && State() == HandleMeaning(old(State()), KeyUsage(usage), 1)
    {
      ghost var before := keys[..];
      var at := Position(usage);
      var slot := Position(0);
      assert before[..] == keys[..];
      FreeSlot(before, slot);
      if at == keys.Length && slot < keys.Length {
        keys[slot] := usage;
        kbdDirty := true;
        FillSlot(before, slot, usage);
        assert keys[..] == before[slot := usage];
      } else if at < keys.Length {
        assert usage in NonZero(before);
        assert NonZero(before) + {usage} == NonZero(before);
      }
    }

    method ReleaseKey(usage: byte)
      requires Valid() && usage != 0
      modifies this, keys
      ensures Valid() && State() == HandleMeaning(old(State()), KeyUsage(usage), 0)
    {
      ghost var before := keys[..];
      var slot := Position(usage);
      if slot < keys.Length {
        keys[slot] := 0;
        ghost var holed := keys[..];
        assert holed == before[slot := 0];
        Compact();
        kbdDirty := true;
        SameElementsSameSet(keys[..], holed);
        EmptySlot(before, slot);
        CompactedIsPacked(holed, keys[..]);
      } else {
        assert usage !in NonZero(before);
      }
    }

    method SetConsumer(usage: nat, pressed: bool)
      requires Valid() && 0 < usage < 0x1_0000
      modifies this
      ensures Valid()
      ensures State() == HandleMeaning(old(State()), ConsumerUsage(usage), if pressed then 1 else 0)
    {
      var now := if pressed then usage else if consumer == usage then 0 else consumer;
      if now != consumer {
        consumer, consumerDirty := now, true;
      }
    }

    method SetButton(bit: nat, pressed: bool)
      requires Valid() && bit < 8
      modifies this
      ensures Valid()
      ensures State() == HandleMeaning(old(State()), Button(bit), if pressed then 1 else 0)
    {
      hide ToggleByte, Bits;
      var now := ToggleByte(buttons, bit, pressed);
      ToggleByteTogglesBit(buttons, bit, pressed);
      if now != buttons {
        buttons, buttonsDirty := now, true;
      }
    }

    method SetModifier(bit: nat, pressed: bool)
      requires Valid() && bit < 8
      modifies this
      ensures Valid()
      ensures State() == HandleMeaning(old(State()), ModifierBit(bit), if pressed then 1 else 0)
    {
      hide ToggleByte, Bits;
      var now := ToggleByte(modifiers, bit, pressed);
      ToggleByteTogglesBit(modifiers, bit, pressed);
      if now != modifiers {
        modifiers, kbdDirty := now, true;
      }
    }

    method HandleKey(key: KeyCode, value: int)
      requires Valid()
      modifies this, keys
      ensures Valid() && State() == TranslateKey(old(State()), key, value)
    {
      hide MeaningOf, State;
      if value == 2 {
        return;
      }
      var pressed := value == 1;
      match MeaningOf(key)
      case ConsumerUsage(usage) => SetConsumer(usage, pressed);
      case Button(bit) => SetButton(bit, pressed);
      case ModifierBit(bit) => SetModifier(bit, pressed);
      case KeyUsage(usage) => if pressed { PressKey(usage); } else { ReleaseKey(usage); }
      case NoMeaning =>
    }

    method HandleRel(axis: Axis, value: int)
      requires Valid()
      modifies this
      ensures Valid() && State() == TranslateRel(old(State()), axis, value)
    {
      match axis
      case RelX => dx := dx + value;
      case RelY => dy := dy + value;
      case RelWheel => wheel := wheel + value;
      case OtherAxis =>
    }

    function KeyboardFrame(): HidFrame
      reads this, keys
    {
      Keyboard(if macLayout then SwapLeftAltGui(modifiers) else modifiers, keys[..])
    }

    function ConsumerFrame(): HidFrame
      requires consumer < 0x1_0000
      reads this
    {
      Consumer(consumer % 256, consumer / 256)
    }

    method FlushKeyboard() returns (out: seq<HidFrame>)
      requires Valid()
      modifies this
      ensures Valid() && (State(), DecodeAll(out)) == KeyboardFlushed(old(State()))
    {
      if !kbdDirty {
        return [];
      }
      kbdDirty := false;
      SwapMovesTwoBits(modifiers);
      DecodeOne(KeyboardFrame());
      return [KeyboardFrame()];
    }

    method FlushConsumer() returns (out: seq<HidFrame>)
      requires Valid()
      modifies this
      ensures Valid() && (State(), DecodeAll(out)) == ConsumerFlushed(old(State()))
    {
      if !consumerDirty {
        return [];
      }
      consumerDirty := false;
      DecodeOne(ConsumerFrame());
      return [ConsumerFrame()];
    }

    predicate MotionPending()
      reads this
    {
      dx != 0 || dy != 0 || wheel != 0
    }

    method FlushMouse() returns (out: seq<HidFrame>)
      requires Valid()
      modifies this
      ensures Valid() && (State(), DecodeAll(out)) == MouseFlushed(old(State()))
    {
      out := [];
      if !buttonsDirty && !MotionPending() {
        return;
      }
      hide Bits, NonZero, Packed, Decode, DecodeAll, MouseReports, AsByte, Size, Clamp;
      ghost var due := MouseReports(Bits(buttons), Motion(dx, dy, wheel));
      assert MouseFlushed(State()) == (State().(pending := STILL, buttonsDirty := false), due);
      hide MouseFlushed;
      DecodeNone();
      while true
        modifies `dx, `dy, `wheel
        invariant DecodeAll(out) + MouseReports(Bits(buttons), Motion(dx, dy, wheel)) == due
        decreases Size(Motion(dx, dy, wheel))
      {
        var x, y, w := Clamp(dx), Clamp(dy), Clamp(wheel);
        ChunkStep(out, buttons, Motion(dx, dy, wheel));
        RestIsSmaller(Motion(dx, dy, wheel));
        out := out + [Mouse(buttons, AsByte(x), AsByte(y), AsByte(w))];
        dx, dy, wheel := dx - x, dy - y, wheel - w;
        if !MotionPending() {
          break;
        }
      }
      buttonsDirty := false;
    }

    method ReleaseKeyboard() returns (out: seq<HidFrame>)
      requires Valid()
      modifies this`modifiers, keys
      ensures Valid() && State() == old(State()).(mods := {}, keys := {})
      ensures DecodeAll(out) == if old(State().mods != {} || State().keys != {}) then [KeyboardReport({}, {})] else []
    {
      out := [];
      BitsOfZero(modifiers);
      var unused := Position(0);
      FreeSlot(old(keys[..]), unused);
      if modifiers != 0 || unused > 0 {
        modifiers := 0;
        forall i | 0 <= i < keys.Length {
          keys[i] := 0;
        }
        BitsOfZero(0);
        assert SwapLeftAltGui(0) == 0;
        assert NonZero(keys[..]) == {};
        DecodeOne(KeyboardFrame());
        out := [KeyboardFrame()];
      }
    }

    method ReleaseButtons() returns (out: seq<HidFrame>)
      requires Valid()
      modifies this`buttons
      ensures Valid() && State() == old(State()).(buttons := {})
      ensures DecodeAll(out) == if old(State().buttons != {}) then [MouseReport({}, STILL)] else []
    {
      out := [];
      BitsOfZero(buttons);
      if buttons != 0 {
        buttons := 0;
        BitsOfZero(0);
        out := [Mouse(0, 0, 0, 0)];
        DecodeOne(Mouse(0, 0, 0, 0));
      }
    }

    method ReleaseConsumer() returns (out: seq<HidFrame>)
      requires Valid()
      modifies this`consumer
      ensures Valid() && State() == old(State()).(consumer := 0)
      ensures DecodeAll(out) == if old(consumer) != 0 then [ConsumerReport(0)] else []
    {
      hide Bits, NonZero, Packed, Decode, DecodeAll;
      out := [];
      DecodeNone();
      if consumer != 0 {
        consumer := 0;
        ConsumerFrameDecodes(0);
        out := [ConsumerFrame()];
      }
    }

    /** No motion is pending and nothing counts as changed. */
    method Clean()
      requires Valid()
      modifies `dx, `dy, `wheel, `kbdDirty, `buttonsDirty, `consumerDirty
      ensures Valid()
      ensures State() ==
        old(State()).(pending := STILL, kbdDirty := false, buttonsDirty := false, consumerDirty := false)
    {
      hide Bits, NonZero, Packed;
      dx, dy, wheel := 0, 0, 0;
      kbdDirty, buttonsDirty, consumerDirty := false, false, false;
    }

    method ReleaseAll() returns (out: seq<HidFrame>)
      requires Valid()
      modifies this, keys
      ensures Valid() && (State(), DecodeAll(out)) == AllReleased(old(State()))
    {
      hide Bits, NonZero, Packed, Decode, DecodeAll;
      var keyboard := ReleaseKeyboard();
      var mouse := ReleaseButtons();
      var media := ReleaseConsumer();
      Clean();
      DecodeAllConcat(keyboard, mouse);
      DecodeAllConcat(keyboard + mouse, media);
      out := keyboard + mouse + media;
      hide Translator.Valid, Translator.State;
    }
  }

  lemma ConsumerFrameDecodes(usage: nat)
    requires usage < 0x1_0000
    ensures DecodeAll([Consumer(usage % 256, usage / 256)]) == [ConsumerReport(usage)]
  {
    DecodeOne(Consumer(usage % 256, usage / 256));
  }
}
