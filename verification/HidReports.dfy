/**
 The input reports on the wire, and what a host reads out of them (src/hid/mod.rs).

 `HidFrame` is the report as bytes. `Report` is its meaning under the report descriptor: bit
 fields are sets of bit numbers, the key array is the set of its non-zero usages (section 8.3
 of the Device Class Definition for HID 1.11: the order of an array carries no meaning), and
 the motion bytes are signed.
*/
module HidReports {
  type byte = b: nat | b < 256

  datatype HidFrame =
    | Keyboard(modifiers: bv8, keys: seq<byte>)
    | Mouse(buttons: bv8, dx: byte, dy: byte, wheel: byte)
    | Consumer(lo: byte, hi: byte)
  {
    function ReportId(): byte {
      match this
      case Keyboard(_, _) => REPORT_ID_KEYBOARD
      case Mouse(_, _, _, _) => REPORT_ID_MOUSE
      case Consumer(_, _) => REPORT_ID_CONSUMER
    }
  }

  const REPORT_ID_KEYBOARD: byte := 1
  const REPORT_ID_MOUSE: byte := 2
  const REPORT_ID_CONSUMER: byte := 4

  datatype Report =
    | KeyboardReport(mods: set<nat>, usages: set<byte>)
    | MouseReport(buttons: set<nat>, motion: Motion)
    | ConsumerReport(usage: nat)

  datatype Motion = Motion(dx: int, dy: int, wheel: int) {
    function Plus(other: Motion): Motion {
      Motion(dx + other.dx, dy + other.dy, wheel + other.wheel)
    }
  }

  const STILL := Motion(0, 0, 0)

  // ---- Bytes -----------------------------------------------------------------------------

  function Mask(bit: nat): bv8
    requires bit < 8
  {
    match bit
    case 0 => 0x01
    case 1 => 0x02
    case 2 => 0x04
    case 3 => 0x08
    case 4 => 0x10
    case 5 => 0x20
    case 6 => 0x40
    case _ => 0x80
  }

  function Bits(b: bv8): set<nat> {
    set i | 0 <= i < 8 && b & Mask(i) != 0
  }

  lemma BitsOfZero(b: bv8)
    ensures Bits(b) == {} <==> b == 0
  {
    if Bits(b) == {} {
      forall i | 0 <= i < 8 ensures b & Mask(i) == 0 {
        assert i !in Bits(b);
      }
      assert b & Mask(0) == 0 && b & Mask(1) == 0 && b & Mask(2) == 0 && b & Mask(3) == 0;
      assert b & Mask(4) == 0 && b & Mask(5) == 0 && b & Mask(6) == 0 && b & Mask(7) == 0;
    }
  }

  lemma BitsDetermineByte(a: bv8, b: bv8)
    requires a != b
    ensures Bits(a) != Bits(b)
  {
    if Bits(a) == Bits(b) {
      forall i | 0 <= i < 8 ensures (a ^ b) & Mask(i) == 0 {
        assert i in Bits(a) <==> i in Bits(b);
        SameBit(a, b, i);
      }
      assert Bits(a ^ b) == {};
      BitsOfZero(a ^ b);
      assert false;
    }
  }

  lemma SameBit(a: bv8, b: bv8, i: nat)
    requires i < 8 && (a & Mask(i) != 0 <==> b & Mask(i) != 0)
    ensures (a ^ b) & Mask(i) == 0
  {
  }

  lemma MasksAreDisjoint(b: bv8, bit: nat, i: nat)
    requires bit < 8 && i < 8
    ensures (b | Mask(bit)) & Mask(i) != 0 <==> i == bit || b & Mask(i) != 0
    ensures (b & !Mask(bit)) & Mask(i) != 0 <==> i != bit && b & Mask(i) != 0
  {
  }

  lemma SetAndClearBit(b: bv8, bit: nat)
    requires bit < 8
    ensures Bits(b | Mask(bit)) == Bits(b) + {bit}
    ensures Bits(b & !Mask(bit)) == Bits(b) - {bit}
  {
    forall i | 0 <= i < 8
      ensures (b | Mask(bit)) & Mask(i) != 0 <==> i == bit || b & Mask(i) != 0
      ensures (b & !Mask(bit)) & Mask(i) != 0 <==> i != bit && b & Mask(i) != 0
    {
      MasksAreDisjoint(b, bit, i);
    }
    hide Mask;
  }

  /** Left Alt (bit 2) and Left GUI (bit 3) trade places. */
  function SwapLeftAltGui(m: bv8): bv8 {
    (m & !0x0C) | ((m & 0x04) << 1) | ((m & 0x08) >> 1)
  }

  function SwapIndex(i: nat): nat {
    if i == 2 then 3 else if i == 3 then 2 else i
  }

  function SwapBits(s: set<nat>): set<nat> {
    set i | i in s :: SwapIndex(i)
  }

  lemma SwapBitsTwice(s: set<nat>)
    ensures SwapBits(SwapBits(s)) == s
  {
    forall i ensures i in SwapBits(SwapBits(s)) <==> i in s {
      if i in s {
        assert SwapIndex(i) in SwapBits(s);
        assert SwapIndex(SwapIndex(i)) in SwapBits(SwapBits(s));
      }
    }
  }

  /** The byte arithmetic swaps exactly those two bits, and doing it twice restores the byte. */
  lemma SwapMovesTwoBits(m: bv8)
    ensures Bits(SwapLeftAltGui(m)) == SwapBits(Bits(m))
    ensures SwapLeftAltGui(SwapLeftAltGui(m)) == m
  {
    var w := SwapLeftAltGui(m);
    forall i | 0 <= i < 8 ensures w & Mask(i) != 0 <==> m & Mask(SwapIndex(i)) != 0 {
    }
    hide Mask;
    forall i: nat ensures i in Bits(w) <==> i in SwapBits(Bits(m)) {
      if i in Bits(w) {
        assert SwapIndex(i) in Bits(m) && SwapIndex(SwapIndex(i)) == i;
      }
    }
  }

  function AsByte(v: int): byte
    requires -127 <= v <= 127
  {
    if v < 0 then v + 256 else v
  }

  function AsSigned(b: byte): int {
    if b < 128 then b else b - 256
  }

  lemma SignedByteRoundTrip(v: int)
    requires -127 <= v <= 127
    ensures AsSigned(AsByte(v)) == v
  {
  }

  // ---- Reading a report ------------------------------------------------------------------

  function NonZero(keys: seq<byte>): set<byte> {
    set i | 0 <= i < |keys| && keys[i] != 0 :: keys[i]
  }

  function Decode(frame: HidFrame): Report {
    match frame
    case Keyboard(m, k) => KeyboardReport(Bits(m), NonZero(k))
    case Mouse(b, x, y, w) => MouseReport(Bits(b), Motion(AsSigned(x), AsSigned(y), AsSigned(w)))
    case Consumer(lo, hi) => ConsumerReport(lo + 256 * hi)
  }

  function DecodeAll(frames: seq<HidFrame>): (r: seq<Report>)
    ensures |r| == |frames|
  {
    seq(|frames|, i requires 0 <= i < |frames| => Decode(frames[i]))
  }

  lemma DecodeOne(frame: HidFrame)
    ensures DecodeAll([frame]) == [Decode(frame)]
  {
  }

  lemma DecodeAllConcat(a: seq<HidFrame>, b: seq<HidFrame>)
    ensures DecodeAll(a + b) == DecodeAll(a) + DecodeAll(b)
  {
  }

  /** Total motion of a report sequence. */
  function Travel(reports: seq<Report>): Motion {
    if reports == [] then STILL
    else (if reports[0].MouseReport? then reports[0].motion else STILL).Plus(Travel(reports[1..]))
  }

  lemma {:induction false} TravelConcat(a: seq<Report>, b: seq<Report>)
    ensures Travel(a + b) == Travel(a).Plus(Travel(b))
  {
    if a == [] {
      assert a + b == b;
    } else {
      assert (a + b)[1..] == a[1..] + b;
      TravelConcat(a[1..], b);
    }
  }
}
