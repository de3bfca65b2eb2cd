/**
 The encoders and the parser as the program has them (src/rgb/proto.rs): byte buffers appended to
 in loops, a cursor that advances, a reader that waits for whole packets. Each computes what
 `WireFormat` says.
*/
module OpenRgb {
  import opened Wrappers
  import opened HidReports
  import opened WireFormat

  // ---- Encoding --------------------------------------------------------------------------

  method PutString(out: seq<byte>, text: seq<byte>) returns (r: seq<byte>)
    ensures r == out + StringBytes(text)
  {
    hide Le16, Wrap16;
    r := out + Le16(Wrap16(|text| + 1));
    r := r + text;
    r := r + [0];
    assert r == out + StringBytes(text);
  }

  method PutNumbers(out: seq<byte>, values: seq<u32>) returns (r: seq<byte>)
    ensures r == out + Le32s(values)
  {
    hide Le32;
    r := out;
    assert values[..0] == [];
    for i := 0 to |values|
      invariant r == out + Le32s(values[..i])
    {
      assert values[..i + 1][..i] == values[..i];
      r := r + Le32(values[i]);
    }
    assert values[..|values|] == values;
  }

  method WithSizePrefix(body: seq<byte>) returns (r: seq<byte>)
    ensures r == SizePrefixed(body)
  {
    r := Le32(Wrap32(|body| + 4));
    r := r + body;
  }

  method Encode(mode: Mode) returns (r: seq<byte>)
    ensures r == ModeBytes(mode)
  {
    hide Le32, Le16, Le32s, StringBytes, Unsigned, Wrap16, SizePrefixed;
    var body := Le32(Unsigned(mode.index));
    body := PutString(body, mode.name);
    body := body + Le32(Unsigned(mode.value));
    body := PutNumbers(body, Numbers(mode));
    body := body + Le16(Wrap16(|mode.colors|));
    body := PutNumbers(body, mode.colors);
    assert body == Le32(Unsigned(mode.index)) + ModeFields(mode);
    r := WithSizePrefix(body);
  }

  method Frame(devIdx: u32, id: u32, data: seq<byte>) returns (r: seq<byte>)
    ensures r == Framed(Packet(devIdx, id, data))
  {
    hide Le32, Wrap32;
    r := MAGIC;
    r := r + Le32(devIdx);
    r := r + Le32(id);
    r := r + Le32(Wrap32(|data|));
    r := r + data;
  }

  method UpdateLeds(devIdx: u32, color: Rgb, ledCount: u16) returns (r: seq<byte>)
    ensures r == Framed(Packet(devIdx, UPDATE_LEDS, LedBytes(color, ledCount)))
  {
    hide Le32, Le16, Framed, SizePrefixed, Rgb.ToWire;
    var body := Le16(ledCount);
    var wire := color.ToWire();
    for i := 0 to ledCount
      invariant body == Le16(ledCount) + Le32s(Repeat(wire, i))
    {
      assert Repeat(wire, i + 1)[..i] == Repeat(wire, i);
      body := body + Le32(wire);
    }
    var payload := WithSizePrefix(body);
    r := Frame(devIdx, UPDATE_LEDS, payload);
  }

  method UpdateMode(devIdx: u32, mode: Mode) returns (r: seq<byte>)
    ensures r == Framed(Packet(devIdx, UPDATE_MODE, ModeBytes(mode)))
  {
    var payload := Encode(mode);
    r := Frame(devIdx, UPDATE_MODE, payload);
  }

  // ---- The cursor ------------------------------------------------------------------------

  /** A position in a device description; a read moves it, and an error leaves it where it failed. */
  class Cursor {
    const buf: seq<byte>
    var pos: nat

    constructor (buf: seq<byte>)
      ensures this.buf == buf && pos == 0
    {
      this.buf, pos := buf, 0;
    }

    method Take(n: nat) returns (r: Result<seq<byte>, ReadError>)
      modifies this
      ensures Reads(TakeAt(buf, old(pos), n), r)
      ensures r.Failure? ==> pos == old(pos)
    {
      if pos + n < USIZE && pos + n <= |buf| {
        var slice := buf[pos..pos + n];
        pos := pos + n;
        return Success(slice);
      }
      return Failure(Truncated(n, pos, |buf|));
    }

    /** The outcome is what the reading says, and the cursor stands where it ends. */
    ghost predicate Reads<T>(read: Read<T>, r: Result<T, ReadError>)
      reads this
    {
      match read
      case Got(value, end) => r == Success(value) && pos == end
      case Failed(e) => r == Failure(e)
    }

    method U16() returns (r: Result<u16, ReadError>)
      modifies this
      ensures Reads(U16At(buf, old(pos)), r)
    {
      var b := Take(2);
      match b {
        case Failure(e) => return Failure(e);
        case Success(bytes) => return Success(FromLe16(bytes));
      }
    }

    method U32() returns (r: Result<u32, ReadError>)
      modifies this
      ensures Reads(U32At(buf, old(pos)), r)
    {
      var b := Take(4);
      match b {
        case Failure(e) => return Failure(e);
        case Success(bytes) => return Success(FromLe32(bytes));
      }
    }

    method I32() returns (r: Result<i32, ReadError>)
      modifies this
      ensures Reads(I32At(buf, old(pos)), r)
    {
      var n := U32();
      match n {
        case Failure(e) => return Failure(e);
        case Success(v) => return Success(Signed(v));
      }
    }

    method String() returns (r: Result<seq<byte>, ReadError>)
      modifies this
      ensures Reads(StringAt(buf, old(pos)), r)
    {
      hide U16At, TakeAt;
      var len := U16();
      match len {
        case Failure(e) => return Failure(e);
        case Success(n) =>
          var raw := Take(n);
          match raw {
            case Failure(e) => return Failure(e);
            case Success(bytes) =>
              var text := FirstPart(bytes);
              return Success(text);
          }
      }
    }

    method SkipString() returns (r: Result<(), ReadError>)
      modifies this
      ensures match StringAt(buf, old(pos))
              case Got(_, end) => r == Success(()) && pos == end
              case Failed(e) => r == Failure(e)
    {
      hide U16At, TakeAt, UpToNul;
      var len := U16();
      match len {
        case Failure(e) => return Failure(e);
        case Success(n) =>
          var raw := Take(n);
          match raw {
            case Failure(e) => return Failure(e);
            case Success(_) => return Success(());
          }
      }
    }

    method SkipStrings(n: nat) returns (r: Result<nat, ReadError>)
      modifies this
      ensures Reads(SkipStringsAt(buf, old(pos), n), r)
    {
      hide StringAt;
      for i := 0 to n
        invariant SkipStringsAt(buf, old(pos), i) == Got(i, pos)
      {
        var text := SkipString();
        if text.Failure? {
          SkipFails(buf, old(pos), i + 1, n);
          return Failure(text.error);
        }
      }
      return Success(n);
    }

    method U32s(n: nat) returns (r: Result<seq<u32>, ReadError>)
      modifies this
      ensures Reads(U32sAt(buf, old(pos), n), r)
    {
      hide U32At;
      var values := [];
      for i := 0 to n
        invariant U32sAt(buf, old(pos), i) == Got(values, pos)
      {
        var v := U32();
        if v.Failure? {
          U32sFail(buf, old(pos), i + 1, n);
          return Failure(v.error);
        }
        values := values + [v.value];
      }
      return Success(values);
    }

    method ReadMode(index: i32) returns (r: Result<Mode, ReadError>)
      modifies this
      ensures Reads(ModeAt(buf, old(pos), index), r)
    {
      hide StringAt, I32At, U32sAt, U16At, ModeOf;
      var name := String();
      if name.Failure? {
        return Failure(name.error);
      }
      var value := I32();
      if value.Failure? {
        return Failure(value.error);
      }
      var numbers := U32s(11);
      if numbers.Failure? {
        return Failure(numbers.error);
      }
      var count := U16();
      if count.Failure? {
        return Failure(count.error);
      }
      var colors := U32s(count.value);
      if colors.Failure? {
        return Failure(colors.error);
      }
      return Success(ModeOf(index, name.value, value.value, numbers.value, colors.value));
    }

    method ReadModes(n: u16) returns (r: Result<seq<Mode>, ReadError>)
      modifies this
      ensures Reads(ModesAt(buf, old(pos), n), r)
    {
      hide ModeAt;
      var modes := [];
      for i := 0 to n
        invariant ModesAt(buf, old(pos), i) == Got(modes, pos)
      {
        var m := ReadMode(i);
        if m.Failure? {
          ModesFail(buf, old(pos), i + 1, n);
          return Failure(m.error);
        }
        modes := modes + [m.value];
      }
      return Success(modes);
    }

    method SkipMatrix() returns (r: Result<(), ReadError>)
      modifies this
      ensures match MatrixAt(buf, old(pos))
              case Got(_, end) => r == Success(()) && pos == end
              case Failed(e) => r == Failure(e)
    {
      hide U16At, U32At, CellBytes, USIZE;
      var len := U16();
      if len.Failure? {
        return Failure(len.error);
      }
      if len.value == 0 {
        return Success(());
      }
      var height := U32();
      if height.Failure? {
        return Failure(height.error);
      }
      var width := U32();
      if width.Failure? {
        return Failure(width.error);
      }
      var cells := CellBytes(height.value, width.value);
      if cells >= USIZE {
        return Failure(AbsurdMatrix(height.value, width.value));
      }
      var taken := Take(cells);
      if taken.Failure? {
        return Failure(taken.error);
      }
      return Success(());
    }

    method SkipZone() returns (r: Result<(), ReadError>)
      modifies this
      ensures match ZoneAt(buf, old(pos))
              case Got(_, end) => r == Success(()) && pos == end
              case Failed(e) => r == Failure(e)
    {
      hide StringAt, U32sAt, MatrixAt;
      var name := SkipString();
      if name.Failure? {
        return Failure(name.error);
      }
      var header := U32s(4);
      if header.Failure? {
        return Failure(header.error);
      }
      r := SkipMatrix();
    }

    method SkipZones(n: nat) returns (r: Result<nat, ReadError>)
      modifies this
      ensures Reads(ZonesAt(buf, old(pos), n), r)
    {
      hide ZoneAt;
      for i := 0 to n
        invariant ZonesAt(buf, old(pos), i) == Got(i, pos)
      {
        var zone := SkipZone();
        if zone.Failure? {
          ZonesFail(buf, old(pos), i + 1, n);
          return Failure(zone.error);
        }
      }
      return Success(n);
    }
  }

  /** The part of a string's bytes before the first NUL, as `split(..).next()` gives it. */
  method FirstPart(raw: seq<byte>) returns (text: seq<byte>)
    ensures text == UpToNul(raw)
  {
    var i := 0;
    assert raw[..0] == [] && raw[0..] == raw;
    while i < |raw| && raw[i] != 0
      invariant i <= |raw|
      invariant UpToNul(raw) == raw[..i] + UpToNul(raw[i..])
    {
      assert raw[i..][1..] == raw[i + 1..];
      assert raw[..i + 1] == raw[..i] + [raw[i]];
      assert raw[..i] + ([raw[i]] + UpToNul(raw[i + 1..])) == raw[..i + 1] + UpToNul(raw[i + 1..]);
      i := i + 1;
    }
    text := raw[..i];
  }

  /** The parser: the device, or the first error. */
  method ParseDevice(index: u32, data: seq<byte>) returns (r: Result<Device, ReadError>)
    ensures match DeviceAt(index, data) case Got(device, _) => r == Success(device) case Failed(e) => r == Failure(e)
  {
    hide HeadAt, BodyAt, TailAt;
    var cur := new Cursor(data);
    var head := ParseHead(cur);
    if head.Failure? {
      return Failure(head.error);
    }
    var body := ParseBody(cur);
    if body.Failure? {
      return Failure(body.error);
    }
    var leds := ParseTail(cur);
    if leds.Failure? {
      return Failure(leds.error);
    }
    return Success(Device(index, head.value.1, head.value.0, body.value.0, body.value.1, leds.value));
  }

  method ParseHead(cur: Cursor) returns (r: Result<(i32, seq<byte>), ReadError>)
    modifies cur
    ensures cur.Reads(HeadAt(cur.buf, old(cur.pos)), r)
  {
    hide U32At, Signed, StringAt, SkipStringsAt;
    var size := cur.U32();
    if size.Failure? {
      return Failure(size.error);
    }
    var kind := cur.I32();
    if kind.Failure? {
      return Failure(kind.error);
    }
    var name := cur.String();
    if name.Failure? {
      return Failure(name.error);
    }
    var rest := cur.SkipStrings(5);
    if rest.Failure? {
      return Failure(rest.error);
    }
    return Success((kind.value, name.value));
  }

  method ParseBody(cur: Cursor) returns (r: Result<(i32, seq<Mode>), ReadError>)
    modifies cur
    ensures cur.Reads(BodyAt(cur.buf, old(cur.pos)), r)
  {
    hide U16At, I32At, ModesAt;
    var count := cur.U16();
    if count.Failure? {
      return Failure(count.error);
    }
    var active := cur.I32();
    if active.Failure? {
      return Failure(active.error);
    }
    var modes := cur.ReadModes(count.value);
    if modes.Failure? {
      return Failure(modes.error);
    }
    return Success((active.value, modes.value));
  }

  method ParseTail(cur: Cursor) returns (r: Result<u16, ReadError>)
    modifies cur
    ensures cur.Reads(TailAt(cur.buf, old(cur.pos)), r)
  {
    hide U16At, ZonesAt;
    var count := cur.U16();
    if count.Failure? {
      return Failure(count.error);
    }
    var zones := cur.SkipZones(count.value);
    if zones.Failure? {
      return Failure(zones.error);
    }
    r := cur.U16();
  }

  // ---- Loops stop at the first error -----------------------------------------------------

  lemma {:induction false} SkipFails(buf: seq<byte>, pos: nat, i: nat, n: nat)
    requires i <= n && SkipStringsAt(buf, pos, i).Failed?
    ensures SkipStringsAt(buf, pos, n) == SkipStringsAt(buf, pos, i)
  {
    if i < n {
      SkipFails(buf, pos, i, n - 1);
    }
  }

  lemma {:induction false} U32sFail(buf: seq<byte>, pos: nat, i: nat, n: nat)
    requires i <= n && U32sAt(buf, pos, i).Failed?
    ensures U32sAt(buf, pos, n) == U32sAt(buf, pos, i)
  {
    if i < n {
      U32sFail(buf, pos, i, n - 1);
    }
  }

  lemma {:induction false} ModesFail(buf: seq<byte>, pos: nat, i: u16, n: u16)
    requires i <= n && ModesAt(buf, pos, i).Failed?
    ensures ModesAt(buf, pos, n) == ModesAt(buf, pos, i)
  {
    if i < n {
      ModesFail(buf, pos, i, n - 1);
    }
  }

  lemma {:induction false} ZonesFail(buf: seq<byte>, pos: nat, i: nat, n: nat)
    requires i <= n && ZonesAt(buf, pos, i).Failed?
    ensures ZonesAt(buf, pos, n) == ZonesAt(buf, pos, i)
  {
    if i < n {
      ZonesFail(buf, pos, i, n - 1);
    }
  }

  // ---- The reader ------------------------------------------------------------------------

  /** The bytes of the connection that are still to be read. */
  class Stream {
    var rest: seq<byte>

    constructor (bytes: seq<byte>)
      ensures rest == bytes
    {
      rest := bytes;
    }

    method ReadExact(n: nat) returns (r: Option<seq<byte>>)
      modifies this
      ensures if n <= |old(rest)| then r == Some(old(rest)[..n]) && rest == old(rest)[n..] else r == None
    {
      if n > |rest| {
        return None;
      }
      r := Some(rest[..n]);
      rest := rest[n..];
    }

    method ReadPacket() returns (r: Result<Packet, PacketRead>)
      modifies this
      ensures match ReadOne(old(rest))
              case OnePacket(p, left) => r == Success(p) && rest == left
              case stop => r == Failure(stop)
    {
      hide FromLe32;
      ghost var stream := rest;
      var header := ReadExact(HEADER_LEN);
      if header.None? {
        return Failure(StreamEnded);
      }
      var h := header.value;
      assert h[..4] == stream[..4] && h[4..8] == stream[4..8];
      assert h[8..12] == stream[8..12] && h[12..16] == stream[12..16];
      if h[..4] != MAGIC {
        return Failure(BadMagic);
      }
      var devIdx, id, size := FromLe32(h[4..8]), FromLe32(h[8..12]), FromLe32(h[12..16]);
      if size > MAX_PACKET {
        return Failure(TooBig(id, size));
      }
      var data := ReadExact(size);
      if data.None? {
        return Failure(StreamEnded);
      }
      assert data.value == stream[16..16 + size] && rest == stream[16 + size..];
      return Success(Packet(devIdx, id, data.value));
    }

    /** The reader task: packets until the first error. */
    method ReaderLoop() returns (packets: seq<Packet>, stop: PacketRead)
      modifies this
      ensures (packets, stop) == ReadAll(old(rest))
    {
      hide ReadOne;
      packets := [];
      assert packets + ReadAll(rest).0 == ReadAll(rest).0;
      while true
        invariant ReadAll(old(rest)) == (packets + ReadAll(rest).0, ReadAll(rest).1)
        decreases |rest|
      {
        ghost var before := rest;
        var p := ReadPacket();
        if p.Failure? {
          stop := p.error;
          assert ReadAll(before) == ([], stop) && packets + [] == packets;
          return;
        }
        assert ReadAll(before) == ([p.value] + ReadAll(rest).0, ReadAll(rest).1);
        assert packets + ([p.value] + ReadAll(rest).0) == packets + [p.value] + ReadAll(rest).0;
        packets := packets + [p.value];
      }
    }
  }
}
