/**
 The OpenRGB formats: reading a device description depends on no byte past what it consumes and
 fails on anything shorter; modes and packets read back as they were written, exactly when their
 sizes fit.
*/
module WireProofs {
  import opened HidReports
  import opened WireFormat

  // ---- Prefix-determined -----------------------------------------------------------------

  /** The buffers share their first `n` bytes. */
  predicate Share(a: seq<byte>, b: seq<byte>, n: nat) {
    n <= |a| && n <= |b| && a[..n] == b[..n]
  }

  lemma ShareLess(a: seq<byte>, b: seq<byte>, n: nat, k: nat)
    requires Share(a, b, n) && k <= n
    ensures Share(a, b, k)
  {
    assert a[..k] == a[..n][..k] && b[..k] == b[..n][..k];
  }

  lemma TakeStable(a: seq<byte>, b: seq<byte>, pos: nat, n: nat)
    requires TakeAt(a, pos, n).Got? && Share(a, b, pos + n)
    ensures TakeAt(b, pos, n) == TakeAt(a, pos, n)
  {
    assert a[pos..pos + n] == a[..pos + n][pos..] && b[pos..pos + n] == b[..pos + n][pos..];
  }

  lemma U16Stable(a: seq<byte>, b: seq<byte>, pos: nat)
    requires U16At(a, pos).Got? && Share(a, b, U16At(a, pos).end)
    ensures U16At(b, pos) == U16At(a, pos)
  {
    TakeStable(a, b, pos, 2);
    hide FromLe16, TakeAt, Share;
  }

  lemma U32Stable(a: seq<byte>, b: seq<byte>, pos: nat)
    requires U32At(a, pos).Got? && Share(a, b, U32At(a, pos).end)
    ensures U32At(b, pos) == U32At(a, pos) && I32At(b, pos) == I32At(a, pos)
  {
    TakeStable(a, b, pos, 4);
    hide FromLe32, TakeAt, Share;
  }

  lemma StringStable(a: seq<byte>, b: seq<byte>, pos: nat)
    requires StringAt(a, pos).Got? && Share(a, b, StringAt(a, pos).end)
    ensures StringAt(b, pos) == StringAt(a, pos)
  {
    hide UpToNul, Share, U16At;
    var len := U16At(a, pos);
    ShareLess(a, b, StringAt(a, pos).end, len.end);
    U16Stable(a, b, pos);
    TakeStable(a, b, len.end, len.value);
    hide TakeAt;
  }

  lemma {:induction false} SkipStringsStable(a: seq<byte>, b: seq<byte>, pos: nat, n: nat)
    requires SkipStringsAt(a, pos, n).Got? && (n > 0 ==> Share(a, b, SkipStringsAt(a, pos, n).end))
    ensures SkipStringsAt(b, pos, n) == SkipStringsAt(a, pos, n)
  {
    hide Share, StringAt;
    if n > 0 {
      var end, p := SkipStringsAt(a, pos, n).end, SkipStringsAt(a, pos, n - 1).end;
      ShareLess(a, b, end, p);
      SkipStringsStable(a, b, pos, n - 1);
      StringStable(a, b, p);
    }
  }

  lemma {:induction false} U32sStable(a: seq<byte>, b: seq<byte>, pos: nat, n: nat)
    requires U32sAt(a, pos, n).Got? && (n > 0 ==> Share(a, b, U32sAt(a, pos, n).end))
    ensures U32sAt(b, pos, n) == U32sAt(a, pos, n)
  {
    hide Share, U32At;
    if n > 0 {
      var end, p := U32sAt(a, pos, n).end, U32sAt(a, pos, n - 1).end;
      ShareLess(a, b, end, p);
      U32sStable(a, b, pos, n - 1);
      U32Stable(a, b, p);
    }
  }

  lemma ColorsStable(a: seq<byte>, b: seq<byte>, pos: nat)
    requires ColorsAt(a, pos).Got? && Share(a, b, ColorsAt(a, pos).end)
    ensures ColorsAt(b, pos) == ColorsAt(a, pos)
  {
    hide Share, U16At, U32sAt;
    var n := U16At(a, pos);
    ShareLess(a, b, ColorsAt(a, pos).end, n.end);
    U16Stable(a, b, pos);
    U32sStable(a, b, n.end, n.value);
  }

  lemma ModeStable(a: seq<byte>, b: seq<byte>, pos: nat, index: i32)
    requires ModeAt(a, pos, index).Got? && Share(a, b, ModeAt(a, pos, index).end)
    ensures ModeAt(b, pos, index) == ModeAt(a, pos, index)
  {
    hide Share, StringAt, U32sAt, ColorsAt, ModeOf, Signed;
    var end := ModeAt(a, pos, index).end;
    var p1 := StringAt(a, pos).end;
    var p2 := I32At(a, p1).end;
    var p3 := U32sAt(a, p2, 11).end;
    ShareLess(a, b, end, p1);
    ShareLess(a, b, end, p2);
    ShareLess(a, b, end, p3);
    StringStable(a, b, pos);
    U32Stable(a, b, p1);
    hide I32At;
    U32sStable(a, b, p2, 11);
    ColorsStable(a, b, p3);
  }

  lemma {:induction false} ModesStable(a: seq<byte>, b: seq<byte>, pos: nat, n: u16)
    requires ModesAt(a, pos, n).Got? && (n > 0 ==> Share(a, b, ModesAt(a, pos, n).end))
    ensures ModesAt(b, pos, n) == ModesAt(a, pos, n)
  {
    hide Share, ModeAt;
    if n > 0 {
      var end, p := ModesAt(a, pos, n).end, ModesAt(a, pos, n - 1).end;
      ShareLess(a, b, end, p);
      ModesStable(a, b, pos, n - 1);
      ModeStable(a, b, p, n - 1);
    }
  }

  lemma CellsStable(a: seq<byte>, b: seq<byte>, pos: nat, height: u32, width: u32)
    requires CellsAt(a, pos, height, width).Got? && Share(a, b, CellsAt(a, pos, height, width).end)
    ensures CellsAt(b, pos, height, width) == CellsAt(a, pos, height, width)
  {
    hide CellBytes;
    TakeStable(a, b, pos, CellBytes(height, width));
  }

  lemma MatrixStable(a: seq<byte>, b: seq<byte>, pos: nat)
    requires MatrixAt(a, pos).Got? && Share(a, b, MatrixAt(a, pos).end)
    ensures MatrixAt(b, pos) == MatrixAt(a, pos)
  {
    hide Share, U16At, U32At, CellsAt;
    var end := MatrixAt(a, pos).end;
    var len := U16At(a, pos);
    ShareLess(a, b, end, len.end);
    U16Stable(a, b, pos);
    if len.value != 0 {
      var height := U32At(a, len.end);
      var width := U32At(a, height.end);
      ShareLess(a, b, end, height.end);
      ShareLess(a, b, end, width.end);
      U32Stable(a, b, len.end);
      U32Stable(a, b, height.end);
      CellsStable(a, b, width.end, height.value, width.value);
    }
  }

  lemma ZoneStable(a: seq<byte>, b: seq<byte>, pos: nat)
    requires ZoneAt(a, pos).Got? && Share(a, b, ZoneAt(a, pos).end)
    ensures ZoneAt(b, pos) == ZoneAt(a, pos)
  {
    hide Share, StringAt, U32sAt, MatrixAt;
    var end, p1 := ZoneAt(a, pos).end, StringAt(a, pos).end;
    var p2 := U32sAt(a, p1, 4).end;
    ShareLess(a, b, end, p1);
    ShareLess(a, b, end, p2);
    StringStable(a, b, pos);
    U32sStable(a, b, p1, 4);
    MatrixStable(a, b, p2);
  }

  lemma {:induction false} ZonesStable(a: seq<byte>, b: seq<byte>, pos: nat, n: nat)
    requires ZonesAt(a, pos, n).Got? && (n > 0 ==> Share(a, b, ZonesAt(a, pos, n).end))
    ensures ZonesAt(b, pos, n) == ZonesAt(a, pos, n)
  {
    hide Share, ZoneAt;
    if n > 0 {
      var end, p := ZonesAt(a, pos, n).end, ZonesAt(a, pos, n - 1).end;
      ShareLess(a, b, end, p);
      ZonesStable(a, b, pos, n - 1);
      ZoneStable(a, b, p);
    }
  }

  lemma HeadStable(a: seq<byte>, b: seq<byte>, pos: nat)
    requires HeadAt(a, pos).Got? && Share(a, b, HeadAt(a, pos).end)
    ensures HeadAt(b, pos) == HeadAt(a, pos)
  {
    hide Share, StringAt, SkipStringsAt, U32At, Signed;
    var end, p1 := HeadAt(a, pos).end, U32At(a, pos).end;
    var p2 := I32At(a, p1).end;
    var p3 := StringAt(a, p2).end;
    ShareLess(a, b, end, p1);
    ShareLess(a, b, end, p2);
    ShareLess(a, b, end, p3);
    U32Stable(a, b, pos);
    U32Stable(a, b, p1);
    StringStable(a, b, p2);
    SkipStringsStable(a, b, p3, 5);
  }

  lemma BodyStable(a: seq<byte>, b: seq<byte>, pos: nat)
    requires BodyAt(a, pos).Got? && Share(a, b, BodyAt(a, pos).end)
    ensures BodyAt(b, pos) == BodyAt(a, pos)
  {
    hide Share, U16At, ModesAt, U32At, Signed;
    var end, n := BodyAt(a, pos).end, U16At(a, pos);
    var p2 := I32At(a, n.end).end;
    ShareLess(a, b, end, n.end);
    ShareLess(a, b, end, p2);
    U16Stable(a, b, pos);
    U32Stable(a, b, n.end);
    ModesStable(a, b, p2, n.value);
  }

  lemma TailStable(a: seq<byte>, b: seq<byte>, pos: nat)
    requires TailAt(a, pos).Got? && Share(a, b, TailAt(a, pos).end)
    ensures TailAt(b, pos) == TailAt(a, pos)
  {
    hide Share, U16At, ZonesAt;
    var end, n := TailAt(a, pos).end, U16At(a, pos);
    var p2 := ZonesAt(a, n.end, n.value).end;
    ShareLess(a, b, end, n.end);
    ShareLess(a, b, end, p2);
    U16Stable(a, b, pos);
    ZonesStable(a, b, n.end, n.value);
    U16Stable(a, b, p2);
  }

  /** A description that parses gives the same device from any buffer that shares the bytes consumed. */
  lemma DescriptionIsPrefixDetermined(index: u32, a: seq<byte>, b: seq<byte>)
    ensures DeviceAt(index, a).Got? && Share(a, b, DeviceAt(index, a).end) ==> DeviceAt(index, b) == DeviceAt(index, a)
  {
    hide Share, HeadAt, BodyAt, TailAt;
    if !(DeviceAt(index, a).Got? && Share(a, b, DeviceAt(index, a).end)) {
      return;
    }
    var end, p1 := DeviceAt(index, a).end, HeadAt(a, 0).end;
    var p2 := BodyAt(a, p1).end;
    ShareLess(a, b, end, p1);
    ShareLess(a, b, end, p2);
    HeadStable(a, b, 0);
    BodyStable(a, b, p1);
    TailStable(a, b, p2);
  }

  /** A prefix of it parses exactly if it has all the bytes consumed: every shorter one is an error. */
  lemma ShorterDescriptionsFail(index: u32, buf: seq<byte>, cut: nat)
    requires cut <= |buf|
    ensures var whole, part := DeviceAt(index, buf), DeviceAt(index, buf[..cut]);
      if whole.Got? && cut >= whole.end then part == whole else part.Failed?
  {
    hide DeviceAt;
    if DeviceAt(index, buf).Failed? {
      if DeviceAt(index, buf[..cut]).Got? {
        var short := DeviceAt(index, buf[..cut]).end;
        assert buf[..cut][..short] == buf[..short];
        DescriptionIsPrefixDetermined(index, buf[..cut], buf);
      }
      return;
    }
    var end := DeviceAt(index, buf).end;
    if cut >= end {
      assert buf[..cut][..end] == buf[..end];
      DescriptionIsPrefixDetermined(index, buf, buf[..cut]);
    } else if DeviceAt(index, buf[..cut]).Got? {
      var short := DeviceAt(index, buf[..cut]).end;
      assert buf[..cut][..short] == buf[..short];
      DescriptionIsPrefixDetermined(index, buf[..cut], buf);
    }
  }

  // ---- Reading back what was written -----------------------------------------------------

  /** The bytes stand in the buffer at this position. */
  predicate Holds(buf: seq<byte>, pos: nat, bytes: seq<byte>) {
    pos + |bytes| <= |buf| && buf[pos..pos + |bytes|] == bytes
  }

  lemma HoldsBoth(buf: seq<byte>, pos: nat, a: seq<byte>, b: seq<byte>)
    ensures Holds(buf, pos, a + b) <==> Holds(buf, pos, a) && Holds(buf, pos + |a|, b)
  {
    if pos + |a| + |b| <= |buf| {
      var both := buf[pos..pos + |a| + |b|];
      assert both == buf[pos..pos + |a|] + buf[pos + |a|..pos + |a| + |b|];
      assert both == a + b ==> both[..|a|] == a && both[|a|..] == b;
    }
  }

  lemma Le16ReadsBack(n: u16)
    ensures FromLe16(Le16(n)) == n
  {
  }

  lemma Le32ReadsBack(n: u32)
    ensures FromLe32(Le32(n)) == n
  {
    var lo, hi := n % 0x1_0000, n / 0x1_0000;
    assert (Le16(lo) + Le16(hi))[..2] == Le16(lo) && (Le16(lo) + Le16(hi))[2..] == Le16(hi);
    Le16ReadsBack(lo);
    Le16ReadsBack(hi);
    hide Le16, FromLe16;
  }

  lemma SignReadsBack(n: i32)
    ensures Signed(Unsigned(n)) == n
  {
  }

  lemma U16ReadsBack(buf: seq<byte>, pos: nat, n: u16)
    requires |buf| < USIZE && Holds(buf, pos, Le16(n))
    ensures U16At(buf, pos) == Got(n, pos + 2)
  {
    Le16ReadsBack(n);
    hide Le16, FromLe16;
  }

  lemma U32ReadsBack(buf: seq<byte>, pos: nat, n: u32)
    requires |buf| < USIZE && Holds(buf, pos, Le32(n))
    ensures U32At(buf, pos) == Got(n, pos + 4)
  {
    Le32ReadsBack(n);
    hide Le32, FromLe32;
  }

  lemma {:induction false} U32sReadBack(buf: seq<byte>, pos: nat, values: seq<u32>)
    requires |buf| < USIZE && Holds(buf, pos, Le32s(values))
    ensures U32sAt(buf, pos, |values|) == Got(values, pos + 4 * |values|)
  {
    hide Le32, U32At, Holds;
    if values != [] {
      var n := |values| - 1;
      HoldsBoth(buf, pos, Le32s(values[..n]), Le32(values[n]));
      U32sReadBack(buf, pos, values[..n]);
      U32ReadsBack(buf, pos + 4 * n, values[n]);
      assert values == values[..n] + [values[n]];
    }
  }

  lemma {:induction false} NulEndsText(text: seq<byte>)
    requires 0 !in text
    ensures UpToNul(text + [0]) == text
  {
    if text != [] {
      assert (text + [0])[1..] == text[1..] + [0];
      NulEndsText(text[1..]);
    }
  }

  /**
   A written string reads back if it has no NUL and its length, with the NUL, fits 16 bits; otherwise
   something else is read.
  */
  lemma StringReadsBack(buf: seq<byte>, pos: nat, text: seq<byte>)
    requires |buf| < USIZE && Holds(buf, pos, StringBytes(text))
    ensures 0 !in text && |text| + 1 < 0x1_0000 ==> StringAt(buf, pos) == Got(text, pos + |StringBytes(text)|)
    ensures StringAt(buf, pos).Got? && StringAt(buf, pos).value == text ==> 0 !in text && |text| + 1 < 0x1_0000
  {
    hide Le16, U16At, UpToNul, Holds;
    var len := Wrap16(|text| + 1);
    assert StringBytes(text) == Le16(len) + (text + [0]);
    HoldsBoth(buf, pos, Le16(len), text + [0]);
    U16ReadsBack(buf, pos, len);
    if 0 !in text && |text| + 1 < 0x1_0000 {
      NulEndsText(text);
      TakesHeld(buf, pos + 2, text + [0]);
    }
    hide TakeAt;
  }

  lemma TakesHeld(buf: seq<byte>, pos: nat, bytes: seq<byte>)
    requires |buf| < USIZE && Holds(buf, pos, bytes)
    ensures TakeAt(buf, pos, |bytes|) == Got(bytes, pos + |bytes|)
  {
  }

  lemma CountedColorsReadBack(buf: seq<byte>, pos: nat, count: u16, colors: seq<u32>)
    requires |buf| < USIZE && Holds(buf, pos, Le16(count) + Le32s(colors))
    ensures count == |colors| ==> ColorsAt(buf, pos) == Got(colors, pos + 2 + 4 * |colors|)
    ensures ColorsAt(buf, pos).Got? ==> |ColorsAt(buf, pos).value| == count
  {
    hide Le16, Le32s, U16At, U32sAt, Holds, USIZE;
    HoldsBoth(buf, pos, Le16(count), Le32s(colors));
    U16ReadsBack(buf, pos, count);
    assert ColorsAt(buf, pos) == U32sAt(buf, pos + 2, count);
    hide ColorsAt;
    if count == |colors| {
      U32sReadBack(buf, pos + 2, colors);
    }
  }

  lemma ColorsReadBack(buf: seq<byte>, pos: nat, colors: seq<u32>)
    requires |buf| < USIZE && Holds(buf, pos, Le16(Wrap16(|colors|)) + Le32s(colors))
    ensures |colors| < 0x1_0000 ==> ColorsAt(buf, pos) == Got(colors, pos + 2 + 4 * |colors|)
    ensures ColorsAt(buf, pos).Got? && ColorsAt(buf, pos).value == colors ==> |colors| < 0x1_0000
  {
    hide Le16, Le32s, ColorsAt, Holds, USIZE, Wrap16;
    CountedColorsReadBack(buf, pos, Wrap16(|colors|), colors);
  }

  /** What the 16-bit lengths can say of a mode. */
  predicate Encodable(m: Mode) {
    0 !in m.name && |m.name| + 1 < 0x1_0000 && |m.colors| < 0x1_0000
  }

  lemma FieldsApart(buf: seq<byte>, pos: nat, m: Mode)
    requires Holds(buf, pos, ModeFields(m))
    ensures var p1 := pos + |StringBytes(m.name)|;
      Holds(buf, pos, StringBytes(m.name)) && Holds(buf, p1, Le32(Unsigned(m.value)))
      && Holds(buf, p1 + 4, Le32s(Numbers(m)))
      && Holds(buf, p1 + 48, Le16(Wrap16(|m.colors|)) + Le32s(m.colors))
      && |ModeFields(m)| == |StringBytes(m.name)| + 50 + 4 * |m.colors|
  {
    hide Holds, StringBytes, Le32, Le32s, Le16, Unsigned;
    var name, value, numbers := StringBytes(m.name), Le32(Unsigned(m.value)), Le32s(Numbers(m));
    var count, colors := Le16(Wrap16(|m.colors|)), Le32s(m.colors);
    assert |numbers| == 44;
    assert ModeFields(m) == name + value + numbers + (count + colors);
    HoldsBoth(buf, pos, name + value + numbers, count + colors);
    HoldsBoth(buf, pos, name + value, numbers);
    HoldsBoth(buf, pos, name, value);
  }

  lemma ModeFromParts(buf: seq<byte>, pos: nat, p1: nat, m: Mode)
    requires StringAt(buf, pos) == Got(m.name, p1) && I32At(buf, p1) == Got(m.value, p1 + 4)
    requires U32sAt(buf, p1 + 4, 11) == Got(Numbers(m), p1 + 48)
    ensures ColorsAt(buf, p1 + 48).Got? <==> ModeAt(buf, pos, m.index).Got?
    ensures var colors := ColorsAt(buf, p1 + 48);
      colors.Got? ==> ModeAt(buf, pos, m.index) == Got(m.(colors := colors.value), colors.end)
  {
    hide StringAt, I32At, U32sAt, ColorsAt;
  }

  /** Wherever a mode's fields are written, they read back as the mode exactly when it is encodable. */
  lemma ModeReadsBackExactlyIfEncodable(buf: seq<byte>, pos: nat, m: Mode)
    requires |buf| < USIZE && Holds(buf, pos, ModeFields(m))
    ensures Encodable(m) ==> ModeAt(buf, pos, m.index) == Got(m, pos + |ModeFields(m)|)
    ensures ModeAt(buf, pos, m.index).Got? && ModeAt(buf, pos, m.index).value == m ==> Encodable(m)
  {
    hide Holds, StringBytes, StringAt, I32At, U32sAt, ColorsAt, Le32s, Le32, Le16, Unsigned, Numbers, ModeFields,
      USIZE, Wrap16;
    FieldsApart(buf, pos, m);
    StringReadsBack(buf, pos, m.name);
    NameComesFirst(buf, pos, m.index);
    hide ModeAt;
    if 0 !in m.name && |m.name| + 1 < 0x1_0000 {
      var p1 := pos + |StringBytes(m.name)|;
      ValueAndNumbersReadBack(buf, p1, m);
      ColorsReadBack(buf, p1 + 48, m.colors);
      ModeFromParts(buf, pos, p1, m);
    }
  }

  lemma NameComesFirst(buf: seq<byte>, pos: nat, index: i32)
    ensures ModeAt(buf, pos, index).Got? ==>
      StringAt(buf, pos).Got? && ModeAt(buf, pos, index).value.name == StringAt(buf, pos).value
  {
    hide StringAt, I32At, U32sAt, ColorsAt;
  }

  lemma ValueAndNumbersReadBack(buf: seq<byte>, pos: nat, m: Mode)
    requires |buf| < USIZE && Holds(buf, pos, Le32(Unsigned(m.value))) && Holds(buf, pos + 4, Le32s(Numbers(m)))
    ensures I32At(buf, pos) == Got(m.value, pos + 4) && U32sAt(buf, pos + 4, 11) == Got(Numbers(m), pos + 48)
  {
    U32ReadsBack(buf, pos, Unsigned(m.value));
    SignReadsBack(m.value);
    hide Le32, Le32s, Holds, U32At, Unsigned, Signed;
    U32sReadBack(buf, pos + 4, Numbers(m));
  }

  // ---- Packets ---------------------------------------------------------------------------

  lemma WholeBufferHolds(bytes: seq<byte>, rest: seq<byte>)
    ensures Holds(bytes + rest, 0, bytes) && Holds(bytes, 0, bytes)
  {
    assert (bytes + rest)[..|bytes|] == bytes && bytes[..|bytes|] == bytes;
  }

  /** A mode packet's payload starts with its own length, then the index, then fields that read back as the mode. */
  lemma ModePacketReadsBack(m: Mode)
    requires Encodable(m)
    ensures var data := ModeBytes(m);
      |data| <= MAX_PACKET
      && U32At(data, 0) == Got(|data|, 4) && I32At(data, 4) == Got(m.index, 8)
      && ModeAt(data, 8, m.index) == Got(m, |data|)
  {
    hide ModeFields, Le32, Holds, ModeAt, U32At, Unsigned, Signed, USIZE;
    var index, fields := Le32(Unsigned(m.index)), ModeFields(m);
    var body := index + fields;
    FieldsAreShort(m);
    var size: u32 := |body| + 4;
    var data := ModeBytes(m);
    assert data == Le32(size) + body;
    WholeBufferHolds(data, []);
    HoldsBoth(data, 0, Le32(size), body);
    HoldsBoth(data, 4, index, fields);
    SmallEnough(data);
    U32ReadsBack(data, 0, size);
    U32ReadsBack(data, 4, Unsigned(m.index));
    SignReadsBack(m.index);
    ModeReadsBackExactlyIfEncodable(data, 8, m);
  }

  lemma SmallEnough(data: seq<byte>)
    requires |data| <= MAX_PACKET
    ensures |data| < USIZE
  {
  }

  lemma FieldsAreShort(m: Mode)
    requires Encodable(m)
    ensures |ModeFields(m)| <= 0x8_0000
  {
    WholeBufferHolds(ModeFields(m), []);
    FieldsApart(ModeFields(m), 0, m);
    hide ModeFields, Holds;
  }

  lemma HeaderApart(p: Packet, rest: seq<byte>)
    ensures var size: u32 := Wrap32(|p.data|);
      var stream := Framed(p) + rest;
      |stream| == 16 + |p.data| + |rest| && stream[..4] == MAGIC
      && stream[4..8] == Le32(p.devIdx) && stream[8..12] == Le32(p.id) && stream[12..16] == Le32(size)
      && stream[16..] == p.data + rest
  {
    hide Le32;
    var size: u32 := Wrap32(|p.data|);
    var a, b, c := Le32(p.devIdx), Le32(p.id), Le32(size);
    assert Framed(p) + rest == MAGIC + (a + (b + (c + (p.data + rest))));
  }

  /** One written packet reads back as itself, leaving what follows, exactly when its payload is within the limit. */
  lemma PacketReadsBackExactlyIfSmall(p: Packet, rest: seq<byte>)
    ensures ReadOne(Framed(p) + rest) == OnePacket(p, rest) <==> |p.data| <= MAX_PACKET
  {
    hide Framed, Le32, FromLe32;
    HeaderApart(p, rest);
    var size: u32 := Wrap32(|p.data|);
    Le32ReadsBack(p.devIdx);
    Le32ReadsBack(p.id);
    Le32ReadsBack(size);
    var stream := Framed(p) + rest;
    assert |stream| >= 16 + size ==>
      stream[16..16 + size] == stream[16..][..size] && stream[16 + size..] == stream[16..][size..];
    if |p.data| <= MAX_PACKET {
      assert size == |p.data|;
    }
  }

  lemma Le32WritesBack(b: seq<byte>)
    requires |b| == 4
    ensures Le32(FromLe32(b)) == b
  {
    var lo: nat, hi: nat := FromLe16(b[..2]), FromLe16(b[2..]);
    Le16WritesBack(b[..2]);
    Le16WritesBack(b[2..]);
    assert FromLe32(b) % 0x1_0000 == lo && FromLe32(b) / 0x1_0000 == hi;
    hide Le16, FromLe16;
    assert b[..2] + b[2..] == b;
  }

  lemma Le16WritesBack(b: seq<byte>)
    requires |b| == 2
    ensures Le16(FromLe16(b)) == b
  {
  }

  /** And nothing else is ever read as a packet: what was read is what stood there, in this very layout. */
  lemma OnlyFramedPacketsAreRead(stream: seq<byte>)
    ensures var r := ReadOne(stream);
      r.OnePacket? ==> stream == Framed(r.packet) + r.rest && |r.packet.data| <= MAX_PACKET
  {
    hide Le32, FromLe32;
    if ReadOne(stream).OnePacket? {
      var p := ReadOne(stream).packet;
      Le32WritesBack(stream[4..8]);
      Le32WritesBack(stream[8..12]);
      Le32WritesBack(stream[12..16]);
      assert stream == stream[..4] + stream[4..8] + stream[8..12] + stream[12..16] + stream[16..];
      assert stream[16..] == p.data + ReadOne(stream).rest;
      assert Framed(p) + ReadOne(stream).rest
          == MAGIC + Le32(p.devIdx) + Le32(p.id) + Le32(Wrap32(|p.data|)) + (p.data + ReadOne(stream).rest);
    }
  }

  predicate AllSmall(packets: seq<Packet>) {
    forall p :: p in packets ==> |p.data| <= MAX_PACKET
  }

  /**
   Any packets within the limit, written one after another, read back as the same list, and reading
   goes on with what follows.
  */
  lemma {:induction false} PacketsReadBack(packets: seq<Packet>, tail: seq<byte>)
    requires AllSmall(packets)
    ensures ReadAll(FramedAll(packets) + tail) == (packets + ReadAll(tail).0, ReadAll(tail).1)
  {
    hide ReadOne, Framed;
    if packets == [] {
      assert FramedAll(packets) + tail == tail && packets + ReadAll(tail).0 == ReadAll(tail).0;
    } else {
      var p, rest := packets[0], FramedAll(packets[1..]) + tail;
      assert FramedAll(packets) + tail == Framed(p) + rest;
      assert p in packets && forall q :: q in packets[1..] ==> q in packets;
      PacketsReadBack(packets[1..], tail);
      OnePacketMore(p, rest);
      hide ReadAll;
      assert [p] + (packets[1..] + ReadAll(tail).0) == packets + ReadAll(tail).0;
    }
  }

  lemma OnePacketMore(p: Packet, rest: seq<byte>)
    requires |p.data| <= MAX_PACKET
    ensures ReadAll(Framed(p) + rest) == ([p] + ReadAll(rest).0, ReadAll(rest).1)
  {
    hide ReadOne, Framed;
    PacketReadsBackExactlyIfSmall(p, rest);
  }

  /** However far the next packet has arrived, it is not read before it is complete: the list so far is exact. */
  lemma PartialPacketWaits(packets: seq<Packet>, next: Packet, cut: nat)
    requires AllSmall(packets) && |next.data| <= MAX_PACKET && cut < |Framed(next)|
    ensures ReadAll(FramedAll(packets) + Framed(next)[..cut]) == (packets, StreamEnded)
  {
    var tail := Framed(next)[..cut];
    HeaderApart(next, []);
    assert Framed(next) + [] == Framed(next);
    Le32ReadsBack(Wrap32(|next.data|));
    hide Framed, Le32, FromLe32;
    assert cut >= 16 ==> tail[..4] == Framed(next)[..4] && tail[12..16] == Framed(next)[12..16];
    assert ReadOne(tail) == StreamEnded;
    hide ReadOne;
    assert ReadAll(tail) == ([], StreamEnded);
    PacketsReadBack(packets, tail);
    assert packets + [] == packets;
  }

  // ---- LED colors ------------------------------------------------------------------------

  lemma ColorsAreDistinctOnTheWire(c: Rgb, d: Rgb)
    ensures c.ToWire() == d.ToWire() <==> c == d
  {
    if c.ToWire() == d.ToWire() {
      var r, g, b: int := c.r - d.r, c.g - d.g, c.b - d.b;
      assert r == 256 * (-g - 256 * b) && -256 < r < 256;
      assert r == 0 && g == -256 * b && -256 < g < 256;
    }
  }

  /** An LED packet's payload is its own length, the LED count, and that many copies of the color, and nothing else. */
  lemma LedPacketReadsBack(color: Rgb, count: u16)
    ensures var data := LedBytes(color, count);
      |data| <= MAX_PACKET
      && U32At(data, 0) == Got(|data|, 4) && U16At(data, 4) == Got(count, 6)
      && U32sAt(data, 6, count) == Got(Repeat(color.ToWire(), count), |data|)
  {
    hide Le32, Le16, Le32s, Holds, U32At, U16At, U32sAt, Rgb.ToWire, USIZE, Repeat;
    var colors := Repeat(color.ToWire(), count);
    var body := Le16(count) + Le32s(colors);
    var size: u32 := |body| + 4;
    var data := LedBytes(color, count);
    assert data == Le32(size) + body;
    WholeBufferHolds(data, []);
    HoldsBoth(data, 0, Le32(size), body);
    HoldsBoth(data, 4, Le16(count), Le32s(colors));
    SmallEnough(data);
    U32ReadsBack(data, 0, size);
    U16ReadsBack(data, 4, count);
    U32sReadBack(data, 6, colors);
  }
}
