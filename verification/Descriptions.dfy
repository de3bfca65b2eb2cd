/**
 Device descriptions at protocol 3, as the server lays them out: written and parsed, they give back the
 device, wherever the fields the hub does not need are passed over.
*/
module Descriptions {
  import opened HidReports
  import opened WireFormat
  import opened WireProofs

  /** The LED map of a zone: its declared length, and four bytes for each cell. */
  datatype LedMap = NoMap | LedMap(declared: u16, height: u32, width: u32, cells: seq<byte>)

  datatype Zone = Zone(name: seq<byte>, kind: i32, ledsMin: u32, ledsMax: u32, ledsCount: u32, ledMap: LedMap)

  datatype Description = Description(
    size: u32, kind: i32, name: seq<byte>,
    vendor: seq<byte>, text: seq<byte>, version: seq<byte>, serial: seq<byte>, location: seq<byte>,
    activeMode: i32, modes: seq<Mode>, zones: seq<Zone>, ledCount: u16)

  // ---- The layout ------------------------------------------------------------------------

  function MapBytes(m: LedMap): seq<byte> {
    match m
    case NoMap => Le16(0)
    case LedMap(declared, height, width, cells) => Le16(declared) + Le32(height) + Le32(width) + cells
  }

  function ZoneBytes(z: Zone): seq<byte> {
    StringBytes(z.name) + Le32s([Unsigned(z.kind), z.ledsMin, z.ledsMax, z.ledsCount]) + MapBytes(z.ledMap)
  }

  function AllZones(zones: seq<Zone>): seq<byte> {
    if zones == [] then [] else AllZones(zones[..|zones| - 1]) + ZoneBytes(zones[|zones| - 1])
  }

  function AllModes(modes: seq<Mode>): seq<byte> {
    if modes == [] then [] else AllModes(modes[..|modes| - 1]) + ModeFields(modes[|modes| - 1])
  }

  function AllStrings(texts: seq<seq<byte>>): seq<byte> {
    if texts == [] then [] else AllStrings(texts[..|texts| - 1]) + StringBytes(texts[|texts| - 1])
  }

  /** What the parser passes over between the name and the modes. */
  function Details(d: Description): seq<seq<byte>> {
    [d.vendor, d.text, d.version, d.serial, d.location]
  }

  function HeadBytes(d: Description): seq<byte> {
    Le32(d.size) + Le32(Unsigned(d.kind)) + StringBytes(d.name) + AllStrings(Details(d))
  }

  function BodyBytes(d: Description): seq<byte> {
    Le16(Wrap16(|d.modes|)) + Le32(Unsigned(d.activeMode)) + AllModes(d.modes)
  }

  function TailBytes(d: Description): seq<byte> {
    Le16(Wrap16(|d.zones|)) + AllZones(d.zones) + Le16(d.ledCount)
  }

  function DescriptionBytes(d: Description): seq<byte> {
    HeadBytes(d) + BodyBytes(d) + TailBytes(d)
  }

  // ---- What can be laid out --------------------------------------------------------------

  /** The length of the text, with its NUL, fits 16 bits. */
  predicate Short(text: seq<byte>) {
    |text| + 1 < 0x1_0000
  }

  predicate MapFits(m: LedMap) {
    m.LedMap? ==> m.declared != 0 && |m.cells| == m.height * m.width * 4
  }

  predicate ModesFit(modes: seq<Mode>) {
    |modes| < 0x1_0000 && forall i :: 0 <= i < |modes| ==> Encodable(modes[i]) && modes[i].index == i
  }

  predicate ZonesFit(zones: seq<Zone>) {
    |zones| < 0x1_0000 && forall z :: z in zones ==> Short(z.name) && MapFits(z.ledMap)
  }

  predicate Fits(d: Description) {
    0 !in d.name && Short(d.name) && (forall text :: text in Details(d) ==> Short(text))
    && ModesFit(d.modes) && ZonesFit(d.zones)
  }

  // ---- Part by part ----------------------------------------------------------------------

  /** A string is passed over by its length, whatever it says. */
  lemma StringEnds(buf: seq<byte>, pos: nat, text: seq<byte>)
    requires |buf| < USIZE && Holds(buf, pos, StringBytes(text)) && Short(text)
    ensures StringAt(buf, pos).Got? && StringAt(buf, pos).end == pos + |StringBytes(text)|
  {
    hide Le16, U16At, UpToNul, Holds;
    var len := Wrap16(|text| + 1);
    assert StringBytes(text) == Le16(len) + (text + [0]);
    HoldsBoth(buf, pos, Le16(len), text + [0]);
    U16ReadsBack(buf, pos, len);
    TakesHeld(buf, pos + 2, text + [0]);
    hide TakeAt;
  }

  lemma {:induction false} StringsEnd(buf: seq<byte>, pos: nat, texts: seq<seq<byte>>)
    requires |buf| < USIZE && Holds(buf, pos, AllStrings(texts)) && forall text :: text in texts ==> Short(text)
    ensures SkipStringsAt(buf, pos, |texts|) == Got(|texts|, pos + |AllStrings(texts)|)
  {
    hide Holds, StringBytes, StringAt, Short, USIZE;
    if texts != [] {
      var rest, last := texts[..|texts| - 1], texts[|texts| - 1];
      HoldsBoth(buf, pos, AllStrings(rest), StringBytes(last));
      StringsEnd(buf, pos, rest);
      assert last in texts;
      StringEnds(buf, pos + |AllStrings(rest)|, last);
    }
  }

  lemma {:induction false} ModesReadBack(buf: seq<byte>, pos: nat, modes: seq<Mode>)
    requires |buf| < USIZE && Holds(buf, pos, AllModes(modes)) && ModesFit(modes)
    ensures ModesAt(buf, pos, |modes|) == Got(modes, pos + |AllModes(modes)|)
  {
    hide Holds, ModeFields, ModeAt, Encodable, USIZE;
    if modes != [] {
      var n := |modes| - 1;
      HoldsBoth(buf, pos, AllModes(modes[..n]), ModeFields(modes[n]));
      ModesReadBack(buf, pos, modes[..n]);
      ModeReadsBackExactlyIfEncodable(buf, pos + |AllModes(modes[..n])|, modes[n]);
      assert modes == modes[..n] + [modes[n]];
    }
  }

  lemma CellsEnd(buf: seq<byte>, pos: nat, height: u32, width: u32, cells: seq<byte>)
    requires |buf| < USIZE && Holds(buf, pos, cells) && |cells| == height * width * 4
    ensures CellsAt(buf, pos, height, width) == Got(|cells|, pos + |cells|)
  {
    assert CellBytes(height, width) == |cells|;
    hide CellBytes;
    TakesHeld(buf, pos, cells);
  }

  lemma MapParts(buf: seq<byte>, pos: nat, m: LedMap)
    requires m.LedMap? && Holds(buf, pos, MapBytes(m))
    ensures Holds(buf, pos, Le16(m.declared)) && Holds(buf, pos + 2, Le32(m.height))
    ensures Holds(buf, pos + 6, Le32(m.width)) && Holds(buf, pos + 10, m.cells) && |MapBytes(m)| == 10 + |m.cells|
  {
    hide Holds, Le16, Le32;
    HoldsBoth(buf, pos, Le16(m.declared) + Le32(m.height) + Le32(m.width), m.cells);
    HoldsBoth(buf, pos, Le16(m.declared) + Le32(m.height), Le32(m.width));
    HoldsBoth(buf, pos, Le16(m.declared), Le32(m.height));
  }

  lemma MapEnds(buf: seq<byte>, pos: nat, m: LedMap)
    requires |buf| < USIZE && Holds(buf, pos, MapBytes(m)) && MapFits(m)
    ensures MatrixAt(buf, pos).Got? && MatrixAt(buf, pos).end == pos + |MapBytes(m)|
  {
    hide Holds, Le16, Le32, U16At, U32At, CellsAt, USIZE;
    if m.NoMap? {
      U16ReadsBack(buf, pos, 0);
    } else {
      MapParts(buf, pos, m);
      U16ReadsBack(buf, pos, m.declared);
      U32ReadsBack(buf, pos + 2, m.height);
      U32ReadsBack(buf, pos + 6, m.width);
      CellsEnd(buf, pos + 10, m.height, m.width, m.cells);
    }
  }

  lemma ZoneEnds(buf: seq<byte>, pos: nat, z: Zone)
    requires |buf| < USIZE && Holds(buf, pos, ZoneBytes(z)) && Short(z.name) && MapFits(z.ledMap)
    ensures ZoneAt(buf, pos).Got? && ZoneAt(buf, pos).end == pos + |ZoneBytes(z)|
  {
    hide Holds, StringBytes, MapBytes, Le32s, StringAt, U32sAt, MatrixAt, Unsigned, USIZE, Short, MapFits;
    var numbers := [Unsigned(z.kind), z.ledsMin, z.ledsMax, z.ledsCount];
    HoldsBoth(buf, pos, StringBytes(z.name) + Le32s(numbers), MapBytes(z.ledMap));
    HoldsBoth(buf, pos, StringBytes(z.name), Le32s(numbers));
    StringEnds(buf, pos, z.name);
    var p1 := pos + |StringBytes(z.name)|;
    U32sReadBack(buf, p1, numbers);
    MapEnds(buf, p1 + 16, z.ledMap);
  }

  lemma {:induction false} ZonesEnd(buf: seq<byte>, pos: nat, zones: seq<Zone>)
    requires |buf| < USIZE && Holds(buf, pos, AllZones(zones)) && ZonesFit(zones)
    ensures ZonesAt(buf, pos, |zones|).Got? && ZonesAt(buf, pos, |zones|).end == pos + |AllZones(zones)|
  {
    hide Holds, ZoneBytes, ZoneAt, Short, MapFits, USIZE;
    if zones != [] {
      var rest, last := zones[..|zones| - 1], zones[|zones| - 1];
      HoldsBoth(buf, pos, AllZones(rest), ZoneBytes(last));
      assert forall z :: z in rest ==> z in zones;
      ZonesEnd(buf, pos, rest);
      assert last in zones;
      ZoneEnds(buf, pos + |AllZones(rest)|, last);
    }
  }

  // ---- The whole -------------------------------------------------------------------------

  lemma HeadReadsBack(buf: seq<byte>, pos: nat, d: Description)
    requires |buf| < USIZE && Holds(buf, pos, HeadBytes(d)) && Fits(d)
    ensures HeadAt(buf, pos) == Got((d.kind, d.name), pos + |HeadBytes(d)|)
  {
    hide Holds, Le32, Unsigned, Signed, StringBytes, AllStrings, StringAt, SkipStringsAt, U32At, USIZE,
      ModesFit, ZonesFit;
    var size, kind, name, rest := Le32(d.size), Le32(Unsigned(d.kind)), StringBytes(d.name), AllStrings(Details(d));
    HoldsBoth(buf, pos, size + kind + name, rest);
    HoldsBoth(buf, pos, size + kind, name);
    HoldsBoth(buf, pos, size, kind);
    U32ReadsBack(buf, pos, d.size);
    U32ReadsBack(buf, pos + 4, Unsigned(d.kind));
    SignReadsBack(d.kind);
    StringReadsBack(buf, pos + 8, d.name);
    StringsEnd(buf, pos + 8 + |name|, Details(d));
    assert |Details(d)| == 5;
  }

  lemma BodyReadsBack(buf: seq<byte>, pos: nat, d: Description)
    requires |buf| < USIZE && Holds(buf, pos, BodyBytes(d)) && ModesFit(d.modes)
    ensures BodyAt(buf, pos) == Got((d.activeMode, d.modes), pos + |BodyBytes(d)|)
  {
    hide Holds, Le16, Le32, Unsigned, Signed, AllModes, ModesAt, U16At, U32At, USIZE;
    var count, active := Le16(Wrap16(|d.modes|)), Le32(Unsigned(d.activeMode));
    HoldsBoth(buf, pos, count + active, AllModes(d.modes));
    HoldsBoth(buf, pos, count, active);
    U16ReadsBack(buf, pos, |d.modes|);
    U32ReadsBack(buf, pos + 2, Unsigned(d.activeMode));
    SignReadsBack(d.activeMode);
    ModesReadBack(buf, pos + 6, d.modes);
  }

  lemma TailReadsBack(buf: seq<byte>, pos: nat, d: Description)
    requires |buf| < USIZE && Holds(buf, pos, TailBytes(d)) && ZonesFit(d.zones)
    ensures TailAt(buf, pos) == Got(d.ledCount, pos + |TailBytes(d)|)
  {
    hide Holds, Le16, AllZones, ZonesAt, U16At, USIZE;
    var count := Le16(Wrap16(|d.zones|));
    HoldsBoth(buf, pos, count + AllZones(d.zones), Le16(d.ledCount));
    HoldsBoth(buf, pos, count, AllZones(d.zones));
    U16ReadsBack(buf, pos, |d.zones|);
    ZonesEnd(buf, pos + 2, d.zones);
    U16ReadsBack(buf, pos + 2 + |AllZones(d.zones)|, d.ledCount);
  }

  /**
   A description that fits its length fields, followed by anything, parses to its device: name, kind, active
   mode, modes and LED count, ending with the LED count.
  */
  lemma DescriptionReadsBack(index: u32, d: Description, tail: seq<byte>)
    requires Fits(d) && |DescriptionBytes(d) + tail| < USIZE
    ensures DeviceAt(index, DescriptionBytes(d) + tail) ==
      Got(Device(index, d.name, d.kind, d.activeMode, d.modes, d.ledCount), |DescriptionBytes(d)|)
  {
    var buf := DescriptionBytes(d) + tail;
    WholeBufferHolds(DescriptionBytes(d), tail);
    hide Holds, HeadBytes, BodyBytes, TailBytes, HeadAt, BodyAt, TailAt, USIZE, ModesFit, ZonesFit;
    HoldsBoth(buf, 0, HeadBytes(d) + BodyBytes(d), TailBytes(d));
    HoldsBoth(buf, 0, HeadBytes(d), BodyBytes(d));
    HeadReadsBack(buf, 0, d);
    BodyReadsBack(buf, |HeadBytes(d)|, d);
    TailReadsBack(buf, |HeadBytes(d)| + |BodyBytes(d)|, d);
  }

  /** Two descriptions that fit are parsed alike exactly if they agree on what the device keeps. */
  lemma OnlyTheDeviceMatters(index: u32, d: Description, e: Description)
    requires Fits(d) && Fits(e) && |DescriptionBytes(d)| < USIZE && |DescriptionBytes(e)| < USIZE
    ensures var one, two := DeviceAt(index, DescriptionBytes(d)), DeviceAt(index, DescriptionBytes(e));
      one.Got? && two.Got?
      && (one.value == two.value <==>
            d.name == e.name && d.kind == e.kind && d.activeMode == e.activeMode && d.modes == e.modes
            && d.ledCount == e.ledCount)
  {
    hide DeviceAt, DescriptionBytes, Fits;
    assert DescriptionBytes(d) + [] == DescriptionBytes(d) && DescriptionBytes(e) + [] == DescriptionBytes(e);
    DescriptionReadsBack(index, d, []);
    DescriptionReadsBack(index, e, []);
  }
}
