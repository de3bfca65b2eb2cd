/**
 OpenRGB SDK protocol 3 as bytes (src/rgb/proto.rs): how packets, modes and colors are laid out,
 and what a device description says when read from a position. Names are byte strings.
*/
module WireFormat {
  import opened HidReports

  type u16 = n: nat | n < 0x1_0000
  type u32 = n: nat | n < 0x1_0000_0000
  type i32 = n: int | -0x8000_0000 <= n < 0x8000_0000

  const USIZE: nat := 0x1_0000_0000_0000_0000
  const MAX_PACKET: nat := 4 * 1024 * 1024
  const HEADER_LEN: nat := 16
  const MAGIC: seq<byte> := [0x4F, 0x52, 0x47, 0x42]

  const UPDATE_LEDS: u32 := 1050
  const UPDATE_MODE: u32 := 1101

  datatype Rgb = Rgb(r: byte, g: byte, b: byte) {
    /** Colors go out as 0x00BBGGRR. */
    function ToWire(): u32 {
      r + 0x100 * g + 0x1_0000 * b
    }
  }

  datatype Mode = Mode(
    index: i32, name: seq<byte>, value: i32, flags: u32,
    speedMin: u32, speedMax: u32, brightnessMin: u32, brightnessMax: u32, colorsMin: u32, colorsMax: u32,
    speed: u32, brightness: u32, direction: u32, colorMode: u32, colors: seq<u32>)

  datatype Device = Device(index: u32, name: seq<byte>, kind: i32, activeMode: i32, modes: seq<Mode>, ledCount: u16)

  datatype Packet = Packet(devIdx: u32, id: u32, data: seq<byte>)

  // ---- Numbers ---------------------------------------------------------------------------

  function Le16(n: u16): (r: seq<byte>)
    ensures |r| == 2
  {
    [n % 256, n / 256]
  }

  function Le32(n: u32): (r: seq<byte>)
    ensures |r| == 4
  {
    Le16(n % 0x1_0000) + Le16(n / 0x1_0000)
  }

  function FromLe16(b: seq<byte>): u16
    requires |b| == 2
  {
    var lo: nat, hi: nat := b[0], b[1];
    lo + 256 * hi
  }

  function FromLe32(b: seq<byte>): u32
    requires |b| == 4
  {
    var lo: nat, hi: nat := FromLe16(b[..2]), FromLe16(b[2..]);
    lo + 0x1_0000 * hi
  }

  /** Two's complement. */
  function Unsigned(n: i32): u32 {
    if n < 0 then n + 0x1_0000_0000 else n
  }

  function Signed(n: u32): i32 {
    if n >= 0x8000_0000 then n - 0x1_0000_0000 else n
  }

  /** A length cut to 16 bits: the length itself exactly when it fits. */
  function Wrap16(n: nat): (r: u16)
    ensures r == n <==> n < 0x1_0000
  {
    n % 0x1_0000
  }

  function Wrap32(n: nat): (r: u32)
    ensures r == n <==> n < 0x1_0000_0000
  {
    n % 0x1_0000_0000
  }

  // ---- Writing ---------------------------------------------------------------------------

  /** The length counts the trailing NUL, in 16 bits. */
  function StringBytes(text: seq<byte>): seq<byte> {
    Le16(Wrap16(|text| + 1)) + text + [0]
  }

  function Le32s(values: seq<u32>): (r: seq<byte>)
    ensures |r| == 4 * |values|
  {
    if values == [] then [] else Le32s(values[..|values| - 1]) + Le32(values[|values| - 1])
  }

  /** The eleven numbers between a mode's value and its colors. */
  function Numbers(m: Mode): seq<u32> {
    [m.flags, m.speedMin, m.speedMax, m.brightnessMin, m.brightnessMax, m.colorsMin, m.colorsMax,
     m.speed, m.brightness, m.direction, m.colorMode]
  }

  /** A mode without its index, as a device description has it. */
  function ModeFields(m: Mode): seq<byte> {
    StringBytes(m.name) + Le32(Unsigned(m.value)) + Le32s(Numbers(m)) + Le16(Wrap16(|m.colors|)) + Le32s(m.colors)
  }

  /** The length counts itself. */
  function SizePrefixed(body: seq<byte>): seq<byte> {
    Le32(Wrap32(|body| + 4)) + body
  }

  function ModeBytes(m: Mode): seq<byte> {
    SizePrefixed(Le32(Unsigned(m.index)) + ModeFields(m))
  }

  function Framed(p: Packet): seq<byte> {
    MAGIC + Le32(p.devIdx) + Le32(p.id) + Le32(Wrap32(|p.data|)) + p.data
  }

  function Repeat<T>(x: T, n: nat): (r: seq<T>)
    ensures |r| == n
  {
    seq(n, i requires 0 <= i < n => x)
  }

  function LedBytes(color: Rgb, count: u16): seq<byte> {
    SizePrefixed(Le16(count) + Le32s(Repeat(color.ToWire(), count)))
  }

  // ---- Reading ---------------------------------------------------------------------------

  datatype ReadError = Truncated(want: nat, at: nat, of: nat) | AbsurdMatrix(height: u32, width: u32)

  /** A value and where its bytes end, or an error. */
  datatype Read<T> = Got(value: T, end: nat) | Failed(error: ReadError)

  function TakeAt(buf: seq<byte>, pos: nat, n: nat): (r: Read<seq<byte>>)
    ensures r.Got? ==> pos <= r.end <= |buf| && |r.value| == n && r.end == pos + n
  {
    if pos + n < USIZE && pos + n <= |buf| then Got(buf[pos..pos + n], pos + n) else Failed(Truncated(n, pos, |buf|))
  }

  function U16At(buf: seq<byte>, pos: nat): (r: Read<u16>)
    ensures r.Got? ==> pos <= r.end <= |buf|
  {
    match TakeAt(buf, pos, 2) case Failed(e) => Failed(e) case Got(b, end) => Got(FromLe16(b), end)
  }

  function U32At(buf: seq<byte>, pos: nat): (r: Read<u32>)
    ensures r.Got? ==> pos <= r.end <= |buf|
  {
    match TakeAt(buf, pos, 4) case Failed(e) => Failed(e) case Got(b, end) => Got(FromLe32(b), end)
  }

  function I32At(buf: seq<byte>, pos: nat): (r: Read<i32>)
    ensures r.Got? ==> pos <= r.end <= |buf|
  {
    match U32At(buf, pos) case Failed(e) => Failed(e) case Got(n, end) => Got(Signed(n), end)
  }

  /** The bytes before the first NUL. */
  function UpToNul(raw: seq<byte>): (r: seq<byte>)
    ensures |r| <= |raw| && 0 !in r
  {
    if raw == [] || raw[0] == 0 then [] else [raw[0]] + UpToNul(raw[1..])
  }

  function StringAt(buf: seq<byte>, pos: nat): (r: Read<seq<byte>>)
    ensures r.Got? ==> pos <= r.end <= |buf|
  {
    match U16At(buf, pos)
    case Failed(e) => Failed(e)
    case Got(len, p) =>
      match TakeAt(buf, p, len)
      case Failed(e) => Failed(e)
      case Got(raw, end) => Got(UpToNul(raw), end)
  }

  /** `n` strings, passed over. */
  function SkipStringsAt(buf: seq<byte>, pos: nat, n: nat): (r: Read<nat>)
    ensures r.Got? ==> pos <= r.end <= |buf| || (n == 0 && r.end == pos)
  {
    if n == 0 then Got(0, pos)
    else
      match SkipStringsAt(buf, pos, n - 1)
      case Failed(e) => Failed(e)
      case Got(_, p) => match StringAt(buf, p) case Failed(e) => Failed(e) case Got(_, end) => Got(n, end)
  }

  function U32sAt(buf: seq<byte>, pos: nat, n: nat): (r: Read<seq<u32>>)
    ensures r.Got? ==> |r.value| == n && (pos <= r.end <= |buf| || (n == 0 && r.end == pos))
  {
    if n == 0 then Got([], pos)
    else
      match U32sAt(buf, pos, n - 1)
      case Failed(e) => Failed(e)
      case Got(values, p) => match U32At(buf, p) case Failed(e) => Failed(e) case Got(v, end) => Got(values + [v], end)
  }

  /** A count of 16 bits and that many colors. */
  function ColorsAt(buf: seq<byte>, pos: nat): (r: Read<seq<u32>>)
    ensures r.Got? ==> pos <= r.end <= |buf|
  {
    match U16At(buf, pos) case Failed(e) => Failed(e) case Got(n, p) => U32sAt(buf, p, n)
  }

  function ModeOf(index: i32, name: seq<byte>, value: i32, v: seq<u32>, colors: seq<u32>): Mode
    requires |v| == 11
  {
    Mode(index, name, value, v[0], v[1], v[2], v[3], v[4], v[5], v[6], v[7], v[8], v[9], v[10], colors)
  }

  function ModeAt(buf: seq<byte>, pos: nat, index: i32): (r: Read<Mode>)
    ensures r.Got? ==> pos <= r.end <= |buf|
  {
    match StringAt(buf, pos)
    case Failed(e) => Failed(e)
    case Got(name, p1) =>
      match I32At(buf, p1)
      case Failed(e) => Failed(e)
      case Got(value, p2) =>
        match U32sAt(buf, p2, 11)
        case Failed(e) => Failed(e)
        case Got(v, p3) =>
          match ColorsAt(buf, p3)
          case Failed(e) => Failed(e)
          case Got(colors, end) => Got(ModeOf(index, name, value, v, colors), end)
  }

  function ModesAt(buf: seq<byte>, pos: nat, n: u16): (r: Read<seq<Mode>>)
    ensures r.Got? ==> |r.value| == n && (pos <= r.end <= |buf| || (n == 0 && r.end == pos))
  {
    if n == 0 then Got([], pos)
    else
      match ModesAt(buf, pos, n - 1)
      case Failed(e) => Failed(e)
      case Got(modes, p) =>
        match ModeAt(buf, p, n - 1)
        case Failed(e) => Failed(e)
        case Got(m, end) => Got(modes + [m], end)
  }

  function CellBytes(height: u32, width: u32): nat {
    height * width * 4
  }

  /** The cells of a zone's LED map; a size that does not fit the machine's is refused. */
  function CellsAt(buf: seq<byte>, pos: nat, height: u32, width: u32): (r: Read<nat>)
    ensures r.Got? ==> pos <= r.end <= |buf| && r.value == r.end - pos == CellBytes(height, width)
    ensures r == Failed(AbsurdMatrix(height, width)) <==> CellBytes(height, width) >= USIZE
    ensures r.Got? <==> CellBytes(height, width) < USIZE && pos + CellBytes(height, width) < USIZE
                        && pos + CellBytes(height, width) <= |buf|
  {
    var cells := CellBytes(height, width);
    if cells >= USIZE then Failed(AbsurdMatrix(height, width))
    else match TakeAt(buf, pos, cells) case Failed(e) => Failed(e) case Got(_, end) => Got(cells, end)
  }

  /** A zone's LED map: nothing, or height, width and four bytes a cell. */
  function MatrixAt(buf: seq<byte>, pos: nat): (r: Read<nat>)
    ensures r.Got? ==> pos <= r.end <= |buf|
  {
    match U16At(buf, pos)
    case Failed(e) => Failed(e)
    case Got(len, p) =>
      if len == 0 then Got(0, p)
      else
        match U32At(buf, p)
        case Failed(e) => Failed(e)
        case Got(height, p1) =>
          match U32At(buf, p1)
          case Failed(e) => Failed(e)
          case Got(width, p2) => CellsAt(buf, p2, height, width)
  }

  /** Zones are only passed over, to reach the LED count. */
  function ZoneAt(buf: seq<byte>, pos: nat): (r: Read<nat>)
    ensures r.Got? ==> pos <= r.end <= |buf|
  {
    match StringAt(buf, pos)
    case Failed(e) => Failed(e)
    case Got(_, p1) =>
      match U32sAt(buf, p1, 4)
      case Failed(e) => Failed(e)
      case Got(_, p2) => MatrixAt(buf, p2)
  }

  function ZonesAt(buf: seq<byte>, pos: nat, n: nat): (r: Read<nat>)
    ensures r.Got? ==> pos <= r.end <= |buf| || (n == 0 && r.end == pos)
  {
    if n == 0 then Got(0, pos)
    else
      match ZonesAt(buf, pos, n - 1)
      case Failed(e) => Failed(e)
      case Got(_, p) => match ZoneAt(buf, p) case Failed(e) => Failed(e) case Got(_, end) => Got(n, end)
  }

  /** Type, name, and five strings nobody needs. */
  function HeadAt(buf: seq<byte>, pos: nat): (r: Read<(i32, seq<byte>)>)
    ensures r.Got? ==> pos <= r.end <= |buf|
  {
    match U32At(buf, pos)
    case Failed(e) => Failed(e)
    case Got(_, p1) =>
      match I32At(buf, p1)
      case Failed(e) => Failed(e)
      case Got(kind, p2) =>
        match StringAt(buf, p2)
        case Failed(e) => Failed(e)
        case Got(name, p3) =>
          match SkipStringsAt(buf, p3, 5)
          case Failed(e) => Failed(e)
          case Got(_, end) => Got((kind, name), end)
  }

  /** The active mode's number, and the modes. */
  function BodyAt(buf: seq<byte>, pos: nat): (r: Read<(i32, seq<Mode>)>)
    ensures r.Got? ==> pos <= r.end <= |buf|
  {
    match U16At(buf, pos)
    case Failed(e) => Failed(e)
    case Got(n, p1) =>
      match I32At(buf, p1)
      case Failed(e) => Failed(e)
      case Got(active, p2) =>
        match ModesAt(buf, p2, n)
        case Failed(e) => Failed(e)
        case Got(modes, end) => Got((active, modes), end)
  }

  function TailAt(buf: seq<byte>, pos: nat): (r: Read<u16>)
    ensures r.Got? ==> pos <= r.end <= |buf|
  {
    match U16At(buf, pos)
    case Failed(e) => Failed(e)
    case Got(n, p1) =>
      match ZonesAt(buf, p1, n)
      case Failed(e) => Failed(e)
      case Got(_, p2) => U16At(buf, p2)
  }

  /** The whole description: the device, and where what the parser needs of it ends. */
  function DeviceAt(index: u32, buf: seq<byte>): (r: Read<Device>)
    ensures r.Got? ==> r.end <= |buf|
  {
    match HeadAt(buf, 0)
    case Failed(e) => Failed(e)
    case Got(head, p1) =>
      match BodyAt(buf, p1)
      case Failed(e) => Failed(e)
      case Got(body, p2) =>
        match TailAt(buf, p2)
        case Failed(e) => Failed(e)
        case Got(leds, end) => Got(Device(index, head.1, head.0, body.0, body.1, leds), end)
  }

  // ---- Packets on a stream ---------------------------------------------------------------

  datatype PacketRead =
    | OnePacket(packet: Packet, rest: seq<byte>)
    | StreamEnded
    | BadMagic
    | TooBig(id: u32, size: u32)

  function ReadOne(stream: seq<byte>): (r: PacketRead)
    ensures r.OnePacket? ==> |r.rest| < |stream|
  {
    if |stream| < HEADER_LEN then StreamEnded
    else if stream[..4] != MAGIC then BadMagic
    else
      var devIdx, id, size := FromLe32(stream[4..8]), FromLe32(stream[8..12]), FromLe32(stream[12..16]);
      if size > MAX_PACKET then TooBig(id, size)
      else if |stream| < HEADER_LEN + size then StreamEnded
      else OnePacket(Packet(devIdx, id, stream[16..16 + size]), stream[16 + size..])
  }

  /** Every packet up to the first error or the end. */
  function ReadAll(stream: seq<byte>): (seq<Packet>, PacketRead)
    decreases |stream|
  {
    match ReadOne(stream)
    case OnePacket(p, rest) => var (packets, stop) := ReadAll(rest); ([p] + packets, stop)
    case stop => ([], stop)
  }

  function FramedAll(packets: seq<Packet>): seq<byte> {
    if packets == [] then [] else Framed(packets[0]) + FramedAll(packets[1..])
  }
}
