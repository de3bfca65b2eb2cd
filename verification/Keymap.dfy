/**
 What each physical key means in a report (src/hid/translate.rs, the lookup tables).

 The consumer table is asked first, then the mouse buttons, then the keyboard page.
*/
module Keymap {
  import opened Wrappers
  import opened Keys
  import opened HidReports

  datatype Meaning =
    | ConsumerUsage(code: nat)
    | Button(bit: nat)
    | ModifierBit(bit: nat)
    | KeyUsage(usage: byte)
    | NoMeaning

  /** Consumer page (0x0C): mute, volume, transport and brightness. */
  function ConsumerOf(key: KeyCode): Option<nat> {
    match key
    case 113 => Some(0xE2)  // mute
    case 115 => Some(0xE9)  // volume up
    case 114 => Some(0xEA)  // volume down
    case 164 => Some(0xCD)  // play/pause
    case 166 => Some(0xB7)  // stop
    case 163 => Some(0xB5)  // next track
    case 165 => Some(0xB6)  // previous track
    case 225 => Some(0x6F)  // brightness up
    case 224 => Some(0x70)  // brightness down
    case _ => None
  }

  /** BTN_LEFT, BTN_RIGHT, BTN_MIDDLE; SIDE and BACK share a bit, and so do EXTRA and FORWARD. */
  function ButtonOf(key: KeyCode): Option<nat> {
    match key
    case 0x110 => Some(0)
    case 0x111 => Some(1)
    case 0x112 => Some(2)
    case 0x113 => Some(3)
    case 0x116 => Some(3)
    case 0x114 => Some(4)
    case 0x115 => Some(4)
    case _ => None
  }

  function ModifierBitOf(key: KeyCode): Option<nat> {
    if key == KEY_LEFTCTRL then Some(0)
    else if key == KEY_LEFTSHIFT then Some(1)
    else if key == KEY_LEFTALT then Some(2)
    else if key == KEY_LEFTMETA then Some(3)
    else if key == KEY_RIGHTCTRL then Some(4)
    else if key == KEY_RIGHTSHIFT then Some(5)
    else if key == KEY_RIGHTALT then Some(6)
    else if key == KEY_RIGHTMETA then Some(7)
    else None
  }

  /** The bits of the modifier byte: Ctrl, Shift, Alt, GUI for the left hand, and again for the right. */
  lemma ModifierBitsBySide(m: Modifier)
    ensures var bit := match m case Ctrl => 0 case Shift => 1 case Alt => 2 case Super => 3;
      ModifierBitOf(m.Keys()[0]) == Some(bit) && ModifierBitOf(m.Keys()[1]) == Some(bit + 4)
  {
  }

  // ---- The keyboard page (0x07), as a table and its inverse -------------------------------

  /** The letters and the digits above them. */
  function LetterUsage(key: KeyCode): (r: Option<byte>)
    ensures r.Some? ==> LetterKey(r.value) == Some(key)
  {
    match key
    case 30 => Some(0x04)
    case 48 => Some(0x05)
    case 46 => Some(0x06)
    case 32 => Some(0x07)
    case 18 => Some(0x08)
    case 33 => Some(0x09)
    case 34 => Some(0x0A)
    case 35 => Some(0x0B)
    case 23 => Some(0x0C)
    case 36 => Some(0x0D)
    case 37 => Some(0x0E)
    case 38 => Some(0x0F)
    case 50 => Some(0x10)
    case 49 => Some(0x11)
    case 24 => Some(0x12)
    case 25 => Some(0x13)
    case 16 => Some(0x14)
    case 19 => Some(0x15)
    case 31 => Some(0x16)
    case 20 => Some(0x17)
    case 22 => Some(0x18)
    case 47 => Some(0x19)
    case 17 => Some(0x1A)
    case 45 => Some(0x1B)
    case 21 => Some(0x1C)
    case 44 => Some(0x1D)
    case 2 => Some(0x1E)
    case 3 => Some(0x1F)
    case 4 => Some(0x20)
    case 5 => Some(0x21)
    case 6 => Some(0x22)
    case 7 => Some(0x23)
    case 8 => Some(0x24)
    case 9 => Some(0x25)
    case 10 => Some(0x26)
    case 11 => Some(0x27)
    case _ => None
  }

  function LetterKey(usage: byte): Option<KeyCode> {
    match usage
    case 0x04 => Some(30)  // A
    case 0x05 => Some(48)  // B
    case 0x06 => Some(46)  // C
    case 0x07 => Some(32)  // D
    case 0x08 => Some(18)  // E
    case 0x09 => Some(33)  // F
    case 0x0A => Some(34)  // G
    case 0x0B => Some(35)  // H
    case 0x0C => Some(23)  // I
    case 0x0D => Some(36)  // J
    case 0x0E => Some(37)  // K
    case 0x0F => Some(38)  // L
    case 0x10 => Some(50)  // M
    case 0x11 => Some(49)  // N
    case 0x12 => Some(24)  // O
    case 0x13 => Some(25)  // P
    case 0x14 => Some(16)  // Q
    case 0x15 => Some(19)  // R
    case 0x16 => Some(31)  // S
    case 0x17 => Some(20)  // T
    case 0x18 => Some(22)  // U
    case 0x19 => Some(47)  // V
    case 0x1A => Some(17)  // W
    case 0x1B => Some(45)  // X
    case 0x1C => Some(21)  // Y
    case 0x1D => Some(44)  // Z
    case 0x1E => Some(2)  // 1
    case 0x1F => Some(3)  // 2
    case 0x20 => Some(4)  // 3
    case 0x21 => Some(5)  // 4
    case 0x22 => Some(6)  // 5
    case 0x23 => Some(7)  // 6
    case 0x24 => Some(8)  // 7
    case 0x25 => Some(9)  // 8
    case 0x26 => Some(10)  // 9
    case 0x27 => Some(11)  // 0
    case _ => None
  }

  lemma LetterKeySendsIt(usage: byte)
    requires LetterKey(usage).Some?
    ensures LetterUsage(LetterKey(usage).value) == Some(usage)
  {
  }

  /** Enter to backslash, and semicolon to Caps Lock; no key sends usage 0x32. */
  function EditUsage(key: KeyCode): (r: Option<byte>)
    ensures r.Some? ==> EditKey(r.value) == Some(key)
  {
    match key
    case 28 => Some(0x28)
    case 1 => Some(0x29)
    case 14 => Some(0x2A)
    case 15 => Some(0x2B)
    case 57 => Some(0x2C)
    case 12 => Some(0x2D)
    case 13 => Some(0x2E)
    case 26 => Some(0x2F)
    case 27 => Some(0x30)
    case 43 => Some(0x31)
    case 39 => Some(0x33)
    case 40 => Some(0x34)
    case 41 => Some(0x35)
    case 51 => Some(0x36)
    case 52 => Some(0x37)
    case 53 => Some(0x38)
    case 58 => Some(0x39)
    case _ => None
  }

  function EditKey(usage: byte): Option<KeyCode> {
    match usage
    case 0x28 => Some(28)  // Enter
    case 0x29 => Some(1)  // Esc
    case 0x2A => Some(14)  // Backspace
    case 0x2B => Some(15)  // Tab
    case 0x2C => Some(57)  // Space
    case 0x2D => Some(12)  // minus
    case 0x2E => Some(13)  // equal
    case 0x2F => Some(26)  // left brace
    case 0x30 => Some(27)  // right brace
    case 0x31 => Some(43)  // backslash
    case 0x33 => Some(39)  // semicolon
    case 0x34 => Some(40)  // apostrophe
    case 0x35 => Some(41)  // grave
    case 0x36 => Some(51)  // comma
    case 0x37 => Some(52)  // dot
    case 0x38 => Some(53)  // slash
    case 0x39 => Some(58)  // Caps Lock
    case _ => None
  }

  lemma EditKeySendsIt(usage: byte)
    requires EditKey(usage).Some?
    ensures EditUsage(EditKey(usage).value) == Some(usage)
  {
  }

  /** F1 to F12, the six-key block and its neighbours, and the arrows. */
  function ControlUsage(key: KeyCode): (r: Option<byte>)
    ensures r.Some? ==> ControlKey(r.value) == Some(key)
  {
    match key
    case 59 => Some(0x3A)
    case 60 => Some(0x3B)
    case 61 => Some(0x3C)
    case 62 => Some(0x3D)
    case 63 => Some(0x3E)
    case 64 => Some(0x3F)
    case 65 => Some(0x40)
    case 66 => Some(0x41)
    case 67 => Some(0x42)
    case 68 => Some(0x43)
    case 87 => Some(0x44)
    case 88 => Some(0x45)
    case 99 => Some(0x46)
    case 70 => Some(0x47)
    case 119 => Some(0x48)
    case 110 => Some(0x49)
    case 102 => Some(0x4A)
    case 104 => Some(0x4B)
    case 111 => Some(0x4C)
    case 107 => Some(0x4D)
    case 109 => Some(0x4E)
    case 106 => Some(0x4F)
    case 105 => Some(0x50)
    case 108 => Some(0x51)
    case 103 => Some(0x52)
    case _ => None
  }

  function ControlKey(usage: byte): Option<KeyCode> {
    match usage
    case 0x3A => Some(59)  // F1
    case 0x3B => Some(60)  // F2
    case 0x3C => Some(61)  // F3
    case 0x3D => Some(62)  // F4
    case 0x3E => Some(63)  // F5
    case 0x3F => Some(64)  // F6
    case 0x40 => Some(65)  // F7
    case 0x41 => Some(66)  // F8
    case 0x42 => Some(67)  // F9
    case 0x43 => Some(68)  // F10
    case 0x44 => Some(87)  // F11
    case 0x45 => Some(88)  // F12
    case 0x46 => Some(99)  // SysRq
    case 0x47 => Some(70)  // Scroll Lock
    case 0x48 => Some(119)  // Pause
    case 0x49 => Some(110)  // Insert
    case 0x4A => Some(102)  // Home
    case 0x4B => Some(104)  // Page Up
    case 0x4C => Some(111)  // Delete
    case 0x4D => Some(107)  // End
    case 0x4E => Some(109)  // Page Down
    case 0x4F => Some(106)  // Right
    case 0x50 => Some(105)  // Left
    case 0x51 => Some(108)  // Down
    case 0x52 => Some(103)  // Up
    case _ => None
  }

  lemma ControlKeySendsIt(usage: byte)
    requires ControlKey(usage).Some?
    ensures ControlUsage(ControlKey(usage).value) == Some(usage)
  {
  }

  /** The keypad, the 102nd key and Compose. */
  function PadUsage(key: KeyCode): (r: Option<byte>)
    ensures r.Some? ==> PadKey(r.value) == Some(key)
  {
    match key
    case 69 => Some(0x53)
    case 98 => Some(0x54)
    case 55 => Some(0x55)
    case 74 => Some(0x56)
    case 78 => Some(0x57)
    case 96 => Some(0x58)
    case 79 => Some(0x59)
    case 80 => Some(0x5A)
    case 81 => Some(0x5B)
    case 75 => Some(0x5C)
    case 76 => Some(0x5D)
    case 77 => Some(0x5E)
    case 71 => Some(0x5F)
    case 72 => Some(0x60)
    case 73 => Some(0x61)
    case 82 => Some(0x62)
    case 83 => Some(0x63)
    case 86 => Some(0x64)
    case 127 => Some(0x65)
    case _ => None
  }

  function PadKey(usage: byte): Option<KeyCode> {
    match usage
    case 0x53 => Some(69)  // Num Lock
    case 0x54 => Some(98)  // keypad slash
    case 0x55 => Some(55)  // keypad asterisk
    case 0x56 => Some(74)  // keypad minus
    case 0x57 => Some(78)  // keypad plus
    case 0x58 => Some(96)  // keypad Enter
    case 0x59 => Some(79)  // keypad 1
    case 0x5A => Some(80)  // keypad 2
    case 0x5B => Some(81)  // keypad 3
    case 0x5C => Some(75)  // keypad 4
    case 0x5D => Some(76)  // keypad 5
    case 0x5E => Some(77)  // keypad 6
    case 0x5F => Some(71)  // keypad 7
    case 0x60 => Some(72)  // keypad 8
    case 0x61 => Some(73)  // keypad 9
    case 0x62 => Some(82)  // keypad 0
    case 0x63 => Some(83)  // keypad dot
    case 0x64 => Some(86)  // 102nd key
    case 0x65 => Some(127)  // Compose
    case _ => None
  }

  lemma PadKeySendsIt(usage: byte)
    requires PadKey(usage).Some?
    ensures PadUsage(PadKey(usage).value) == Some(usage)
  {
  }

  function KeyUsageOf(key: KeyCode): (r: Option<byte>)
    ensures r.Some? ==> 0x04 <= r.value <= 0x65 && KeyOfUsage(r.value) == Some(key)
  {
    if LetterUsage(key).Some? then LetterUsage(key)
    else if EditUsage(key).Some? then EditUsage(key)
    else if ControlUsage(key).Some? then ControlUsage(key)
    else PadUsage(key)
  }

  /** The key that sends this usage. */
  function KeyOfUsage(usage: byte): Option<KeyCode> {
    if LetterKey(usage).Some? then LetterKey(usage)
    else if EditKey(usage).Some? then EditKey(usage)
    else if ControlKey(usage).Some? then ControlKey(usage)
    else PadKey(usage)
  }

  /** The keys of one group send no usage of another. */
  lemma EditKeysAreNoLetters(usage: byte)
    requires EditKey(usage).Some?
    ensures LetterUsage(EditKey(usage).value).None?
  {
  }

  lemma ControlKeysAreNoLetters(usage: byte)
    requires ControlKey(usage).Some?
    ensures LetterUsage(ControlKey(usage).value).None? && EditUsage(ControlKey(usage).value).None?
  {
  }

  lemma PadKeysAreNoLetters(usage: byte)
    requires PadKey(usage).Some?
    ensures LetterUsage(PadKey(usage).value).None? && EditUsage(PadKey(usage).value).None?
    ensures ControlUsage(PadKey(usage).value).None?
  {
  }

  /** A key sends a usage exactly if the usage is sent by the key: the table and its inverse agree. */
  lemma TablesAreInverse(key: KeyCode, usage: byte)
    ensures KeyUsageOf(key) == Some(usage) <==> KeyOfUsage(usage) == Some(key)
  {
    hide LetterUsage, EditUsage, ControlUsage, PadUsage, LetterKey, EditKey, ControlKey, PadKey;
    if LetterKey(usage).Some? {
      LetterKeySendsIt(usage);
    } else if EditKey(usage).Some? {
      EditKeySendsIt(usage);
      EditKeysAreNoLetters(usage);
    } else if ControlKey(usage).Some? {
      ControlKeySendsIt(usage);
      ControlKeysAreNoLetters(usage);
    } else if PadKey(usage).Some? {
      PadKeySendsIt(usage);
      PadKeysAreNoLetters(usage);
    }
  }

  // ---- What is printed on the keys -------------------------------------------------------

  /** The usage of a letter or digit, which the page lists in order, 0 after 9. */
  function UsageOfChar(c: char): int {
    if 'a' <= c <= 'z' then 0x04 + (c - 'a') as int
    else if '1' <= c <= '9' then 0x1E + (c - '1') as int
    else 0x27
  }

  /** The usage of a key on the keypad: 1 to 9 in order, then 0 and the dot. */
  function UsageOnPad(c: char): int {
    if '1' <= c <= '9' then 0x59 + (c - '1') as int
    else if c == '0' then 0x62
    else if c == '.' then 0x63
    else if c == '-' then 0x56
    else 0x57
  }

  /** The keys from `first` on send what is printed on them. */
  predicate Prints(first: nat, row: string) {
    forall i :: 0 <= i < |row| ==> first + i < 0x1_0000 && LetterUsage(first + i) == Some(UsageOfChar(row[i]))
  }

  predicate PadPrints(first: nat, row: string) {
    forall i :: 0 <= i < |row| ==> first + i < 0x1_0000 && PadUsage(first + i) == Some(UsageOnPad(row[i]))
  }

  lemma LetterRowsSpell()
    ensures Prints(16, "qwertyuiop") && Prints(30, "asdfghjkl")
  {
  }

  lemma LowerAndDigitRowsSpell()
    ensures Prints(44, "zxcvbnm") && Prints(2, "1234567890")
  {
  }

  lemma PadSpells()
    ensures PadPrints(71, "789-456+1230.")
  {
  }

  /** The letter rows from Q, A and Z on, the digits, and the keypad from 7 on send what is printed on their keys. */
  lemma RowsSendWhatTheyPrint(i: nat)
    ensures i < 10 ==> KeyUsageOf(16 + i) == Some(UsageOfChar("qwertyuiop"[i]))
    ensures i < 9 ==> KeyUsageOf(30 + i) == Some(UsageOfChar("asdfghjkl"[i]))
    ensures i < 7 ==> KeyUsageOf(44 + i) == Some(UsageOfChar("zxcvbnm"[i]))
    ensures i < 10 ==> KeyUsageOf(2 + i) == Some(UsageOfChar("1234567890"[i]))
    ensures i < 13 ==> KeyUsageOf(71 + i) == Some(UsageOnPad("789-456+1230."[i]))
  {
    LetterRowsSpell();
    LowerAndDigitRowsSpell();
    PadSpells();
    if i < 13 {
      PadKeysAreNoLetters(UsageOnPad("789-456+1230."[i]));
    }
    hide LetterUsage, EditUsage, ControlUsage, PadUsage, UsageOfChar, UsageOnPad;
  }

  /** The function keys, in a row but for F11 and F12. */
  lemma FunctionKeysInOrder(n: nat)
    requires 1 <= n <= 12
    ensures KeyUsageOf(if n <= 10 then 58 + n else 76 + n) == Some(0x39 + n)
  {
  }

  function MeaningOf(key: KeyCode): (r: Meaning)
    ensures r.ModifierBit? ==> r.bit < 8
    ensures r.Button? ==> r.bit < 5
    ensures r.ConsumerUsage? ==> 0 < r.code < 0x1_0000
    ensures r.KeyUsage? ==> 0x04 <= r.usage <= 0x65
    ensures IsModifier(key) <==> r.ModifierBit?
  {
    if ConsumerOf(key).Some? then ConsumerUsage(ConsumerOf(key).value)
    else if ButtonOf(key).Some? then Button(ButtonOf(key).value)
    else if ModifierBitOf(key).Some? then ModifierBit(ModifierBitOf(key).value)
    else if KeyUsageOf(key).Some? then KeyUsage(KeyUsageOf(key).value)
    else NoMeaning
  }

  /** Apart from the two spellings of the thumb buttons, no two keys mean the same thing. */
  lemma MeaningsAreDistinct(k1: KeyCode, k2: KeyCode)
    requires MeaningOf(k1) == MeaningOf(k2)
    ensures k1 == k2 || MeaningOf(k1).NoMeaning? || MeaningOf(k1) in {Button(3), Button(4)}
  {
    hide KeyUsageOf, KeyOfUsage;
  }
}
