/**
 Key codes, side-agnostic modifiers and key combinations (src/input/keys.rs).

 A key is its evdev code. A combination is a set of modifiers plus one trigger key.
*/
module Keys {
  import opened Wrappers

  type KeyCode = code: nat | code < 0x1_0000

  const KEY_LEFTCTRL: KeyCode := 29
  const KEY_RIGHTCTRL: KeyCode := 97
  const KEY_LEFTALT: KeyCode := 56
  const KEY_RIGHTALT: KeyCode := 100
  const KEY_LEFTSHIFT: KeyCode := 42
  const KEY_RIGHTSHIFT: KeyCode := 54
  const KEY_LEFTMETA: KeyCode := 125
  const KEY_RIGHTMETA: KeyCode := 126

  const KEY_F1: KeyCode := 59
  const KEY_F10: KeyCode := 68
  const KEY_F11: KeyCode := 87
  const KEY_F12: KeyCode := 88

  datatype Modifier = Ctrl | Alt | Shift | Super {
    /** The physical keys, left and right, that count as this modifier. */
    function Keys(): seq<KeyCode> {
      match this
      case Ctrl => [KEY_LEFTCTRL, KEY_RIGHTCTRL]
      case Alt => [KEY_LEFTALT, KEY_RIGHTALT]
      case Shift => [KEY_LEFTSHIFT, KEY_RIGHTSHIFT]
      case Super => [KEY_LEFTMETA, KEY_RIGHTMETA]
    }
  }

  const ALL_MODIFIERS: seq<Modifier> := [Ctrl, Alt, Shift, Super]

  function ModifierOf(key: KeyCode): Option<Modifier> {
    if key in Ctrl.Keys() then Some(Ctrl)
    else if key in Alt.Keys() then Some(Alt)
    else if key in Shift.Keys() then Some(Shift)
    else if key in Super.Keys() then Some(Super)
    else None
  }

  predicate IsModifier(key: KeyCode) {
    ModifierOf(key).Some?
  }

  /** At least one of the modifier's two keys is down. */
  predicate AnyHeld(m: Modifier, held: set<KeyCode>) {
    exists k :: k in m.Keys() && k in held
  }

  datatype Mods = Mods(ctrl: bool, alt: bool, shift: bool, sup: bool) {
    predicate Contains(m: Modifier) {
      match m
      case Ctrl => ctrl
      case Alt => alt
      case Shift => shift
      case Super => sup
    }

    function Set(m: Modifier): (r: Mods)
      ensures forall n: Modifier :: r.Contains(n) <==> n == m || Contains(n)
    {
      match m
      case Ctrl => this.(ctrl := true)
      case Alt => this.(alt := true)
      case Shift => this.(shift := true)
      case Super => this.(sup := true)
    }
  }

  const NO_MODS := Mods(false, false, false, false)

  /** The modifiers among the held keys. */
  function ModsOf(held: set<KeyCode>): Mods {
    Mods(AnyHeld(Ctrl, held), AnyHeld(Alt, held), AnyHeld(Shift, held), AnyHeld(Super, held))
  }

  /** Folding the held keys one by one, in any order, collects exactly their modifiers. */
  method FromHeld(held: set<KeyCode>) returns (mods: Mods)
    ensures mods == ModsOf(held)
  {
    mods := NO_MODS;
    var rest := held;
    while rest != {}
      invariant rest <= held
      invariant mods == ModsOf(held - rest)
      decreases rest
    {
      var key :| key in rest;
      match ModifierOf(key) {
        case Some(m) => mods := mods.Set(m);
        case None =>
      }
      assert held - (rest - {key}) == held - rest + {key};
      rest := rest - {key};
    }
    assert held - rest == held;
  }

  datatype KeyCombo = KeyCombo(mods: Mods, key: KeyCode) {
    /** Ctrl+Alt+F1..F12, with any further modifier, belongs to slot switching. */
    predicate IsReserved() {
      mods.ctrl && mods.alt && (KEY_F1 <= key <= KEY_F10 || key == KEY_F11 || key == KEY_F12)
    }
  }
}
