/**
 The hotkey state machine (src/input/hotkey.rs): Ctrl+Alt+F<n> switches slots, Shift on top
 of it also asks for the hooks, and configured combinations run macros.

 `KeyStep` is the machine as a function, `HotkeyFsm` the object that updates its sets in place
 and is proved to compute it. The lemmas are about whole event streams.
*/
module Hotkey {
  import opened Wrappers
  import opened Keys

  datatype Verdict =
    | Pass
    | Swallow
    | SwitchTo(slot: nat, fireHooks: bool, heldMods: seq<KeyCode>)
    | RunMacro(index: nat, heldMods: seq<KeyCode>)
  {
    predicate IsCombo() {
      SwitchTo? || RunMacro?
    }

    /** The combination's modifiers include this key. */
    predicate Names(key: KeyCode) {
      IsCombo() && key in heldMods
    }
  }

  datatype KeyEvent = KeyEvent(key: KeyCode, value: int)

  datatype Fsm = Fsm(
    macros: map<KeyCombo, nat>,
    held: set<KeyCode>,
    suppressed: set<KeyCode>,
    comboHeld: Option<(KeyCode, nat)>)

  const SWITCH_MODS: seq<KeyCode> := Ctrl.Keys() + Alt.Keys() + Shift.Keys()
  const MACRO_MODS: seq<KeyCode> := Ctrl.Keys() + Alt.Keys() + Shift.Keys() + Super.Keys()

  function FkeySlot(key: KeyCode): Option<nat> {
    if KEY_F1 <= key <= KEY_F10 then Some(key - KEY_F1 + 1)
    else if key == KEY_F11 then Some(11)
    else if key == KEY_F12 then Some(12)
    else None
  }

  /** The listed keys that are held, in list order. */
  function HeldAmong(keys: seq<KeyCode>, held: set<KeyCode>): (r: seq<KeyCode>)
    ensures forall k :: k in r <==> k in keys && k in held
  {
    if keys == [] then []
    else (if keys[0] in held then [keys[0]] else []) + HeldAmong(keys[1..], held)
  }

  /** The machine enters the "ours until released" state for a trigger and its modifiers. */
  function Claim(f: Fsm, key: KeyCode, mods: seq<KeyCode>): Fsm {
    f.(suppressed := f.suppressed + {key} + (set m | m in HeldAmong(mods, f.held)))
  }

  function Press(f: Fsm, key: KeyCode): (Fsm, Verdict) {
    var f := f.(held := f.held + {key});
    if FkeySlot(key).Some? && AnyHeld(Ctrl, f.held) && AnyHeld(Alt, f.held) then
      var slot := FkeySlot(key).value;
      (Claim(f, key, SWITCH_MODS).(comboHeld := Some((key, slot))),
       SwitchTo(slot, AnyHeld(Shift, f.held), HeldAmong(SWITCH_MODS, f.held)))
    else if KeyCombo(ModsOf(f.held), key) in f.macros then
      (Claim(f, key, MACRO_MODS), RunMacro(f.macros[KeyCombo(ModsOf(f.held), key)], HeldAmong(MACRO_MODS, f.held)))
    else
      (f, if key in f.suppressed then Swallow else Pass)
  }

  function Release(f: Fsm, key: KeyCode): (Fsm, Verdict) {
    (f.(held := f.held - {key},
        suppressed := f.suppressed - {key},
        comboHeld := if f.comboHeld.Some? && f.comboHeld.value.0 == key then None else f.comboHeld),
     if key in f.suppressed then Swallow else Pass)
  }

  function KeyStep(f: Fsm, key: KeyCode, value: int): (Fsm, Verdict) {
    if value == 1 then Press(f, key)
    else if value == 2 then (f, if key in f.suppressed then Swallow else Pass)
    else if value == 0 then Release(f, key)
    else (f, Pass)
  }

  /** Each macro's combination with its index; a later macro for the same combination replaces an earlier one. */
  ghost predicate ByLastIndex(macros: map<KeyCombo, nat>, combos: seq<KeyCombo>) {
    (forall c :: c in macros <==> c in combos)
    && forall c :: c in macros ==> macros[c] < |combos| && combos[macros[c]] == c && c !in combos[macros[c] + 1..]
  }

  // ---- The object ------------------------------------------------------------------------

  class HotkeyFsm {
    var macros: map<KeyCombo, nat>
    var held: set<KeyCode>
    var suppressed: set<KeyCode>
    var comboHeld: Option<(KeyCode, nat)>

    function State(): Fsm
      reads this
    {
      Fsm(macros, held, suppressed, comboHeld)
    }

    /** Macros in config order; of two equal combinations the later one counts. */
    constructor WithMacros(combos: seq<KeyCombo>)
      ensures held == suppressed == {} && comboHeld == None
      ensures ByLastIndex(macros, combos)
    {
      held, suppressed, comboHeld, macros := {}, {}, None, map[];
      new;
      for i := 0 to |combos|
        invariant held == suppressed == {} && comboHeld == None
        invariant forall c :: c in macros <==> c in combos[..i]
        invariant forall c :: c in macros ==> macros[c] < i && combos[macros[c]] == c && c !in combos[macros[c] + 1..i]
      {
        macros := macros[combos[i] := i];
      }
      assert combos[..|combos|] == combos;
    }

    method OnKey(key: KeyCode, value: int) returns (verdict: Verdict)
      modifies this
      ensures (State(), verdict) == KeyStep(old(State()), key, value)
    {
      if value == 1 {
        held := held + {key};
        var slot := FkeySlot(key);
        if slot.Some? && AnyHeld(Ctrl, held) && AnyHeld(Alt, held) {
          suppressed := suppressed + {key};
          var heldMods := SuppressHeld(SWITCH_MODS);
          comboHeld := Some((key, slot.value));
          return SwitchTo(slot.value, AnyHeld(Shift, held), heldMods);
        }
        if macros != map[] {
          var mods := FromHeld(held);
          var combo := KeyCombo(mods, key);
          if combo in macros {
            suppressed := suppressed + {key};
            var heldMods := SuppressHeld(MACRO_MODS);
            return RunMacro(macros[combo], heldMods);
          }
        }
        return if key in suppressed then Swallow else Pass;
      } else if value == 2 {
        return if key in suppressed then Swallow else Pass;
      } else if value == 0 {
        held := held - {key};
        if comboHeld.Some? && comboHeld.value.0 == key {
          comboHeld := None;
        }
        verdict := if key in suppressed then Swallow else Pass;
        suppressed := suppressed - {key};
      } else {
        return Pass;
      }
    }

    /** Collect the held keys of the list and swallow their releases from now on. */
    method SuppressHeld(keys: seq<KeyCode>) returns (heldMods: seq<KeyCode>)
      modifies this`suppressed
      ensures heldMods == HeldAmong(keys, held)
      ensures suppressed == old(suppressed) + (set m | m in heldMods)
    {
      assert HeldAmong([], held) == [];
      hide HeldAmong, AsSet;
      heldMods := [];
      AsSetIs([]);
      for i := 0 to |keys|
        invariant heldMods + HeldAmong(keys[i..], held) == HeldAmong(keys, held)
        invariant suppressed == old(suppressed) + AsSet(heldMods)
      {
        ghost var rest := HeldAmong(keys[i + 1..], held);
        HeldAmongFrom(keys, i, held);
        if keys[i] in held {
          AsSetGrows(heldMods, keys[i], rest);
          suppressed := suppressed + {keys[i]};
          heldMods := heldMods + [keys[i]];
        } else {
          assert [] + rest == rest;
        }
      }
      assert keys[|keys|..] == [];
      AsSetIs(heldMods);
    }
  }

  function AsSet(keys: seq<KeyCode>): set<KeyCode> {
    set k | k in keys
  }

  lemma AsSetIs(keys: seq<KeyCode>)
    ensures AsSet(keys) == (set k | k in keys)
  {
  }

  lemma AsSetGrows(keys: seq<KeyCode>, k: KeyCode, rest: seq<KeyCode>)
    ensures AsSet(keys + [k]) == AsSet(keys) + {k}
    ensures keys + ([k] + rest) == keys + [k] + rest
  {
  }

  lemma HeldAmongFrom(keys: seq<KeyCode>, i: nat, held: set<KeyCode>)
    requires i < |keys|
    ensures HeldAmong(keys[i..], held) == (if keys[i] in held then [keys[i]] else []) + HeldAmong(keys[i + 1..], held)
  {
    assert keys[i..][1..] == keys[i + 1..];
  }

  // ---- One event -------------------------------------------------------------------------

  lemma HoldingTheTriggerAddsNoModifier(held: set<KeyCode>, key: KeyCode)
    requires !IsModifier(key)
    ensures ModsOf(held + {key}) == ModsOf(held)
  {
    forall m: Modifier ensures AnyHeld(m, held + {key}) == AnyHeld(m, held) {
      assert key !in m.Keys();
    }
  }

  /** Slots are switched by exactly the presses that complete a reserved combination. */
  lemma SwitchesExactlyOnReserved(f: Fsm, key: KeyCode, value: int)
    ensures KeyStep(f, key, value).1.SwitchTo? <==> value == 1 && KeyCombo(ModsOf(f.held), key).IsReserved()
    ensures KeyStep(f, key, value).1.SwitchTo? ==>
      KeyStep(f, key, value).1.slot == FkeySlot(key).value && 1 <= KeyStep(f, key, value).1.slot <= 12
    ensures KeyStep(f, key, value).1.SwitchTo? ==> KeyStep(f, key, value).1.fireHooks == ModsOf(f.held).shift
  {
    if KeyCombo(ModsOf(f.held), key).IsReserved() || FkeySlot(key).Some? {
      assert !IsModifier(key);
      HoldingTheTriggerAddsNoModifier(f.held, key);
    }
  }

  /** A macro runs exactly when its trigger is pressed with exactly its modifiers down, unless the press switches. */
  lemma MacrosMatchExactly(f: Fsm, key: KeyCode, value: int, index: nat)
    ensures (exists held :: KeyStep(f, key, value).1 == RunMacro(index, held)) <==>
      value == 1 && var combo := KeyCombo(ModsOf(f.held + {key}), key);
      !combo.IsReserved() && combo in f.macros && f.macros[combo] == index
  {
    SwitchesExactlyOnReserved(f, key, value);
    if !IsModifier(key) {
      HoldingTheTriggerAddsNoModifier(f.held, key);
    }
    if KeyStep(f, key, value).1.RunMacro? {
      assert KeyStep(f, key, value).1 == RunMacro(KeyStep(f, key, value).1.index, KeyStep(f, key, value).1.heldMods);
    }
  }

  lemma ListedModifiers(k: KeyCode)
    ensures k in SWITCH_MODS <==> ModifierOf(k) in {Some(Ctrl), Some(Alt), Some(Shift)}
    ensures k in MACRO_MODS <==> IsModifier(k)
  {
  }

  /** A switch names the held Ctrl, Alt and Shift keys, a macro every held modifier key. */
  lemma CombosNameTheHeldModifiers(f: Fsm, key: KeyCode, value: int, k: KeyCode)
    ensures var v := KeyStep(f, key, value).1;
      (v.SwitchTo? ==> (v.Names(k) <==> k in f.held && ModifierOf(k) in {Some(Ctrl), Some(Alt), Some(Shift)}))
      && (v.RunMacro? ==> (v.Names(k) <==> (k in f.held || k == key) && IsModifier(k)))
  {
    ListedModifiers(k);
    if FkeySlot(key).Some? {
      ListedModifiers(key);
      assert ModifierOf(key).None?;
    }
    hide ModsOf, AnyHeld, HeldAmong, FkeySlot, SWITCH_MODS, MACRO_MODS, ModifierOf;
  }

  /** What an event does to the swallowed set: a release frees its key, a combination claims its keys. */
  lemma SuppressionStep(f: Fsm, key: KeyCode, value: int, k: KeyCode)
    ensures var (f', v) := KeyStep(f, key, value);
      k in f'.suppressed <==>
      (k in f.suppressed && !(key == k && value == 0)) || v.Names(k) || (v.IsCombo() && k == key)
  {
  }

  /** Only held keys are ever swallowed. */
  predicate SuppressedAreHeld(f: Fsm) {
    f.suppressed <= f.held
  }

  lemma SuppressedStayHeld(f: Fsm, key: KeyCode, value: int)
    requires SuppressedAreHeld(f)
    ensures SuppressedAreHeld(KeyStep(f, key, value).0)
  {
    var f' := KeyStep(f, key, value).0;
    forall k | k in f'.suppressed ensures k in f'.held {
      SuppressionStep(f, key, value, k);
    }
  }

  // ---- Whole streams ---------------------------------------------------------------------

  function RunKeys(f: Fsm, events: seq<KeyEvent>): (r: (Fsm, seq<Verdict>))
    ensures |r.1| == |events|
    decreases |events|
  {
    if events == [] then (f, [])
    else
      var (f1, v) := KeyStep(f, events[0].key, events[0].value);
      var (f2, vs) := RunKeys(f1, events[1..]);
      (f2, [v] + vs)
  }

  lemma {:induction false} SuppressedHeldThroughout(f: Fsm, events: seq<KeyEvent>)
    requires SuppressedAreHeld(f)
    ensures SuppressedAreHeld(RunKeys(f, events).0)
    decreases |events|
  {
    if events != [] {
      SuppressedStayHeld(f, events[0].key, events[0].value);
      SuppressedHeldThroughout(KeyStep(f, events[0].key, events[0].value).0, events[1..]);
    }
  }

  predicate NamedIn(verdicts: seq<Verdict>, k: KeyCode) {
    exists i :: 0 <= i < |verdicts| && verdicts[i].Names(k)
  }

  /** While a key is neither pressed nor released, it becomes swallowed exactly when a combination names it. */
  lemma {:induction false} SuppressedOnceNamed(f: Fsm, events: seq<KeyEvent>, k: KeyCode)
    requires forall e :: e in events && e.key == k ==> e.value != 0 && e.value != 1
    ensures k in RunKeys(f, events).0.suppressed <==> k in f.suppressed || NamedIn(RunKeys(f, events).1, k)
    decreases |events|
  {
    if events != [] {
      var (f1, v) := KeyStep(f, events[0].key, events[0].value);
      var vs := RunKeys(f1, events[1..]).1;
      SuppressionStep(f, events[0].key, events[0].value, k);
      SuppressedOnceNamed(f1, events[1..], k);
      assert RunKeys(f, events).1 == [v] + vs;
      assert NamedIn([v] + vs, k) <==> v.Names(k) || NamedIn(vs, k) by {
        assert ([v] + vs)[0] == v;
        forall i | 0 <= i < |vs| ensures ([v] + vs)[i + 1] == vs[i] {}
      }
    }
  }

  /** A press that was passed on has its release passed on too, unless a combination named the key in between. */
  lemma ReleaseAnswersPress(f: Fsm, k: KeyCode, between: seq<KeyEvent>)
    requires KeyStep(f, k, 1).1 == Pass
    requires forall e :: e in between && e.key == k ==> e.value != 0 && e.value != 1
    ensures var (f2, verdicts) := RunKeys(KeyStep(f, k, 1).0, between);
      KeyStep(f2, k, 0).1 == if NamedIn(verdicts, k) then Swallow else Pass
  {
    SuppressedOnceNamed(KeyStep(f, k, 1).0, between, k);
  }

  lemma {:induction false} ClaimedUntilReleased(f: Fsm, events: seq<KeyEvent>, k: KeyCode)
    requires k in f.suppressed
    requires KeyEvent(k, 0) !in events
    ensures k in RunKeys(f, events).0.suppressed
    ensures forall i :: 0 <= i < |events| && events[i].key == k && events[i].value in {1, 2} ==>
      RunKeys(f, events).1[i] != Pass
    decreases |events|
  {
    if events != [] {
      var e := events[0];
      var f1 := KeyStep(f, e.key, e.value).0;
      SuppressionStep(f, e.key, e.value, k);
      assert !(e.key == k && e.value == 0) by {
        assert e == KeyEvent(e.key, e.value);
      }
      ClaimedUntilReleased(f1, events[1..], k);
      forall i | 0 <= i < |events| && events[i].key == k && events[i].value in {1, 2}
        ensures RunKeys(f, events).1[i] != Pass
      {
        if i > 0 {
          assert events[i] == events[1..][i - 1];
        }
      }
    }
  }

  /** A trigger never reaches a target: its repeats, repeated presses and release are all kept back. */
  lemma TriggerNeverLeaks(f: Fsm, k: KeyCode, between: seq<KeyEvent>)
    requires KeyStep(f, k, 1).1.IsCombo()
    requires KeyEvent(k, 0) !in between
    ensures var (f2, verdicts) := RunKeys(KeyStep(f, k, 1).0, between);
      && KeyStep(f2, k, 0).1 == Swallow
      && forall i :: 0 <= i < |between| && between[i].key == k && between[i].value in {1, 2} ==>
           verdicts[i] != Pass
  {
    SuppressionStep(f, k, 1, k);
    ClaimedUntilReleased(KeyStep(f, k, 1).0, between, k);
  }
}
