/**
 The router object (src/router.rs). It owns the hotkey machine and the translator and updates
 its own fields in place; every method is proved to perform the step function of `RouterSpec`,
 the frames it emits read as the reports they decode to.
*/
module Router {
  import opened Wrappers
  import opened Keys
  import opened Hotkey
  import opened HidReports
  import opened Translate
  import opened RouterSpec
  import opened Slots
  import Lighting

  function SeenOne(e: Effect<HidFrame>): Effect<Report> {
    match e
    case SinkKey(key, value) => SinkKey(key, value)
    case SinkRel(axis, delta) => SinkRel(axis, delta)
    case SinkRelease(keys) => SinkRelease(keys)
    case Send(slot, frame) => Send(slot, Decode(frame))
    case SlotChanged(to) => SlotChanged(to)
    case HookSlot(hook) => HookSlot(hook)
    case HookMacro(index) => HookMacro(index)
    case Repaint => Repaint
    case OpenPairingWindow(unbound) => OpenPairingWindow(unbound)
    case RepairSlot(repaired) => RepairSlot(repaired)
  }

  /** The effects with every frame read as the report it stands for. */
  function Seen(out: seq<Effect<HidFrame>>): (r: seq<Effect<Report>>)
    ensures |r| == |out|
  {
    seq(|out|, i requires 0 <= i < |out| => SeenOne(out[i]))
  }

  lemma SeenConcat(a: seq<Effect<HidFrame>>, b: seq<Effect<HidFrame>>)
    ensures Seen(a + b) == Seen(a) + Seen(b)
  {
  }

  lemma SeenFew(e: Effect<HidFrame>)
    ensures Seen([]) == [] && Seen([e]) == [SeenOne(e)]
  {
  }

  lemma SeenSends(slot: nat, frames: seq<HidFrame>)
    ensures Seen(SendAll(slot, frames)) == SendAll(slot, DecodeAll(frames))
  {
  }

  class Router {
    const config: Config
    const fsm: HotkeyFsm
    const translator: Translator
    const activity: Lighting.Activity?
    var slot: nat
    var localHeld: set<KeyCode>
    var mouseLastSent: int
    var mouseFlushAt: Option<int>
    var repairHold: Option<RepairHold>

    ghost function Repr(): set<object>
      reads this
    {
      {this, fsm, translator, translator.keys}
    }

    ghost predicate Valid()
      reads Repr()
    {
      translator.Valid()
    }

    /** The coalescer in front of the lighting task, if there is one. */
    ghost function Pinger(): set<object> {
      if activity == null then {} else {activity}
    }

    ghost function State(): RState
      reads Repr()
    {
      RState(slot, fsm.State(), translator.State(), localHeld, mouseLastSent, mouseFlushAt, repairHold)
    }

    constructor (macros: seq<KeyCombo>, activity: Lighting.Activity?, mouseRateHz: nat, macSlots: set<nat>,
                 initialSlot: nat, now: int)
      ensures Valid() && fresh(Repr()) && this.activity == activity
      ensures config == Config(MouseInterval(mouseRateHz), macSlots)
      ensures State() == Start(config, fsm.macros, initialSlot, now)
      ensures ByLastIndex(fsm.macros, macros)
    {
      config := Config(MouseInterval(mouseRateHz), macSlots);
      var machine := new HotkeyFsm.WithMacros(macros);
      var reports := new Translator();
      reports.SetMacLayout(initialSlot in macSlots);
      fsm, translator, this.activity := machine, reports, activity;
      slot, localHeld := initialSlot, {};
      mouseLastSent, mouseFlushAt, repairHold := now - MouseInterval(mouseRateHz), None, None;
    }

    method FlushMouseNow(now: int) returns (out: seq<Effect<HidFrame>>)
      requires Valid()
      modifies Repr()
      ensures Valid() && (State(), Seen(out)) == RouterSpec.FlushMouseNow(old(State()), now)
    {
      hide MouseReports;
      mouseFlushAt := None;
      var frames := translator.FlushMouse();
      SeenSends(slot, frames);
      if frames == [] {
        return [];
      }
      mouseLastSent := now;
      return SendAll(slot, frames);
    }

    method FlushRemote(now: int) returns (out: seq<Effect<HidFrame>>)
      requires Valid()
      modifies Repr()
      ensures Valid() && (State(), Seen(out)) == RouterSpec.FlushRemote(config, old(State()), now)
    {
      hide KeyboardFlushed, ConsumerFlushed, RouterSpec.FlushMouseNow, Seen;
      var keyboard := translator.FlushKeyboard();
      var consumer := translator.FlushConsumer();
      SeenSends(slot, keyboard);
      SeenSends(slot, consumer);
      SeenConcat(SendAll(slot, keyboard), SendAll(slot, consumer));
      out := SendAll(slot, keyboard) + SendAll(slot, consumer);
      if translator.buttonsDirty || now >= mouseLastSent + config.interval {
        var mouse := FlushMouseNow(now);
        SeenConcat(out, mouse);
        out := out + mouse;
      } else if translator.MotionPending() && mouseFlushAt.None? {
        mouseFlushAt := Some(mouseLastSent + config.interval);
      }
    }

    method ReleaseComboMods(heldMods: seq<KeyCode>, now: int) returns (out: seq<Effect<HidFrame>>)
      requires Valid()
      modifies Repr()
      ensures Valid() && (State(), Seen(out)) == RouterSpec.ReleaseComboMods(config, old(State()), heldMods, now)
    {
      hide RouterSpec.FlushRemote, TranslateKey, Translator.State;
      if slot == LOCAL_SLOT {
        var held := set k | k in heldMods && k in localHeld;
        localHeld := localHeld - held;
        SeenFew(SinkRelease(held));
        return if held != {} then [SinkRelease(held)] else [];
      } else {
        for i := 0 to |heldMods|
          invariant Valid()
          invariant State() == old(State()).(tr := translator.State())
          invariant ReleaseKeys(translator.State(), heldMods[i..]) == ReleaseKeys(old(translator.State()), heldMods)
        {
          translator.HandleKey(heldMods[i], 0);
          assert heldMods[i..][1..] == heldMods[i + 1..];
        }
        out := FlushRemote(now);
      }
    }

    method LeaveTarget() returns (out: seq<Effect<HidFrame>>)
      requires Valid()
      modifies Repr()
      ensures Valid() && (State(), Seen(out)) == RouterSpec.LeaveTarget(old(State()))
    {
      hide AllReleased;
      if slot == LOCAL_SLOT {
        SeenFew(SinkRelease(localHeld));
        out := if localHeld != {} then [SinkRelease(localHeld)] else [];
        localHeld := {};
      } else {
        mouseFlushAt := None;
        var frames := translator.ReleaseAll();
        SeenSends(slot, frames);
        out := SendAll(slot, frames);
      }
    }

    method SwitchTo(target: nat, fireHooks: bool, heldMods: seq<KeyCode>, now: int, bound: set<nat>)
      returns (out: seq<Effect<HidFrame>>)
      requires Valid()
      modifies Repr()
      ensures Valid()
      ensures (State(), Seen(out)) == Switch(config, old(State()), target, fireHooks, heldMods, now, bound)
    {
      hide RouterSpec.ReleaseComboMods, RouterSpec.LeaveTarget, Seen;
      var hooks := if fireHooks then [HookSlot(target)] else [];
      SeenFew(HookSlot(target));
      if target == slot {
        out := ReleaseComboMods(heldMods, now);
        SeenFew(Repaint);
        SeenConcat(out, [Repaint]);
        SeenConcat(out + [Repaint], hooks);
        return out + [Repaint] + hooks;
      }
      if !Reachable(target, bound) {
        out := ReleaseComboMods(heldMods, now);
        SeenFew(OpenPairingWindow(target));
        SeenConcat([OpenPairingWindow(target)], out);
        return [OpenPairingWindow(target)] + out;
      }
      out := LeaveTarget();
      translator.SetMacLayout(target in config.macSlots);
      slot := target;
      SeenFew(SlotChanged(target));
      SeenConcat(out, [SlotChanged(target)]);
      SeenConcat(out + [SlotChanged(target)], hooks);
      out := out + [SlotChanged(target)] + hooks;
    }

    method RunMacro(index: nat, heldMods: seq<KeyCode>, now: int) returns (out: seq<Effect<HidFrame>>)
      requires Valid()
      modifies Repr()
      ensures Valid()
      ensures var (s, released) := RouterSpec.ReleaseComboMods(config, old(State()), heldMods, now);
        State() == s && Seen(out) == released + [HookMacro(index)]
    {
      hide RouterSpec.ReleaseComboMods, Seen;
      out := ReleaseComboMods(heldMods, now);
      SeenFew(HookMacro(index));
      SeenConcat(out, [HookMacro(index)]);
      out := out + [HookMacro(index)];
    }

    method PassKey(key: KeyCode, value: int) returns (out: seq<Effect<HidFrame>>)
      requires Valid()
      modifies Repr()
      ensures Valid() && (State(), Seen(out)) == RouterSpec.PassKey(old(State()), key, value)
    {
      hide TranslateKey, Translator.State;
      SeenFew(SinkKey(key, value));
      if slot == LOCAL_SLOT {
        if value == 1 {
          localHeld := localHeld + {key};
        } else if value == 0 {
          localHeld := localHeld - {key};
        }
        return [SinkKey(key, value)];
      }
      translator.HandleKey(key, value);
      return [];
    }

    /** Every event counts as activity, also one that is swallowed. */
    method Handle(input: Input, now: int, bound: set<nat>) returns (out: seq<Effect<HidFrame>>)
      requires Valid()
      modifies Repr(), Pinger()
      ensures Valid() && (State(), Seen(out)) == RouterSpec.Handle(config, old(State()), input, now, bound)
      ensures activity != null ==> activity.lastSent == Lighting.LastPing(old(activity.lastSent), now)
    {
      hide KeyStep, Switch, RouterSpec.PassKey, RouterSpec.ReleaseComboMods, RouterSpec.FlushRemote, Seen;
      if activity != null {
        var _ := activity.Ping(now);
      }
      SeenFew(Repaint);
      match input {
        case KeyInput(key, value) =>
          var verdict := fsm.OnKey(key, value);
          match verdict {
            case Swallow => return [];
            case SwitchTo(target, fireHooks, heldMods) => out := SwitchTo(target, fireHooks, heldMods, now, bound);
            case RunMacro(index, heldMods) => out := RunMacro(index, heldMods, now);
            case Pass => out := PassKey(key, value);
          }
        case RelInput(axis, delta) =>
          if slot == LOCAL_SLOT {
            SeenFew(SinkRel(axis, delta));
            return [SinkRel(axis, delta)];
          }
          translator.HandleRel(axis, delta);
          return [];
        case Syn =>
          if slot != LOCAL_SLOT {
            out := FlushRemote(now);
          } else {
            return [];
          }
        case OtherInput => return [];
      }
    }

    method SyncRepairHold(now: int)
      requires Valid()
      modifies this`repairHold
      ensures Valid() && State() == RouterSpec.SyncRepairHold(old(State()), now)
    {
      if fsm.comboHeld.Some? && fsm.comboHeld.value.1 != LOCAL_SLOT {
        var held := fsm.comboHeld.value.1;
        if !(repairHold.Some? && repairHold.value.slot == held) {
          repairHold := Some(RepairHold(held, now + REPAIR_HOLD, false));
        }
      } else {
        repairHold := None;
      }
    }

    method FireRepair() returns (out: seq<Effect<HidFrame>>)
      requires Valid()
      modifies this`repairHold
      ensures Valid() && (State(), Seen(out)) == RouterSpec.FireRepair(old(State()))
    {
      if repairHold.None? {
        return [];
      }
      repairHold := Some(repairHold.value.(fired := true));
      SeenFew(RepairSlot(repairHold.value.slot));
      return [RepairSlot(repairHold.value.slot)];
    }

    /** One turn of the select loop. */
    method Turn(wake: Wake) returns (out: seq<Effect<HidFrame>>)
      requires Valid()
      modifies Repr(), Pinger()
      ensures Valid() && (State(), Seen(out)) == Step(config, old(State()), wake)
      ensures activity != null && wake.Arrived? ==>
        activity.lastSent == Lighting.LastPing(old(activity.lastSent), wake.at)
      ensures activity != null && !wake.Arrived? ==> activity.lastSent == old(activity.lastSent)
    {
      hide RouterSpec.Handle, RouterSpec.FlushMouseNow, RouterSpec.FireRepair, RouterSpec.SyncRepairHold, Seen;
      match wake
      case Arrived(input, at, bound) =>
        out := Handle(input, at, bound);
        SyncRepairHold(at);
      case FlushTimer(at) => out := FlushMouseNow(at);
      case RepairTimer(_) => out := FireRepair();
    }
  }
}
