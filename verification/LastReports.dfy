/**
 The last report of each kind that the router sends to a slot. From the moment the slot becomes
 active, and whatever is pressed meanwhile: once all keys are up, the next SYN leaves the last
 keyboard, mouse and consumer frame for the slot saying that nothing is held.
*/
module LastReports {
  import opened HidReports
  import opened Hotkey
  import opened Keys
  import opened RouterSpec
  import opened HostViews
  import opened Translate
  import Replay
  import Router
  import NoStuckKeys
  import Safety

  // ---- Frames for one slot ---------------------------------------------------------------

  function FrameFor<F>(e: Effect<F>, slot: nat): seq<F> {
    if e.Send? && e.slot == slot then [e.frame] else []
  }

  /** What these effects send to the slot, in order. */
  function SentTo<F>(out: seq<Effect<F>>, slot: nat): seq<F>
    decreases |out|
  {
    if out == [] then [] else FrameFor(out[0], slot) + SentTo(out[1..], slot)
  }

  lemma SeeStep(v: HostView, e: Effect<Report>, slot: nat, rest: seq<Report>)
    ensures SeeAll(v, FrameFor(e, slot) + rest) ==
      SeeAll(if e.Send? && e.slot == slot then See(v, e.frame) else v, rest)
  {
    hide See;
    if e.Send? && e.slot == slot {
      assert ([e.frame] + rest)[1..] == rest;
    } else {
      assert [] + rest == rest;
    }
  }

  /** A host's view is what the reports sent to its slot make of it. */
  lemma {:induction false} ViewIsWhatWasSent(w: World, out: seq<Effect<Report>>, slot: nat)
    ensures ObserveAll(w, out).View(slot) == SeeAll(w.View(slot), SentTo(out, slot))
    decreases |out|
  {
    hide See;
    if out != [] {
      ViewIsWhatWasSent(Observe(w, out[0]), out[1..], slot);
      SeeStep(w.View(slot), out[0], slot, SentTo(out[1..], slot));
    }
  }

  /** The frames for the slot decode to the reports for the slot. */
  lemma {:induction false} SentFramesDecode(out: seq<Effect<HidFrame>>, slot: nat)
    ensures SentTo(Router.Seen(out), slot) == DecodeAll(SentTo(out, slot))
    decreases |out|
  {
    hide Decode;
    if out != [] {
      assert Router.Seen(out)[0] == Router.SeenOne(out[0]) && Router.Seen(out)[1..] == Router.Seen(out[1..]);
      SentFramesDecode(out[1..], slot);
      DecodeAllConcat(FrameFor(out[0], slot), SentTo(out[1..], slot));
      if out[0].Send? && out[0].slot == slot {
        DecodeOne(out[0].frame);
      }
    }
  }

  // ---- The last frame of a report --------------------------------------------------------

  predicate Says(r: Report, v: HostView) {
    match r
    case KeyboardReport(mods, usages) => v.mods == mods && v.usages == usages
    case MouseReport(buttons, _) => v.buttons == buttons
    case ConsumerReport(usage) => v.consumer == usage
  }

  /** The report says that nothing of its kind is held. */
  predicate NothingIn(r: Report) {
    Says(r, NOTHING_HELD)
  }

  lemma SeeAllSnoc(v: HostView, frames: seq<HidFrame>, f: HidFrame)
    ensures SeeAll(v, DecodeAll(frames + [f])) == See(SeeAll(v, DecodeAll(frames)), Decode(f))
  {
    hide Decode, See;
    DecodeAllConcat(frames, [f]);
    DecodeOne(f);
    SeeConcat(v, DecodeAll(frames), [Decode(f)]);
    SeeOne(SeeAll(v, DecodeAll(frames)), Decode(f));
  }

  lemma SeeKeepsOtherKinds(v: HostView, f: HidFrame, g: HidFrame)
    ensures Says(Decode(f), See(v, Decode(f)))
    ensures f.ReportId() != g.ReportId() && Says(Decode(g), v) ==> Says(Decode(g), See(v, Decode(f)))
  {
    hide Bits, NonZero;
  }

  /** After these frames the host shows what the last frame of each report said. */
  lemma {:induction false} LastFrameIsShown(v: HostView, frames: seq<HidFrame>, id: byte)
    ensures var mine := Replay.Of(frames, id);
      mine != [] ==> Says(Decode(mine[|mine| - 1]), SeeAll(v, DecodeAll(frames)))
  {
    if frames != [] {
      hide Decode, See, Says, SeeAll;
      var rest, f := frames[..|frames| - 1], frames[|frames| - 1];
      assert frames == rest + [f];
      LastFrameIsShown(v, rest, id);
      SeeAllSnoc(v, rest, f);
      Replay.OfSnoc(rest, f, id);
      var before := Replay.Of(rest, id);
      if f.ReportId() == id {
        SeeKeepsOtherKinds(SeeAll(v, DecodeAll(rest)), f, f);
      } else if before != [] {
        assert before[|before| - 1] in before;
        SeeKeepsOtherKinds(SeeAll(v, DecodeAll(rest)), f, before[|before| - 1]);
      }
    }
  }

  // ---- The router's run ------------------------------------------------------------------

  lemma {:induction false} RunInParts(c: Config, s: RState, a: seq<Wake>, b: seq<Wake>)
    ensures Run(c, s, a + b) == (Run(c, Run(c, s, a).0, b).0, Run(c, s, a).1 + Run(c, Run(c, s, a).0, b).1)
    ensures Safety.WellFormed(c, s, a + b) ==> Safety.WellFormed(c, s, a)
    ensures TidyRun(c, s, a + b) ==> TidyRun(c, s, a)
    decreases |a|
  {
    hide Step;
    if a == [] {
      assert a + b == b;
      assert [] + Run(c, s, b).1 == Run(c, s, b).1;
    } else {
      assert (a + b)[1..] == a[1..] + b && (a + b)[0] == a[0];
      var (s1, out) := Step(c, s, a[0]);
      RunInParts(c, s1, a[1..], b);
      assert out + (Run(c, s1, a[1..]).1 + Run(c, Run(c, s1, a[1..]).0, b).1)
          == out + Run(c, s1, a[1..]).1 + Run(c, Run(c, s1, a[1..]).0, b).1;
    }
  }

  /** A real switch leaves the translator idle, on the new slot; so is it at the start. */
  lemma SwitchingLeavesIdle(c: Config, s: RState, wake: Wake)
    requires Switches(s, wake) && NoStuckKeys.Justified(s)
    ensures var s1 := Step(c, s, wake).0;
      s1.tr.Idle() && s1.slot == KeyStep(s.fsm, wake.input.key, wake.input.value).1.slot
  {
    ReleasedIsIdle(s.tr);
    hide KeyStep, AllReleased;
  }

  lemma IdleHostShowsNothing(c: Config, s: RState, w: World)
    requires InSync(c, s, w) && s.tr.Idle()
    ensures w.View(s.slot) == NOTHING_HELD
  {
    assert SwapBits({}) == {};
  }

  /** The effects from the end of `before` on, the SYN included. */
  function OutSince(c: Config, s0: RState, before: seq<Wake>, since: seq<Wake>, at: int, bound: set<nat>)
    : seq<Effect<Report>>
  {
    var s := Run(c, s0, before).0;
    var (s1, out) := Run(c, s, since);
    out + Step(c, s1, Arrived(Syn, at, bound)).1
  }

  /** The host that showed nothing when its translator was idle shows nothing again after the SYN. */
  lemma WhatWasSentLeavesNothing(c: Config, macros: map<KeyCombo, nat>, slot0: nat, now: int, before: seq<Wake>,
                                 since: seq<Wake>, at: int, bound: set<nat>)
    requires var s0 := Start(c, macros, slot0, now);
      Safety.WellFormed(c, s0, before + since) && TidyRun(c, s0, before + since)
      && Run(c, s0, before).0.tr.Idle() && Run(c, s0, before + since).0.fsm.held == {}
    ensures var s0 := Start(c, macros, slot0, now);
      SeeAll(NOTHING_HELD, SentTo(OutSince(c, s0, before, since, at, bound), Run(c, s0, before).0.slot)) == NOTHING_HELD
  {
    var s0 := Start(c, macros, slot0, now);
    hide Start, Run, Step, Safety.WellFormed, TidyRun, ObserveAll, InSync, NoStuckKeys.Justified, SeeAll, SentTo;
    RunInParts(c, s0, before, since);
    var (s, out) := Run(c, s0, before);
    var w := ObserveAll(QUIET, out);
    Safety.RunIsSafe(c, macros, slot0, now, before);
    IdleHostShowsNothing(c, s, w);
    Safety.AllKeysUpMeansNothingHeldAnywhere(c, macros, slot0, now, before + since, at, bound, s.slot);
    var all := OutSince(c, s0, before, since, at, bound);
    ObserveConcat(QUIET, out, all);
    var (s1, more) := Run(c, s, since);
    assert out + more + Step(c, s1, Arrived(Syn, at, bound)).1 == out + all;
    ViewIsWhatWasSent(w, all, s.slot);
  }

  /**
   From any moment at which the translator is idle (the start, or right after a switch) through a
   well-formed and tidy run to a SYN with all keys up: of each report, the last frame sent since to the
   slot that was active then, if there is one, says that nothing is held.
  */
  lemma LastFramesSayNothingIsHeld(c: Config, macros: map<KeyCombo, nat>, slot0: nat, now: int, before: seq<Wake>,
                                   since: seq<Wake>, at: int, bound: set<nat>, out: seq<Effect<HidFrame>>, id: byte)
    requires var s0 := Start(c, macros, slot0, now);
      Safety.WellFormed(c, s0, before + since) && TidyRun(c, s0, before + since)
      && Run(c, s0, before).0.tr.Idle() && Run(c, s0, before + since).0.fsm.held == {}
      && Router.Seen(out) == OutSince(c, s0, before, since, at, bound)
    ensures var mine := Replay.Of(SentTo(out, Run(c, Start(c, macros, slot0, now), before).0.slot), id);
      mine != [] ==> NothingIn(Decode(mine[|mine| - 1]))
  {
    WhatWasSentLeavesNothing(c, macros, slot0, now, before, since, at, bound);
    hide Start, Run, Safety.WellFormed, TidyRun, OutSince, SeeAll, SentTo, Decode, Says;
    var slot := Run(c, Start(c, macros, slot0, now), before).0.slot;
    SentFramesDecode(out, slot);
    LastFrameIsShown(NOTHING_HELD, SentTo(out, slot), id);
  }
}
