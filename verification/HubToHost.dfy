/**
 From the keys to the host. The frames the router sends to a slot are fed to the Bluetooth manager,
 which holds, replays and sends them. Over a calm run that ends with the host attached, once all
 keys are up the last frames the host received say that nothing is held.
*/
module HubToHost {
  import opened Wrappers
  import opened Slots
  import opened Keys
  import opened HidReports
  import opened Replay
  import opened Gatt
  import opened ManagerSpec
  import opened HeldFrames
  import opened Thinning
  import opened ReplayDelivery
  import DroppedReleases
  import HostViews
  import LastReports
  import Router
  import RouterSpec
  import Safety
  import SwitchLosses

  // ---- What is routed to the host --------------------------------------------------------

  function FrameOf(turn: Turn, slot: Slot): seq<HidFrame> {
    if turn.FrameTurn? && turn.slot == slot then [turn.frame] else []
  }

  /** The frames for this slot that the manager's loop takes off its queue, in order. */
  function Fed(turns: seq<Turn>, slot: Slot): seq<HidFrame> {
    if turns == [] then [] else Fed(turns[..|turns| - 1], slot) + FrameOf(turns[|turns| - 1], slot)
  }

  predicate GoesTo(m: Mgr, turn: Turn, p: Address) {
    turn.FrameTurn? && turn.slot in m.bindings && m.bindings[turn.slot] == p
  }

  /** Whenever a frame comes, it is for the host exactly if it is for the slot. */
  predicate BoundThroughout(m: Mgr, t: Le, turns: seq<Turn>, slot: Slot, p: Address) {
    turns == [] ||
    var before, last := turns[..|turns| - 1], turns[|turns| - 1];
    BoundThroughout(m, t, before, slot, p)
    && (last.FrameTurn? ==> (GoesTo(RunTurns(m, t, before).0, last, p) <==> last.slot == slot))
  }

  lemma FrameTurnRoutes(m: Mgr, t: Le, slot: Slot, frame: HidFrame, outcome: TrySend, p: Address, id: byte)
    ensures Frames(RouteFrame(m, t, slot, frame, outcome).2, Routings, p, id) ==
      if slot in m.bindings && m.bindings[slot] == p then Of([frame], id) else []
  {
    var more := RouteFrame(m, t, slot, frame, outcome).2;
    hide Pushed, SendResult, SentTo, Frames;
    assert [frame][1..] == [];
    if |more| == 0 {
      QuietShowsNothing(more, Routings, p, id);
    } else if |more| == 1 {
      FramesOne(more[0], Routings, p, id);
    } else {
      FramesTwo(more[0], more[1], Routings, p, id);
    }
  }

  lemma {:induction false} UnroutedShowsNothing(log: Log, p: Address, id: byte)
    requires forall e :: e in log ==> !e.Routed?
    ensures Frames(log, Routings, p, id) == []
  {
    if log != [] {
      assert log[|log| - 1] in log;
      UnroutedShowsNothing(log[..|log| - 1], p, id);
    }
  }

  /** A turn that is no single-mode switch routes its frame, if it is a frame turn, and nothing else. */
  lemma TurnRoutes(m: Mgr, t: Le, turn: Turn, p: Address, id: byte)
    requires turn.SwitchTurn? ==> !m.single
    ensures Frames(TakeTurn(m, t, turn).2, Routings, p, id) == if GoesTo(m, turn, p) then Of([turn.frame], id) else []
  {
    hide RouteFrame, OnSubscribeTurn, Tick, SubForgotten, OpenWindow, RepairSlot, Of, Frames;
    match turn {
      case FrameTurn(slot, frame, outcome, _) => FrameTurnRoutes(m, t, slot, frame, outcome, p, id);
      case SubscribeTurn(_, _, _, _, _, _, _) =>
        DroppedReleases.SubscribeTurnRoutesNothing(m, t, turn);
        UnroutedShowsNothing(TakeTurn(m, t, turn).2, p, id);
      case TickTurn(answers, at) =>
        TickIsQuiet(m, t, answers, at);
        UnroutedShowsNothing(TakeTurn(m, t, turn).2, p, id);
      case _ => UnroutedShowsNothing(TakeTurn(m, t, turn).2, p, id);
    }
  }

  lemma {:induction false} OfConcat(a: seq<HidFrame>, b: seq<HidFrame>, id: byte)
    ensures Of(a + b, id) == Of(a, id) + Of(b, id)
    decreases |a|
  {
    if a == [] {
      assert a + b == b;
    } else {
      assert (a + b)[1..] == a[1..] + b;
      OfConcat(a[1..], b, id);
    }
  }

  /** Over a calm run, what is routed to the host is what is fed for its slot. */
  lemma {:induction false} RoutedIsFed(m: Mgr, t: Le, turns: seq<Turn>, slot: Slot, p: Address, id: byte)
    requires CalmRun(m, t, turns, p, id) && BoundThroughout(m, t, turns, slot, p)
    ensures Frames(RunTurns(m, t, turns).2, Routings, p, id) == Of(Fed(turns, slot), id)
  {
    hide TakeTurn, Frames, Of, NoSendFails, NothingEvicted, Undisturbed, GoesTo;
    if turns == [] {
      assert Frames([], Routings, p, id) == [] by { UnroutedShowsNothing([], p, id); }
      OfNone(id);
    } else {
      var before, last := turns[..|turns| - 1], turns[|turns| - 1];
      RoutedIsFed(m, t, before, slot, p, id);
      var (m1, t1, log) := RunTurns(m, t, before);
      TurnRoutes(m1, t1, last, p, id);
      FramesConcat(log, TakeTurn(m1, t1, last).2, Routings, p, id);
      OfConcat(Fed(before, slot), FrameOf(last, slot), id);
      OfNone(id);
      OnlyFrameTurnsGo(m1, last, p);
    }
  }

  lemma OnlyFrameTurnsGo(m: Mgr, turn: Turn, p: Address)
    ensures GoesTo(m, turn, p) ==> turn.FrameTurn?
  {
  }

  // ---- What is left at the host ----------------------------------------------------------

  /** The last frame, if there is one, says that nothing is held. */
  predicate EndsWithNothing(frames: seq<HidFrame>) {
    frames != [] ==> LastReports.NothingIn(Decode(frames[|frames| - 1]))
  }

  lemma LastMouseFrame(frames: seq<HidFrame>)
    requires frames != [] && AllOf(frames, REPORT_ID_MOUSE)
    ensures var f := frames[|frames| - 1]; f.Mouse? && f.buttons == LastButtons(frames, 0)
  {
    assert frames[|frames| - 1] in frames;
  }

  lemma NothingByButtons(f: HidFrame, g: HidFrame)
    requires f.Mouse? && g.Mouse? && f.buttons == g.buttons
    ensures LastReports.NothingIn(Decode(f)) <==> LastReports.NothingIn(Decode(g))
  {
    hide Bits;
  }

  /** Leaving out motion does not change what the last frame says of the buttons. */
  lemma ThinnedEndsAlike(got: seq<HidFrame>, routed: seq<HidFrame>)
    requires Thins(got, routed, 0) && AllOf(got, REPORT_ID_MOUSE) && AllOf(routed, REPORT_ID_MOUSE)
    requires EndsWithNothing(routed)
    ensures EndsWithNothing(got)
  {
    ThinningKeepsButtons(got, routed, 0);
    if got != [] {
      assert routed != [];
      LastMouseFrame(got);
      LastMouseFrame(routed);
      hide Thins, LastButtons, Decode;
      NothingByButtons(got[|got| - 1], routed[|routed| - 1]);
    }
  }

  /** What a calm run that ends attached delivers ends with nothing held if what it routes does. */
  lemma CalmRunKeepsTheEnd(m: Mgr, t: Le, turns: seq<Turn>, p: Address, id: byte)
    requires NoLeftover(m, t) && PeersAreSubscribed(t) && Awaited(m, t, p)
    requires HeldOf(m, p, id) == [] && (id == REPORT_ID_MOUSE ==> StartsAt(m, t, p, 0))
    requires CalmRun(m, t, turns, p, id) && RunTurns(m, t, turns).1.FullyAttached(p)
    requires EndsWithNothing(Frames(RunTurns(m, t, turns).2, Routings, p, id))
    ensures EndsWithNothing(Frames(RunTurns(m, t, turns).2, Deliveries, p, id))
  {
    hide NoLeftover, Awaited, HeldOf, StartsAt, CalmRun, RunTurns, Frames, Le.FullyAttached, EndsWithNothing, Thins,
      ReplayDelivery.Kept;
    var (m1, t1, log) := RunTurns(m, t, turns);
    if id != REPORT_ID_MOUSE {
      NoKeyIsLost(m, t, turns, p, id);
    } else {
      OnlyMotionIsMissing(m, t, turns, p, id, 0);
      StartIsKept(m, t, p, id, 0);
      CalmRunKeeps(m, t, turns, p, id, 0);
      AttachedHoldsNothing(m1, t1, p, id);
      var got, routed := Frames(log, Deliveries, p, id), Frames(log, Routings, p, id);
      assert got + [] == got;
      FramesAreOfReport(log, Deliveries, p, id);
      FramesAreOfReport(log, Routings, p, id);
      ThinnedEndsAlike(got, routed);
    }
  }

  /** The router's effects from an idle moment on the slot through a run to a SYN with all keys up. */
  predicate SendsSince(c: RouterSpec.Config, s0: RouterSpec.RState, before: seq<RouterSpec.Wake>,
                       since: seq<RouterSpec.Wake>, at: int, bound: set<nat>,
                       out: seq<RouterSpec.Effect<HidFrame>>, slot: Slot)
  {
    var s := RouterSpec.Run(c, s0, before).0;
    Safety.WellFormed(c, s0, before + since) && HostViews.TidyRun(c, s0, before + since)
    && s.slot == slot && s.tr.Idle() && RouterSpec.Run(c, s0, before + since).0.fsm.held == {}
    && Router.Seen(out) == LastReports.OutSince(c, s0, before, since, at, bound)
  }

  /**
   From keys to host. The router runs from its start; `before` ends with its translator idle on the
   slot, as at the start and right after a switch. From there all frames it sends to the slot go to the
   manager, which runs calmly from a moment at which it waits for the slot's host with nothing held, and
   ends with the host attached. If all keys are up and a SYN has followed, then of each report the last
   frame that the host received, if any, says that nothing is held.
  */
  lemma HostIsLeftWithNothingHeld(c: RouterSpec.Config, macros: map<KeyCombo, nat>, slot0: nat, now: int,
                                  before: seq<RouterSpec.Wake>, since: seq<RouterSpec.Wake>, at: int, bound: set<nat>,
                                  out: seq<RouterSpec.Effect<HidFrame>>, slot: Slot,
                                  m: Mgr, t: Le, turns: seq<Turn>, p: Address, id: byte)
    requires SendsSince(c, RouterSpec.Start(c, macros, slot0, now), before, since, at, bound, out, slot)
    requires NoLeftover(m, t) && PeersAreSubscribed(t) && Awaited(m, t, p)
    requires HeldOf(m, p, id) == [] && (id == REPORT_ID_MOUSE ==> StartsAt(m, t, p, 0))
    requires CalmRun(m, t, turns, p, id) && RunTurns(m, t, turns).1.FullyAttached(p)
    requires BoundThroughout(m, t, turns, slot, p) && Fed(turns, slot) == LastReports.SentTo(out, slot)
    ensures EndsWithNothing(Frames(RunTurns(m, t, turns).2, Deliveries, p, id))
  {
    LastReports.LastFramesSayNothingIsHeld(c, macros, slot0, now, before, since, at, bound, out, id);
    hide NoLeftover, Awaited, HeldOf, StartsAt, CalmRun, RunTurns, Frames, Le.FullyAttached, BoundThroughout, Fed, Of;
    hide RouterSpec.Start, RouterSpec.Run, Safety.WellFormed, HostViews.TidyRun, LastReports.OutSince, Decode;
    RoutedIsFed(m, t, turns, slot, p, id);
    CalmRunKeepsTheEnd(m, t, turns, p, id);
  }

  /** So it is from the start of the hub on, with the active slot's host. */
  lemma FromTheStart(c: RouterSpec.Config, macros: map<KeyCombo, nat>, slot: Slot, now: int,
                     since: seq<RouterSpec.Wake>, at: int, bound: set<nat>, out: seq<RouterSpec.Effect<HidFrame>>,
                     bindings: Bindings, links: set<Address>, answers: AdvAnswers, boot: int,
                     turns: seq<Turn>, p: Address, id: byte)
    requires SendsSince(c, RouterSpec.Start(c, macros, slot, now), [], since, at, bound, out, slot)
    requires var m := Boot(true, bindings, slot, links, answers, boot);
      m.ActiveHost() == Some(p) && CalmRun(m, NO_PEERS, turns, p, id) && RunTurns(m, NO_PEERS, turns).1.FullyAttached(p)
      && BoundThroughout(m, NO_PEERS, turns, slot, p) && Fed(turns, slot) == LastReports.SentTo(out, slot)
    ensures var m := Boot(true, bindings, slot, links, answers, boot);
      EndsWithNothing(Frames(RunTurns(m, NO_PEERS, turns).2, Deliveries, p, id))
  {
    BootAwaitsTheHost(bindings, slot, links, answers, boot, p, id);
    hide Boot, SendsSince, NoLeftover, Awaited, HeldOf, StartsAt, CalmRun, RunTurns, Le.FullyAttached;
    HostIsLeftWithNothingHeld(c, macros, slot, now, [], since, at, bound, out, slot,
                              Boot(true, bindings, slot, links, answers, boot), NO_PEERS, turns, p, id);
  }

  /**
   And from any switch to the host's slot on, if nothing for it was queued behind the switch; and, for
   the mouse, if no button was last sent to it as held, as when it is not connected.
  */
  lemma FromASwitch(c: RouterSpec.Config, macros: map<KeyCombo, nat>, slot0: nat, now: int,
                    before: seq<RouterSpec.Wake>, since: seq<RouterSpec.Wake>, at: int, bound: set<nat>,
                    out: seq<RouterSpec.Effect<HidFrame>>, m: Mgr, t: Le, turn: Turn,
                    turns: seq<Turn>, p: Address, id: byte)
    requires turn.SwitchTurn? && m.single && NoLeftover(m, t) && PeersAreSubscribed(t)
    requires SendsSince(c, RouterSpec.Start(c, macros, slot0, now), before, since, at, bound, out, turn.to)
    requires var (m1, t1, _) := TakeTurn(m, t, turn);
      m1.ActiveHost() == Some(p) && (id == REPORT_ID_MOUSE ==> t1.ButtonsSent(p) == 0)
      && CalmRun(m1, t1, turns, p, id) && RunTurns(m1, t1, turns).1.FullyAttached(p)
      && BoundThroughout(m1, t1, turns, turn.to, p) && Fed(turns, turn.to) == LastReports.SentTo(out, turn.to)
    ensures var (m1, t1, _) := TakeTurn(m, t, turn);
      EndsWithNothing(Frames(RunTurns(m1, t1, turns).2, Deliveries, p, id))
  {
    SwitchLosses.SwitchAwaitsTheHost(m, t, turn, p, id);
    TurnKeepsNoLeftover(m, t, turn);
    TurnKeepsSubscribed(m, t, turn);
    hide TakeTurn, SendsSince, NoLeftover, PeersAreSubscribed, Awaited, HeldOf, CalmRun, RunTurns, Le.FullyAttached,
      Le.ButtonsSent;
    var (m1, t1, _) := TakeTurn(m, t, turn);
    HostIsLeftWithNothingHeld(c, macros, slot0, now, before, since, at, bound, out, turn.to, m1, t1, turns, p, id);
  }
}
