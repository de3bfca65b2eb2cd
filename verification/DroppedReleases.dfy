/**
 Where holding frames back goes wrong. The wait drops a mouse frame as motion if it repeats the
 buttons of the last mouse frame held back; but frames that went to the host live in between are
 not counted. So when a host that got a button press live closes its mouse report during the wait,
 the release is compared with an older byte, and may be dropped for good.
*/
module DroppedReleases {
  import opened Wrappers
  import opened Slots
  import opened HidReports
  import opened Replay
  import opened Gatt
  import opened ManagerSpec
  import opened HeldFrames
  import opened Thinning
  import opened ReplayDelivery

  /** The byte the wait compares with: the buttons of the last mouse frame held back, none before the first. */
  function HeldBackButtons(log: Log, p: Address): bv8 {
    LastButtons(Frames(log, Pushes, p, REPORT_ID_MOUSE), 0)
  }

  predicate Tracks(m: Mgr, log: Log, p: Address) {
    m.pending.Some? && m.pending.value.addr == p ==> m.pending.value.buffer.lastButtons == HeldBackButtons(log, p)
  }

  /** The manager has just started to wait, or does not wait. */
  predicate JustArmed(m: Mgr) {
    m.pending.Some? ==> m.pending.value.buffer == EMPTY
  }

  predicate NoSwitch(m: Mgr, turns: seq<Turn>) {
    m.single ==> forall turn :: turn in turns ==> !turn.SwitchTurn?
  }

  /** If the manager still waits for the host, it did before, and compares with the same byte. */
  predicate SameWait(m: Mgr, m1: Mgr, p: Address) {
    m1.pending.Some? && m1.pending.value.addr == p ==>
      m.pending.Some? && m.pending.value.addr == p
      && m1.pending.value.buffer.lastButtons == m.pending.value.buffer.lastButtons
  }

  lemma NotPushing(m: Mgr, m1: Mgr, log: Log, more: Log, p: Address)
    requires Tracks(m, log, p) && Frames(more, Pushes, p, REPORT_ID_MOUSE) == []
    requires SameWait(m, m1, p)
    ensures Tracks(m1, log + more, p)
  {
    FramesConcat(log, more, Pushes, p, REPORT_ID_MOUSE);
    hide Frames, LastButtons;
    assert Frames(log, Pushes, p, REPORT_ID_MOUSE) + [] == Frames(log, Pushes, p, REPORT_ID_MOUSE);
  }

  /** A frame held back for the awaited host. */
  lemma HoldingTracks(m: Mgr, m1: Mgr, log: Log, e: Entry, p: Address)
    requires Tracks(m, log, p) && e.Routed? && e.fate != GivenNow
    requires m.pending.Some? && m.pending.value.addr == e.peer
    requires m1.pending == Some(m.pending.value.(buffer := Pushed(m.pending.value.buffer, e.frame).0))
    ensures Tracks(m1, log + [e], p)
  {
    FramesOne(e, Pushes, p, REPORT_ID_MOUSE);
    hide Frames, LastButtons, Lively;
    if e.peer == p && e.frame.Mouse? {
      FramesConcat(log, [e], Pushes, p, REPORT_ID_MOUSE);
      LastOfSnoc(Frames(log, Pushes, p, REPORT_ID_MOUSE), e.frame, 0);
    } else {
      NotPushing(m, m1, log, [e], p);
    }
  }

  lemma FrameTracks(m: Mgr, t: Le, slot: Slot, frame: HidFrame, outcome: TrySend, log: Log, p: Address)
    requires Tracks(m, log, p)
    ensures var (m1, _, more) := RouteFrame(m, t, slot, frame, outcome); Tracks(m1, log + more, p)
  {
    var (m1, _, more) := RouteFrame(m, t, slot, frame, outcome);
    hide SentTo, SendResult, Frames, Tracks, Pushed;
    if |more| == 1 {
      assert more == [more[0]];
      HoldingTracks(m, m1, log, more[0], p);
    } else {
      if |more| == 2 {
        FramesTwo(more[0], more[1], Pushes, p, REPORT_ID_MOUSE);
      } else {
        QuietShowsNothing(more, Pushes, p, REPORT_ID_MOUSE);
      }
      NotPushing(m, m1, log, more, p);
    }
  }

  lemma {:induction false} UnroutedIsNotPushed(log: Log, p: Address, id: byte)
    requires forall e :: e in log ==> !e.Routed?
    ensures Frames(log, Pushes, p, id) == []
  {
    if log != [] {
      assert log[|log| - 1] in log;
      UnroutedIsNotPushed(log[..|log| - 1], p, id);
    }
  }

  lemma ReplayKeepsTheByte(m: Mgr, t: Le, peer: Address, id: byte, outcomes: seq<TrySend>, p: Address)
    ensures SameWait(m, OnSubscribed(m, t, peer, id, outcomes).0, p)
  {
    hide SendEach, Of, Without, Le.FullyAttached, Le.IsSubscribed;
  }

  lemma SubscribeTurnRoutesNothing(m: Mgr, t: Le, turn: Turn)
    requires turn.SubscribeTurn?
    ensures forall e :: e in OnSubscribeTurn(m, t, turn).2 ==> !e.Routed?
  {
    hide OnIncomingPeer, OnSubscribed, Subscribed, OnlyPairingDiffers;
  }

  lemma SubscribeTurnKeepsTheByte(m: Mgr, t: Le, turn: Turn, p: Address)
    requires turn.SubscribeTurn?
    ensures var m1 := OnSubscribeTurn(m, t, turn).0; SameWait(m, m1, p) && m1.single == m.single
  {
    var (t1, first) := Subscribed(t, turn.peer, turn.id);
    hide OnIncomingPeer, OnSubscribed, Subscribed, OnlyPairingDiffers;
    var (m2, t2, told) :=
      if first then OnIncomingPeer(m, t1, turn.peer, turn.bonded, turn.links, turn.adv, turn.at) else (m, t1, []);
    IncomingKeepsThePlan(m, t1, turn);
    ReplayKeepsTheByte(m2, t2, turn.peer, turn.id, turn.outcomes, p);
  }

  lemma IncomingKeepsThePlan(m: Mgr, t: Le, turn: Turn)
    requires turn.SubscribeTurn?
    ensures var m1 := OnIncomingPeer(m, t, turn.peer, turn.bonded, turn.links, turn.adv, turn.at).0;
      m1.pending == m.pending && m1.single == m.single
  {
    hide OnIncomingPeer;
  }

  lemma TurnTracks(m: Mgr, t: Le, turn: Turn, log: Log, p: Address)
    requires Tracks(m, log, p) && (turn.SwitchTurn? ==> !m.single)
    ensures var (m1, _, more) := TakeTurn(m, t, turn); Tracks(m1, log + more, p) && m1.single == m.single
  {
    hide Tracks, RouteFrame, OnSubscribeTurn, Tick, SubForgotten, OpenWindow, RepairSlot, Frames;
    var (m1, _, more) := TakeTurn(m, t, turn);
    match turn {
      case FrameTurn(slot, frame, outcome, _) => FrameTracks(m, t, slot, frame, outcome, log, p);
      case SubscribeTurn(_, _, _, _, _, _, _) =>
        SubscribeTurnRoutesNothing(m, t, turn);
        SubscribeTurnKeepsTheByte(m, t, turn, p);
        UnroutedIsNotPushed(more, p, REPORT_ID_MOUSE);
        NotPushing(m, m1, log, more, p);
      case TickTurn(answers, at) =>
        TickIsQuiet(m, t, answers, at);
        TickKeepsSingle(m, t, answers, at);
        UnroutedIsNotPushed(more, p, REPORT_ID_MOUSE);
        NotPushing(m, m1, log, more, p);
      case _ =>
        UnroutedIsNotPushed(more, p, REPORT_ID_MOUSE);
        NotPushing(m, m1, log, more, p);
    }
  }

  lemma TickKeepsSingle(m: Mgr, t: Le, answers: TickAnswers, now: int)
    ensures Tick(m, t, answers, now).0.single == m.single
  {
    hide PollWindow, PollUninvited, ApplyAdvertising, PollStuckHosts, ToldFrom, ConnectedHosts;
  }

  /** Over any run without a switch from the moment the wait starts, whatever else happens. */
  lemma {:induction false} WaitComparesWithTheHeldBack(m: Mgr, t: Le, turns: seq<Turn>, p: Address)
    requires JustArmed(m) && NoSwitch(m, turns)
    ensures var (m1, _, log) := RunTurns(m, t, turns); Tracks(m1, log, p) && m1.single == m.single
  {
    hide TakeTurn;
    if turns == [] {
      assert HeldBackButtons([], p) == 0;
    } else {
      var before, last := turns[..|turns| - 1], turns[|turns| - 1];
      assert last in turns;
      WaitComparesWithTheHeldBack(m, t, before, p);
      var (m1, t1, log) := RunTurns(m, t, before);
      TurnTracks(m1, t1, last, log, p);
    }
  }

  // ---- The condition ---------------------------------------------------------------------

  /** The frame changes the buttons, but not compared with the last frame held back. */
  predicate Misjudged(log: Log, frame: HidFrame, p: Address, before: bv8) {
    frame.Mouse? && frame.buttons == HeldBackButtons(log, p)
    && frame.buttons != LastButtons(Frames(log, Routings, p, REPORT_ID_MOUSE), before)
  }

  /** A thinned sequence cannot spare a frame that changes the buttons. */
  lemma ChangesAreNotSpared(thin: seq<HidFrame>, full: seq<HidFrame>, f: HidFrame, before: bv8)
    requires Thins(thin, full, before) && f.Mouse? && f.buttons != LastButtons(full, before)
    ensures !Thins(thin, full + [f], before)
  {
    ThinningKeepsButtons(thin, full, before);
    LastOfSnoc(full, f, before);
    if Thins(thin, full + [f], before) {
      ThinningKeepsButtons(thin, full + [f], before);
    }
  }

  /**
   In any run without a switch from the start of the wait, as long as nothing was lost so far: a
   mouse frame routed while the host has not enabled the mouse report is lost if and only if its
   buttons are those of the last frame held back (none before the first) and differ from those of
   the last frame routed to the host. (A full buffer that takes the frame loses its oldest instead.)
  */
  lemma ChangeIsDroppedExactlyWhen(m: Mgr, t: Le, turns: seq<Turn>, slot: Slot, frame: HidFrame, outcome: TrySend,
                                   p: Address, before: bv8)
    requires JustArmed(m) && NoSwitch(m, turns) && frame.Mouse?
    requires var (m1, t1, log) := RunTurns(m, t, turns);
      slot in m1.bindings && m1.bindings[slot] == p && Waits(m1, t1, p, REPORT_ID_MOUSE)
      && (|m1.pending.value.buffer.frames| < CAPACITY || frame.buttons == HeldBackButtons(log, p))
      && Thins(Frames(log, Deliveries, p, REPORT_ID_MOUSE) + HeldOf(m1, p, REPORT_ID_MOUSE),
               Frames(log, Routings, p, REPORT_ID_MOUSE), before)
    ensures var (m1, t1, log) := RunTurns(m, t, turns);
      var (m2, _, more) := RouteFrame(m1, t1, slot, frame, outcome);
      Thins(Frames(log + more, Deliveries, p, REPORT_ID_MOUSE) + HeldOf(m2, p, REPORT_ID_MOUSE),
            Frames(log + more, Routings, p, REPORT_ID_MOUSE), before)
      <==> !Misjudged(log, frame, p, before)
  {
    WaitComparesWithTheHeldBack(m, t, turns, p);
    var (m1, t1, log) := RunTurns(m, t, turns);
    PushedChange(m1, t1, log, slot, frame, outcome, p, before);
  }

  lemma PushedChange(m: Mgr, t: Le, log: Log, slot: Slot, frame: HidFrame, outcome: TrySend, p: Address, before: bv8)
    requires slot in m.bindings && m.bindings[slot] == p && Waits(m, t, p, REPORT_ID_MOUSE) && frame.Mouse?
    requires |m.pending.value.buffer.frames| < CAPACITY || frame.buttons == HeldBackButtons(log, p)
    requires Tracks(m, log, p)
    requires Thins(Frames(log, Deliveries, p, REPORT_ID_MOUSE) + HeldOf(m, p, REPORT_ID_MOUSE),
                   Frames(log, Routings, p, REPORT_ID_MOUSE), before)
    ensures var (m1, _, more) := RouteFrame(m, t, slot, frame, outcome);
      Thins(Frames(log + more, Deliveries, p, REPORT_ID_MOUSE) + HeldOf(m1, p, REPORT_ID_MOUSE),
            Frames(log + more, Routings, p, REPORT_ID_MOUSE), before)
      <==> !Misjudged(log, frame, p, before)
  {
    var id := REPORT_ID_MOUSE;
    var routed, delivered, held := Frames(log, Routings, p, id), Frames(log, Deliveries, p, id), HeldOf(m, p, id);
    var (m1, _, more) := RouteFrame(m, t, slot, frame, outcome);
    hide Frames, HeldOf, Thins, LastButtons, SentTo, SendResult;
    FramesAfterHolding(log, more[0]);
    HeldAfterHolding(m, m1, frame, p);
    assert more == [more[0]];
    hide RouteFrame, Pushed;
    if IsMotionOnly(frame, m.pending.value.buffer.lastButtons) {
      assert held + [] == held;
      MotionIsSparedExactlyWhen(delivered + held, routed, frame, before);
    } else {
      ThinsKeeping(delivered + held, routed, frame, before);
      assert delivered + held + [frame] == delivered + (held + [frame]);
    }
  }

  lemma MotionIsSparedExactlyWhen(thin: seq<HidFrame>, full: seq<HidFrame>, f: HidFrame, before: bv8)
    requires Thins(thin, full, before) && f.Mouse?
    ensures Thins(thin, full + [f], before) <==> f.buttons == LastButtons(full, before)
  {
    hide Thins, LastButtons;
    if f.buttons == LastButtons(full, before) {
      ThinsSkipping(thin, full, f, before);
    } else {
      ChangesAreNotSpared(thin, full, f, before);
    }
  }

  // ---- A run -----------------------------------------------------------------------------

  const PRESS := Mouse(1, 0, 0, 0)
  const RELEASE := Mouse(0, 0, 0, 0)

  /** Host 7 of slot 2 is awaited, nothing is held for it, and it has enabled these reports. */
  predicate Stage(m: Mgr, t: Le, subs: map<byte, nat>, buttons: bv8, next: nat) {
    m.single && m.bindings == map[2 := 7] && m.active == 2
    && m.pending.Some? && m.pending.value.addr == 7
    && m.pending.value.buffer.frames == [] && m.pending.value.buffer.lastButtons == 0
    && t == Le(if subs == map[] then map[] else map[7 := Peer(subs, buttons)], next)
  }

  function Enables(id: byte): Turn {
    SubscribeTurn(7, id, true, {7}, AdvAnswers(true, None), [], 0)
  }

  function Routes(frame: HidFrame): Turn {
    FrameTurn(2, frame, Accepted, 0)
  }

  /** Nothing is held, so nothing is replayed. */
  lemma NothingToReplay(m: Mgr, t: Le, id: byte)
    requires m.pending.Some? && m.pending.value.addr == 7 && m.pending.value.buffer.frames == []
    requires t.IsSubscribed(7, id)
    ensures OnSubscribed(m, t, 7, id, []) == (if t.FullyAttached(7) then m.(pending := None) else m, t, [])
  {
    hide Le.FullyAttached;
    assert Of([], id) == [] && Without([], id) == [];
  }

  lemma OneMoreReport(m: Mgr, t: Le, subs: map<byte, nat>, buttons: bv8, next: nat, id: byte)
    requires Stage(m, t, subs, buttons, next) && (subs == map[] ==> buttons == 0)
    ensures Subscribed(t, 7, id) == (Le(map[7 := Peer(subs[id := next], buttons)], next + 1), subs == map[])
  {
    assert Subscribed(t, 7, id).0.peers == map[7 := Peer(subs[id := next], buttons)];
  }

  lemma HostEnables(m: Mgr, t: Le, subs: map<byte, nat>, buttons: bv8, next: nat, id: byte)
    requires Stage(m, t, subs, buttons, next) && (subs == map[] ==> buttons == 0)
    ensures var (m1, t1, more) := TakeTurn(m, t, Enables(id));
      more == [] && t1 == Le(map[7 := Peer(subs[id := next], buttons)], next + 1)
      && if t1.FullyAttached(7) then m1 == m.(pending := None) else Stage(m1, t1, subs[id := next], buttons, next + 1)
  {
    hide Le.FullyAttached;
    var t1 := Le(map[7 := Peer(subs[id := next], buttons)], next + 1);
    OneMoreReport(m, t, subs, buttons, next, id);
    assert SlotOf(m.bindings, 7) == Some(2);
    hide SlotOf, Subscribed;
    assert OnIncomingPeer(m, t1, 7, true, {7}, AdvAnswers(true, None), 0) == (m, t1, []);
    NothingToReplay(m, t1, id);
    hide OnSubscribed, OnIncomingPeer;
  }

  lemma PressArrives(m: Mgr, t: Le, subs: map<byte, nat>, next: nat)
    requires Stage(m, t, subs, 0, next) && REPORT_ID_MOUSE in subs
    ensures var (m1, t1, more) := TakeTurn(m, t, Routes(PRESS));
      more == [Routed(7, PRESS, GivenNow), Given(7, PRESS, Delivered)] && Stage(m1, t1, subs, 1, next)
  {
  }

  lemma MouseCloses(m: Mgr, t: Le, g: nat, next: nat)
    requires Stage(m, t, map[REPORT_ID_KEYBOARD := 0, REPORT_ID_MOUSE := g], 1, next)
    ensures var (m1, t1, more) := TakeTurn(m, t, CloseTurn(7, REPORT_ID_MOUSE, g, 0));
      more == [] && Stage(m1, t1, map[REPORT_ID_KEYBOARD := 0], 1, next)
  {
    assert map[REPORT_ID_KEYBOARD := 0, REPORT_ID_MOUSE := g] - {REPORT_ID_MOUSE} == map[REPORT_ID_KEYBOARD := 0];
  }

  lemma ReleaseIsDropped(m: Mgr, t: Le, next: nat)
    requires Stage(m, t, map[REPORT_ID_KEYBOARD := 0], 1, next)
    ensures var (m1, t1, more) := TakeTurn(m, t, Routes(RELEASE));
      more == [Routed(7, RELEASE, DroppedAsMotion)] && Stage(m1, t1, map[REPORT_ID_KEYBOARD := 0], 1, next)
  {
  }

  lemma OneMore(m: Mgr, t: Le, turns: seq<Turn>, turn: Turn)
    ensures var (m1, t1, log) := RunTurns(m, t, turns);
      var (m2, t2, more) := TakeTurn(m1, t1, turn);
      RunTurns(m, t, turns + [turn]) == (m2, t2, log + more)
  {
    assert (turns + [turn])[..|turns|] == turns;
  }

  const UNTIL_PRESS: seq<Turn> := [] + [Enables(REPORT_ID_KEYBOARD)] + [Enables(REPORT_ID_MOUSE)] + [Routes(PRESS)]
  const UNTIL_RELEASE: seq<Turn> := UNTIL_PRESS + [CloseTurn(7, REPORT_ID_MOUSE, 1, 0)] + [Routes(RELEASE)]
  const STUCK_RUN: seq<Turn> := UNTIL_RELEASE + [Enables(REPORT_ID_MOUSE)] + [Enables(REPORT_ID_CONSUMER)]

  const KEYS_ONLY: map<byte, nat> := map[REPORT_ID_KEYBOARD := 0]

  lemma NotAttachedWithout(t: Le, id: byte)
    requires id in INPUT_REPORT_IDS && !t.IsSubscribed(7, id)
    ensures !t.FullyAttached(7)
  {
  }

  lemma PressGoesOutLive(m: Mgr)
    requires Stage(m, NO_PEERS, map[], 0, 0)
    ensures var (m1, t1, log) := RunTurns(m, NO_PEERS, UNTIL_PRESS);
      Stage(m1, t1, KEYS_ONLY[REPORT_ID_MOUSE := 1], 1, 2)
      && log == [Routed(7, PRESS, GivenNow), Given(7, PRESS, Delivered)]
  {
    hide TakeTurn, Stage, Le.FullyAttached;
    EveryFrameHasAnInputReport(Consumer(0, 0));
    OneMore(m, NO_PEERS, [], Enables(REPORT_ID_KEYBOARD));
    HostEnables(m, NO_PEERS, map[], 0, 0, REPORT_ID_KEYBOARD);
    var (m1, t1, log1) := RunTurns(m, NO_PEERS, [] + [Enables(REPORT_ID_KEYBOARD)]);
    NotAttachedWithout(t1, REPORT_ID_CONSUMER);
    OneMore(m, NO_PEERS, [] + [Enables(REPORT_ID_KEYBOARD)], Enables(REPORT_ID_MOUSE));
    HostEnables(m1, t1, KEYS_ONLY, 0, 1, REPORT_ID_MOUSE);
    var (m2, t2, log2) := RunTurns(m, NO_PEERS, [] + [Enables(REPORT_ID_KEYBOARD)] + [Enables(REPORT_ID_MOUSE)]);
    NotAttachedWithout(t2, REPORT_ID_CONSUMER);
    OneMore(m, NO_PEERS, [] + [Enables(REPORT_ID_KEYBOARD)] + [Enables(REPORT_ID_MOUSE)], Routes(PRESS));
    PressArrives(m2, t2, KEYS_ONLY[REPORT_ID_MOUSE := 1], 2);
  }

  lemma ReleaseComesWhileClosed(m: Mgr)
    requires Stage(m, NO_PEERS, map[], 0, 0)
    ensures var (m1, t1, log) := RunTurns(m, NO_PEERS, UNTIL_RELEASE);
      Stage(m1, t1, KEYS_ONLY, 1, 2)
      && log == [Routed(7, PRESS, GivenNow), Given(7, PRESS, Delivered), Routed(7, RELEASE, DroppedAsMotion)]
  {
    hide TakeTurn, Stage;
    PressGoesOutLive(m);
    var (m1, t1, _) := RunTurns(m, NO_PEERS, UNTIL_PRESS);
    OneMore(m, NO_PEERS, UNTIL_PRESS, CloseTurn(7, REPORT_ID_MOUSE, 1, 0));
    assert KEYS_ONLY[REPORT_ID_MOUSE := 1] == map[REPORT_ID_KEYBOARD := 0, REPORT_ID_MOUSE := 1];
    MouseCloses(m1, t1, 1, 2);
    var (m2, t2, _) := RunTurns(m, NO_PEERS, UNTIL_PRESS + [CloseTurn(7, REPORT_ID_MOUSE, 1, 0)]);
    OneMore(m, NO_PEERS, UNTIL_PRESS + [CloseTurn(7, REPORT_ID_MOUSE, 1, 0)], Routes(RELEASE));
    ReleaseIsDropped(m2, t2, 2);
  }

  /**
   A host connects, gets a press live, closes its mouse report and enables it again, all while it is
   awaited. The release that came in between is gone: the host ends up attached, with nothing held
   for it, and has got the press but not the release.
  */
  lemma ReleaseIsLostForGood(answers: AdvAnswers)
    ensures var (m, t, log) := RunTurns(Boot(true, map[2 := 7], 2, {}, answers, 0), NO_PEERS, STUCK_RUN);
      t.FullyAttached(7) && HeldOf(m, 7, REPORT_ID_MOUSE) == []
      && log == [Routed(7, PRESS, GivenNow), Given(7, PRESS, Delivered), Routed(7, RELEASE, DroppedAsMotion)]
  {
    var m0 := Boot(true, map[2 := 7], 2, {}, answers, 0);
    assert Stage(m0, NO_PEERS, map[], 0, 0) by { EveryFrameHasAnInputReport(RELEASE); }
    hide TakeTurn, Stage, Boot, Le.FullyAttached;
    EveryFrameHasAnInputReport(Consumer(0, 0));
    ReleaseComesWhileClosed(m0);
    var (m1, t1, log1) := RunTurns(m0, NO_PEERS, UNTIL_RELEASE);
    OneMore(m0, NO_PEERS, UNTIL_RELEASE, Enables(REPORT_ID_MOUSE));
    HostEnables(m1, t1, KEYS_ONLY, 1, 2, REPORT_ID_MOUSE);
    var (m2, t2, log2) := RunTurns(m0, NO_PEERS, UNTIL_RELEASE + [Enables(REPORT_ID_MOUSE)]);
    NotAttachedWithout(t2, REPORT_ID_CONSUMER);
    OneMore(m0, NO_PEERS, UNTIL_RELEASE + [Enables(REPORT_ID_MOUSE)], Enables(REPORT_ID_CONSUMER));
    HostEnables(m2, t2, KEYS_ONLY[REPORT_ID_MOUSE := 2], 1, 3, REPORT_ID_CONSUMER);
    AllThreeAttach(KEYS_ONLY[REPORT_ID_MOUSE := 2], 1, 3);
  }

  lemma AllThreeAttach(subs: map<byte, nat>, buttons: bv8, next: nat)
    requires REPORT_ID_KEYBOARD in subs && REPORT_ID_MOUSE in subs
    ensures Le(map[7 := Peer(subs[REPORT_ID_CONSUMER := next], buttons)], next + 1).FullyAttached(7)
  {
  }
}
