/**
 What a host gets after a slot switch. While the wait is calm (no second switch, no send of the
 report to the host fails, none of its held frames is evicted, the wait does not time out, and no
 subscription of the host ends that matters to the report), every frame routed to it is delivered
 or still held, in order, except frames that only move the pointer. A busy link is calm: it
 delivers keys late and swallows motion. So is a kick, which finds no subscription to end; and for
 keys anything that ends subscriptions of the host while it is waited for.
*/
module ReplayDelivery {
  import opened Wrappers
  import opened Slots
  import opened HidReports
  import opened Replay
  import opened Gatt
  import opened ManagerSpec
  import opened HeldFrames
  import opened Thinning
  import StuckHosts

  predicate WaitsFor(m: Mgr, p: Address) {
    m.pending.Some? && m.pending.value.addr == p
  }

  /** Either frames are held for the host, or it has enabled every report. */
  predicate Awaited(m: Mgr, t: Le, p: Address) {
    WaitsFor(m, p) || t.FullyAttached(p)
  }

  // ---- Calm runs -------------------------------------------------------------------------

  predicate NoSendFails(log: Log, p: Address, id: byte) {
    forall e :: e in log && e.Given? && e.peer == p && e.frame.ReportId() == id ==> !e.result.Failed?
  }

  /** If a frame is held at the cost of the oldest one, that is a frame of another report. */
  predicate NothingEvicted(m: Mgr, log: Log, p: Address, id: byte) {
    forall e :: e in log && e.Routed? && e.peer == p && e.fate == HeldEvicting && WaitsFor(m, p) ==>
      m.pending.value.buffer.frames != [] ==> m.pending.value.buffer.frames[0].ReportId() != id
  }

  /** No subscription of the host ends. */
  ghost predicate KeepsSubs(t: Le, t1: Le, p: Address) {
    forall id: byte :: t.IsSubscribed(p, id) ==> t1.IsSubscribed(p, id)
  }

  /** The bytes that mouse frames are compared with stay, and agree if frames are now to be held back. */
  predicate SparesTheMouse(m: Mgr, t: Le, t1: Le, p: Address) {
    t1.ButtonsSent(p) == t.ButtonsSent(p)
    && (WaitsFor(m, p) && t.IsSubscribed(p, REPORT_ID_MOUSE) && !t1.IsSubscribed(p, REPORT_ID_MOUSE) ==>
          m.pending.value.buffer.lastButtons == t.ButtonsSent(p))
  }

  /** A subscription of the host may end only while it is waited for; for the mouse, only if that spares the mouse. */
  ghost predicate Undisturbed(m: Mgr, t: Le, t1: Le, p: Address, id: byte) {
    KeepsSubs(t, t1, p) || (WaitsFor(m, p) && (id == REPORT_ID_MOUSE ==> SparesTheMouse(m, t, t1, p)))
  }

  /** Nothing in the turn keeps a frame of this report from the host. */
  ghost predicate Calm(m: Mgr, t: Le, turn: Turn, p: Address, id: byte) {
    var (_, t1, log) := TakeTurn(m, t, turn);
    NoSendFails(log, p, id) && NothingEvicted(m, log, p, id) && Undisturbed(m, t, t1, p, id)
    && match turn
       case SwitchTurn(_, _, _, _, _) => !m.single
       case SubscribeTurn(_, report, _, _, _, _, _) => report in INPUT_REPORT_IDS
       case TickTurn(_, at) => WaitsFor(m, p) ==> at - m.pending.value.since < REPLAY_WINDOW
       case _ => true
  }

  ghost predicate CalmRun(m: Mgr, t: Le, turns: seq<Turn>, p: Address, id: byte) {
    turns == [] ||
    var before := turns[..|turns| - 1];
    var (m1, t1, log) := RunTurns(m, t, before);
    CalmRun(m, t, before, p, id) && Calm(m1, t1, turns[|turns| - 1], p, id)
  }

  // ---- What stays true -------------------------------------------------------------------

  /** Frames of this report are being held for the host. */
  predicate Waits(m: Mgr, t: Le, p: Address, id: byte) {
    m.pending.Some? && m.pending.value.addr == p && !t.IsSubscribed(p, id)
  }

  /**
   Delivered plus held says no less than what was routed; and the bytes that mouse frames are
   compared with, in the buffer and at the transport, are in step with it.
  */
  predicate Kept(m: Mgr, t: Le, log: Log, p: Address, id: byte, before: bv8) {
    var routed, held := Frames(log, Routings, p, id), HeldOf(m, p, id);
    && Thins(Frames(log, Deliveries, p, id) + held, routed, before)
    && (id == REPORT_ID_MOUSE ==> InStep(m, t, p, held, LastButtons(routed, before)))
  }

  predicate InStep(m: Mgr, t: Le, p: Address, held: seq<HidFrame>, last: bv8) {
    && Lively(held, t.ButtonsSent(p))
    && LastButtons(held, t.ButtonsSent(p)) == last
    && (Waits(m, t, p, REPORT_ID_MOUSE) ==> m.pending.value.buffer.lastButtons == last)
  }

  /** No entry routes or hands over a frame of this host and report. */
  predicate Mute(log: Log, p: Address, id: byte) {
    forall e :: e in log && (e.Routed? || e.Given?) ==> e.peer != p || e.frame.ReportId() != id
  }

  lemma {:induction false} MuteShowsNothing(log: Log, v: View, p: Address, id: byte)
    requires Mute(log, p, id)
    ensures Frames(log, v, p, id) == []
  {
    if log != [] {
      assert log[|log| - 1] in log;
      MuteShowsNothing(log[..|log| - 1], v, p, id);
    }
  }

  lemma MuteKeeps(m: Mgr, t: Le, m1: Mgr, t1: Le, log: Log, more: Log, p: Address, id: byte, before: bv8)
    requires Kept(m, t, log, p, id, before) && Mute(more, p, id)
    requires HeldOf(m1, p, id) == HeldOf(m, p, id)
    requires id == REPORT_ID_MOUSE ==> t1.ButtonsSent(p) == t.ButtonsSent(p)
    requires id == REPORT_ID_MOUSE && Waits(m1, t1, p, id) ==> StillCompares(m, t, m1, p)
    ensures Kept(m1, t1, log + more, p, id, before)
  {
    MuteShowsNothing(more, Deliveries, p, id);
    MuteShowsNothing(more, Routings, p, id);
    FramesConcat(log, more, Deliveries, p, id);
    FramesConcat(log, more, Routings, p, id);
    NothingIsInStep(t.ButtonsSent(p));
    hide Frames, HeldOf, Thins, LastButtons, Lively, Waits, Mute, Le.ButtonsSent;
    assert Frames(log, Deliveries, p, id) + [] == Frames(log, Deliveries, p, id);
    assert Frames(log, Routings, p, id) + [] == Frames(log, Routings, p, id);
  }

  /** The byte that mouse frames to hold are compared with stays, and was in use before or is the one last sent. */
  predicate StillCompares(m: Mgr, t: Le, m1: Mgr, p: Address) {
    WaitsFor(m, p) && WaitsFor(m1, p) && m1.pending.value.buffer.lastButtons == m.pending.value.buffer.lastButtons
    && (Waits(m, t, p, REPORT_ID_MOUSE)
        || (HeldOf(m, p, REPORT_ID_MOUSE) == [] && m.pending.value.buffer.lastButtons == t.ButtonsSent(p)))
  }

  lemma NothingIsInStep(last: bv8)
    ensures Lively([], last) && LastButtons([], last) == last
  {
  }

  /** The transport knows the same of this host. */
  predicate SamePeer(t: Le, t1: Le, p: Address) {
    (p in t1.peers <==> p in t.peers) && (p in t.peers ==> t1.peers[p] == t.peers[p])
  }

  /** If the transport still knows the host, it remembers the same button byte. */
  predicate Remembers(t: Le, t1: Le, p: Address) {
    p in t1.peers ==> t1.peers[p].lastButtons == t.ButtonsSent(p)
  }

  /** The wait for this host, if any, goes on as it was. */
  predicate SameWait(m: Mgr, m1: Mgr, p: Address) {
    if WaitsFor(m, p) then m1.pending == m.pending else !WaitsFor(m1, p)
  }

  lemma ByteIsKept(t: Le, t1: Le, p: Address)
    requires PeersAreSubscribed(t) && KeepsSubs(t, t1, p) && Remembers(t, t1, p)
    ensures t1.ButtonsSent(p) == t.ButtonsSent(p)
  {
    if p in t.peers {
      var id :| id in t.peers[p].subs;
      assert t.IsSubscribed(p, id);
    }
  }

  /** A turn that neither routes nor hands over a frame of this report, and leaves what is held of it. */
  lemma PassingByKeeps(m: Mgr, t: Le, m1: Mgr, t1: Le, log: Log, more: Log, p: Address, id: byte, before: bv8)
    requires NoLeftover(m, t) && PeersAreSubscribed(t) && Kept(m, t, log, p, id, before)
    requires Mute(more, p, id) && Undisturbed(m, t, t1, p, id) && (id == REPORT_ID_MOUSE ==> Remembers(t, t1, p))
    requires HeldOf(m1, p, id) == HeldOf(m, p, id)
    requires WaitsFor(m1, p) ==>
      WaitsFor(m, p) && m1.pending.value.buffer.lastButtons == m.pending.value.buffer.lastButtons
    ensures Kept(m1, t1, log + more, p, id, before)
  {
    hide Kept, Mute, Of;
    if id == REPORT_ID_MOUSE {
      EveryFrameHasAnInputReport(Mouse(0, 0, 0, 0));
      if KeepsSubs(t, t1, p) {
        ByteIsKept(t, t1, p);
      }
      hide Le.ButtonsSent;
    }
    MuteKeeps(m, t, m1, t1, log, more, p, id, before);
  }

  lemma UndisturbedAwaits(m: Mgr, t: Le, m1: Mgr, t1: Le, p: Address, id: byte)
    requires Awaited(m, t, p) && Undisturbed(m, t, t1, p, id)
    requires WaitsFor(m, p) ==> WaitsFor(m1, p) || t1.FullyAttached(p)
    ensures Awaited(m1, t1, p)
  {
  }

  lemma SameWaitHolds(m: Mgr, m1: Mgr, p: Address, id: byte)
    requires SameWait(m, m1, p)
    ensures HeldOf(m1, p, id) == HeldOf(m, p, id)
  {
    hide Of;
  }

  // ---- Routing a frame -------------------------------------------------------------------

  lemma SendElsewhere(t: Le, peer: Address, frame: HidFrame, outcome: TrySend, p: Address)
    requires peer != p
    ensures SamePeer(t, SentTo(t, peer, frame, outcome), p)
  {
  }

  /** A send that does not fail ends no subscription, and moves the byte compared with along. */
  lemma SendThatDoesNotFail(t: Le, p: Address, frame: HidFrame, outcome: TrySend, id: byte)
    requires !SendResult(t, p, frame, outcome).Failed?
    ensures var t1 := SentTo(t, p, frame, outcome);
      (t1.IsSubscribed(p, id) <==> t.IsSubscribed(p, id))
      && t1.ButtonsSent(p) ==
         if t.IsSubscribed(p, frame.ReportId()) then ButtonsAfter(frame, t.ButtonsSent(p)) else t.ButtonsSent(p)
  {
  }

  lemma AwaitedNotHeld(m: Mgr, t: Le, peer: Address, frame: HidFrame)
    requires NoLeftover(m, t) && Awaited(m, t, peer) && !Waits(m, t, peer, frame.ReportId())
    ensures t.IsSubscribed(peer, frame.ReportId()) && HeldOf(m, peer, frame.ReportId()) == []
  {
    hide Of;
    EveryFrameHasAnInputReport(frame);
  }

  lemma FramesAfterGiving(log: Log, p: Address, frame: HidFrame, result: Sent)
    ensures var all, id := log + [Routed(p, frame, GivenNow), Given(p, frame, result)], frame.ReportId();
      Frames(all, Routings, p, id) == Frames(log, Routings, p, id) + [frame]
      && Frames(all, Deliveries, p, id) == Frames(log, Deliveries, p, id) + if result.Delivered? then [frame] else []
  {
    var e, f, id := Routed(p, frame, GivenNow), Given(p, frame, result), frame.ReportId();
    FramesTwo(e, f, Deliveries, p, id);
    FramesTwo(e, f, Routings, p, id);
    FramesConcat(log, [e, f], Deliveries, p, id);
    FramesConcat(log, [e, f], Routings, p, id);
    hide Frames;
  }

  /** Handing a frame to an enabled report: delivered, or swallowed because it only moves the pointer. */
  lemma GivingKeeps(m: Mgr, t: Le, log: Log, frame: HidFrame, outcome: TrySend, p: Address, before: bv8)
    requires Kept(m, t, log, p, frame.ReportId(), before) && HeldOf(m, p, frame.ReportId()) == []
    requires t.IsSubscribed(p, frame.ReportId()) && !SendResult(t, p, frame, outcome).Failed?
    ensures Kept(m, SentTo(t, p, frame, outcome),
                 log + [Routed(p, frame, GivenNow), Given(p, frame, SendResult(t, p, frame, outcome))],
                 p, frame.ReportId(), before)
  {
    var id := frame.ReportId();
    var routed, delivered := Frames(log, Routings, p, id), Frames(log, Deliveries, p, id);
    var sent := t.ButtonsSent(p);
    FramesAfterGiving(log, p, frame, SendResult(t, p, frame, outcome));
    SendThatDoesNotFail(t, p, frame, outcome, id);
    LastOfSnoc(routed, frame, before);
    NothingIsInStep(sent);
    NothingIsInStep(ButtonsAfter(frame, sent));
    hide Frames, HeldOf, SentTo, SendResult, Thins, LastButtons, Lively, Le.ButtonsSent;
    assert delivered + [] == delivered && delivered + [frame] + [] == delivered + [frame];
    if SendResult(t, p, frame, outcome).Swallowed? {
      ThinsSkipping(delivered, routed, frame, before);
    } else {
      ThinsKeeping(delivered, routed, frame, before);
    }
  }

  /** A send of another report leaves the mouse's byte alone, even if it fails. */
  lemma SendRemembers(t: Le, peer: Address, frame: HidFrame, outcome: TrySend, p: Address)
    requires peer != p || !frame.Mouse?
    ensures var t1 := SentTo(t, peer, frame, outcome); Remembers(t, t1, p) && (p in t1.peers ==> p in t.peers)
  {
  }

  lemma PushedFrames(b: Buffer, frame: HidFrame, id: byte)
    requires Pushed(b, frame).1 == Evicted ==> b.frames[0].ReportId() != id
    ensures Of(Pushed(b, frame).0.frames, id) ==
      Of(b.frames, id) + if Pushed(b, frame).1 != DroppedMotion && frame.ReportId() == id then [frame] else []
  {
    if Pushed(b, frame).1 == Evicted {
      assert Of(b.frames[1..], id) == Of(b.frames, id);
      hide Of;
      OfSnoc(b.frames[1..], frame, id);
    } else {
      hide Of;
      OfSnoc(b.frames, frame, id);
    }
  }

  lemma FramesAfterHolding(log: Log, e: Entry)
    requires e.Routed?
    ensures var id := e.frame.ReportId();
      Frames(log + [e], Routings, e.peer, id) == Frames(log, Routings, e.peer, id) + [e.frame]
      && Frames(log + [e], Deliveries, e.peer, id) == Frames(log, Deliveries, e.peer, id)
  {
    var id := e.frame.ReportId();
    FramesOne(e, Deliveries, e.peer, id);
    FramesOne(e, Routings, e.peer, id);
    FramesConcat(log, [e], Deliveries, e.peer, id);
    FramesConcat(log, [e], Routings, e.peer, id);
    hide Frames;
  }

  /** The held frame costs no other frame of this report. */
  predicate Fits(m: Mgr, frame: HidFrame, id: byte) {
    m.pending.Some?
    && var b := m.pending.value.buffer; Pushed(b, frame).1 == Evicted ==> b.frames[0].ReportId() != id
  }

  lemma HeldAfterHolding(m: Mgr, m1: Mgr, frame: HidFrame, p: Address)
    requires WaitsFor(m, p) && Fits(m, frame, frame.ReportId())
    requires m1.pending == Some(m.pending.value.(buffer := Pushed(m.pending.value.buffer, frame).0))
    ensures var id, motion := frame.ReportId(), IsMotionOnly(frame, m.pending.value.buffer.lastButtons);
      HeldOf(m1, p, id) == HeldOf(m, p, id) + (if motion then [] else [frame])
      && (frame.Mouse? ==> m1.pending.value.buffer.lastButtons == frame.buttons)
  {
    PushedFrames(m.pending.value.buffer, frame, frame.ReportId());
    hide Of;
  }

  /** Holding a frame: queued at the end, or left out because it only moves the pointer. */
  lemma HoldingKeeps(m: Mgr, m1: Mgr, t: Le, log: Log, e: Entry, before: bv8)
    requires e.Routed? && Kept(m, t, log, e.peer, e.frame.ReportId(), before) && Waits(m, t, e.peer, e.frame.ReportId())
    requires Fits(m, e.frame, e.frame.ReportId())
    requires m1.pending == Some(m.pending.value.(buffer := Pushed(m.pending.value.buffer, e.frame).0))
    ensures Kept(m1, t, log + [e], e.peer, e.frame.ReportId(), before)
  {
    var p, frame, id := e.peer, e.frame, e.frame.ReportId();
    var routed, delivered, held := Frames(log, Routings, p, id), Frames(log, Deliveries, p, id), HeldOf(m, p, id);
    FramesAfterHolding(log, e);
    HeldAfterHolding(m, m1, frame, p);
    LastOfSnoc(routed, frame, before);
    LastOfSnoc(held, frame, t.ButtonsSent(p));
    hide Frames, HeldOf, Pushed, Thins, LastButtons, Lively, Le.ButtonsSent;
    if IsMotionOnly(frame, m.pending.value.buffer.lastButtons) {
      ThinsSkipping(delivered + held, routed, frame, before);
      assert held + [] == held;
    } else {
      ThinsKeeping(delivered + held, routed, frame, before);
      assert delivered + held + [frame] == delivered + (held + [frame]);
    }
  }

  lemma RouteFrameAwaits(m: Mgr, t: Le, slot: Slot, frame: HidFrame, outcome: TrySend, p: Address, id: byte)
    requires Awaited(m, t, p) && Undisturbed(m, t, RouteFrame(m, t, slot, frame, outcome).1, p, id)
    ensures var (m1, t1, _) := RouteFrame(m, t, slot, frame, outcome); Awaited(m1, t1, p)
  {
    hide Pushed, SentTo, SendResult, Undisturbed, FateOf, Le.FullyAttached;
    var (m1, t1, _) := RouteFrame(m, t, slot, frame, outcome);
    UndisturbedAwaits(m, t, m1, t1, p, id);
  }

  /** A frame that goes out now, to whomever. */
  lemma SentFrameKeeps(m: Mgr, t: Le, peer: Address, frame: HidFrame, outcome: TrySend, log: Log, p: Address, id: byte,
                       before: bv8)
    requires NoLeftover(m, t) && PeersAreSubscribed(t) && Awaited(m, t, p) && Kept(m, t, log, p, id, before)
    requires !Waits(m, t, peer, frame.ReportId())
    requires var t1, more := SentTo(t, peer, frame, outcome),
                             [Routed(peer, frame, GivenNow), Given(peer, frame, SendResult(t, peer, frame, outcome))];
      NoSendFails(more, p, id) && Undisturbed(m, t, t1, p, id)
    ensures Kept(m, SentTo(t, peer, frame, outcome),
                 log + [Routed(peer, frame, GivenNow), Given(peer, frame, SendResult(t, peer, frame, outcome))],
                 p, id, before)
  {
    hide Kept, NoLeftover, Of, SentTo, SendResult, Undisturbed, PeersAreSubscribed, Le.FullyAttached;
    var given := Given(peer, frame, SendResult(t, peer, frame, outcome));
    var more := [Routed(peer, frame, GivenNow), given];
    if peer == p && frame.ReportId() == id {
      assert more[1] == given;
      AwaitedNotHeld(m, t, p, frame);
      GivingKeeps(m, t, log, frame, outcome, p, before);
    } else {
      SendRemembersIfMouse(t, peer, frame, outcome, p, id);
      hide Awaited;
      PassingByKeeps(m, t, m, SentTo(t, peer, frame, outcome), log, more, p, id, before);
    }
  }

  lemma RouteFrameKeeps(m: Mgr, t: Le, slot: Slot, frame: HidFrame, outcome: TrySend, log: Log, p: Address, id: byte,
                        before: bv8)
    requires NoLeftover(m, t) && PeersAreSubscribed(t) && Awaited(m, t, p) && Kept(m, t, log, p, id, before)
    requires var (_, t1, more) := RouteFrame(m, t, slot, frame, outcome);
      NoSendFails(more, p, id) && NothingEvicted(m, more, p, id) && Undisturbed(m, t, t1, p, id)
    ensures var (m1, t1, more) := RouteFrame(m, t, slot, frame, outcome);
      Kept(m1, t1, log + more, p, id, before) && Awaited(m1, t1, p)
  {
    RouteFrameAwaits(m, t, slot, frame, outcome, p, id);
    hide Kept, NoLeftover, Of, Pushed, SentTo, SendResult, Undisturbed, PeersAreSubscribed, FateOf, Awaited,
      NoSendFails, NothingEvicted;
    var (m1, t1, more) := RouteFrame(m, t, slot, frame, outcome);
    if slot !in m.bindings {
      assert log + [] == log;
    } else if Waits(m, t, m.bindings[slot], frame.ReportId()) {
      assert more == [more[0]];
      HeldFrameKeeps(m, m1, t, log, frame, more[0], m.bindings[slot], p, id, before);
    } else {
      SentFrameKeeps(m, t, m.bindings[slot], frame, outcome, log, p, id, before);
    }
  }

  lemma SendRemembersIfMouse(t: Le, peer: Address, frame: HidFrame, outcome: TrySend, p: Address, id: byte)
    requires peer != p || frame.ReportId() != id
    ensures id == REPORT_ID_MOUSE ==> Remembers(t, SentTo(t, peer, frame, outcome), p)
  {
    hide SentTo;
    if id == REPORT_ID_MOUSE {
      SendRemembers(t, peer, frame, outcome, p);
    }
  }

  lemma HeldFrameKeeps(m: Mgr, m1: Mgr, t: Le, log: Log, frame: HidFrame, e: Entry, peer: Address, p: Address,
                       id: byte, before: bv8)
    requires Kept(m, t, log, p, id, before) && Waits(m, t, peer, frame.ReportId())
    requires e.Routed? && e.peer == peer && e.frame == frame && NothingEvicted(m, [e], p, id)
    requires var (buffer, outcome) := Pushed(m.pending.value.buffer, frame);
      m1.pending == Some(m.pending.value.(buffer := buffer))
      && e.fate == FateOf(outcome)
    ensures Kept(m1, t, log + [e], p, id, before)
  {
    hide Of, Kept, Le.ButtonsSent;
    assert e in [e];
    if peer != p {
      MuteKeeps(m, t, m1, t, log, [e], p, id, before);
    } else if frame.ReportId() != id {
      assert Fits(m, frame, id);
      PushedFrames(m.pending.value.buffer, frame, id);
      assert HeldOf(m, p, id) + [] == HeldOf(m, p, id);
      HoldingAnotherKeeps(m, m1, t, log, e, p, id, before);
    } else {
      HoldingKeeps(m, m1, t, log, e, before);
    }
  }

  lemma HoldingAnotherKeeps(m: Mgr, m1: Mgr, t: Le, log: Log, e: Entry, p: Address, id: byte, before: bv8)
    requires Kept(m, t, log, p, id, before) && WaitsFor(m, p) && HeldOf(m1, p, id) == HeldOf(m, p, id)
    requires e.Routed? && e.frame.ReportId() != id
    requires m1.pending == Some(m.pending.value.(buffer := Pushed(m.pending.value.buffer, e.frame).0))
    ensures Kept(m1, t, log + [e], p, id, before)
  {
    hide Of, Kept, Le.ButtonsSent;
    MuteKeeps(m, t, m1, t, log, [e], p, id, before);
  }

  // ---- Replay ----------------------------------------------------------------------------

  lemma NoSendFailsInPart(log: Log, more: Log, p: Address, id: byte)
    ensures NoSendFails(log + more, p, id) <==> NoSendFails(log, p, id) && NoSendFails(more, p, id)
  {
    assert forall e :: e in log || e in more <==> e in log + more;
  }

  predicate AllOf(frames: seq<HidFrame>, id: byte) {
    forall f :: f in frames ==> f.ReportId() == id
  }

  lemma OneIsDelivered(t: Le, p: Address, frame: HidFrame, outcome: TrySend, id: byte)
    requires t.IsSubscribed(p, id) && frame.ReportId() == id && !IsMotionOnly(frame, t.ButtonsSent(p))
    requires !SendResult(t, p, frame, outcome).Failed?
    ensures var t1, e := SentTo(t, p, frame, outcome), Given(p, frame, SendResult(t, p, frame, outcome));
      t1.IsSubscribed(p, id) && t1.ButtonsSent(p) == ButtonsAfter(frame, t.ButtonsSent(p))
      && Frames([e], Deliveries, p, id) == [frame]
  {
    SendThatDoesNotFail(t, p, frame, outcome, id);
    FramesOne(Given(p, frame, SendResult(t, p, frame, outcome)), Deliveries, p, id);
    hide SentTo, Frames, Fails;
  }

  /** Frames that each change something are all delivered, busy link or not, unless a send fails. */
  lemma {:induction false} ReplayDelivers(t: Le, p: Address, frames: seq<HidFrame>, outcomes: seq<TrySend>, id: byte)
    requires t.IsSubscribed(p, id) && AllOf(frames, id) && Lively(frames, t.ButtonsSent(p))
    requires NoSendFails(SendEach(t, p, frames, outcomes).1, p, id)
    ensures var (t1, log) := SendEach(t, p, frames, outcomes);
      t1.IsSubscribed(p, id) && Frames(log, Deliveries, p, id) == frames
      && t1.ButtonsSent(p) == LastButtons(frames, t.ButtonsSent(p))
    decreases |frames|
  {
    hide SentTo, SendResult, Le.ButtonsSent, Le.IsSubscribed;
    if frames != [] {
      var n := |frames| - 1;
      var (t1, log) := SendEach(t, p, frames[..n], outcomes);
      var e := Given(p, frames[n], SendResult(t1, p, frames[n], OutcomeAt(outcomes, n)));
      assert frames[n] in frames;
      NoSendFailsInPart(log, [e], p, id);
      ReplayDelivers(t, p, frames[..n], outcomes, id);
      assert e in [e] && !e.result.Failed?;
      hide NoSendFails, Frames, AllOf;
      OneIsDelivered(t1, p, frames[n], OutcomeAt(outcomes, n), id);
      FramesConcat(log, [e], Deliveries, p, id);
      assert frames == frames[..n] + [frames[n]];
    }
  }

  lemma {:induction false} ReplayIsElsewhere(t: Le, peer: Address, frames: seq<HidFrame>, outcomes: seq<TrySend>,
                                             p: Address)
    requires peer != p
    ensures SamePeer(t, SendEach(t, peer, frames, outcomes).0, p)
    decreases |frames|
  {
    hide SentTo, SendResult;
    if frames != [] {
      var n := |frames| - 1;
      ReplayIsElsewhere(t, peer, frames[..n], outcomes, p);
      SendElsewhere(SendEach(t, peer, frames[..n], outcomes).0, peer, frames[n], OutcomeAt(outcomes, n), p);
    }
  }

  /** A replay without mouse frames leaves the mouse's byte alone, even if sends fail. */
  lemma {:induction false} ReplayRemembers(t: Le, p: Address, frames: seq<HidFrame>, outcomes: seq<TrySend>)
    requires NoMouse(frames)
    ensures Remembers(t, SendEach(t, p, frames, outcomes).0, p)
    decreases |frames|
  {
    hide SentTo, SendResult;
    if frames != [] {
      var n := |frames| - 1;
      ReplayRemembers(t, p, frames[..n], outcomes);
      assert frames[n] in frames;
      SendRemembers(SendEach(t, p, frames[..n], outcomes).0, p, frames[n], OutcomeAt(outcomes, n), p);
    }
  }

  lemma {:induction false} ReplayIsMute(t: Le, peer: Address, frames: seq<HidFrame>, outcomes: seq<TrySend>,
                                        id: byte, p: Address, other: byte)
    requires AllOf(frames, id) && (p != peer || other != id)
    ensures Mute(SendEach(t, peer, frames, outcomes).1, p, other)
    decreases |frames|
  {
    hide SentTo, SendResult;
    if frames != [] {
      var n := |frames| - 1;
      ReplayIsMute(t, peer, frames[..n], outcomes, id, p, other);
      assert frames[n] in frames;
    }
  }

  lemma KeysOnly(frames: seq<HidFrame>, id: byte)
    requires AllOf(frames, id) && id != REPORT_ID_MOUSE
    ensures NoMouse(frames)
  {
  }

  /** Replay of the report itself: all that was held is delivered. */
  lemma ReplayOfReport(m: Mgr, t: Le, p: Address, id: byte, outcomes: seq<TrySend>, log: Log, before: bv8)
    requires Kept(m, t, log, p, id, before) && id in INPUT_REPORT_IDS && NoLeftoverBut(m, t, id)
    requires m.pending.Some? && m.pending.value.addr == p && t.IsSubscribed(p, id)
    requires NoSendFails(OnSubscribed(m, t, p, id, outcomes).2, p, id)
    ensures var (m1, t1, more) := OnSubscribed(m, t, p, id, outcomes); Kept(m1, t1, log + more, p, id, before)
  {
    var frames := Of(m.pending.value.buffer.frames, id);
    var (t1, more) := SendEach(t, p, frames, outcomes);
    var m1 := OnSubscribed(m, t, p, id, outcomes).0;
    assert OnSubscribed(m, t, p, id, outcomes) == (m1, t1, more);
    ReplayShows(m, t, p, id, outcomes, id);
    assert HeldOf(m, p, id) == frames;
    hide OnSubscribed, Of, SendEach, NoSendFails, NoLeftoverBut;
    var sent := t.ButtonsSent(p);
    if id != REPORT_ID_MOUSE {
      KeysOnly(frames, id);
      KeysAreLively(frames, sent);
    }
    ReplayDelivers(t, p, frames, outcomes, id);
    SendEachHandsOver(t, p, frames, outcomes, id);
    FramesConcat(log, more, Deliveries, p, id);
    FramesConcat(log, more, Routings, p, id);
    NothingIsInStep(LastButtons(frames, sent));
    ReplayedIsKept(m, m1, t, t1, log, more, p, id, before, frames);
  }

  lemma SendEachHandsOver(t: Le, p: Address, frames: seq<HidFrame>, outcomes: seq<TrySend>, id: byte)
    requires AllOf(frames, id)
    ensures var log := SendEach(t, p, frames, outcomes).1;
      Frames(log, Handovers, p, id) == frames && Frames(log, Routings, p, id) == []
  {
    SendEachShows(t, p, frames, outcomes, p, id);
    OfAll(frames, id);
    hide Of, SendEach, Frames;
  }

  lemma {:induction false} OfAll(frames: seq<HidFrame>, id: byte)
    requires AllOf(frames, id)
    ensures Of(frames, id) == frames
  {
    if frames != [] {
      assert frames[0] in frames && forall f :: f in frames[1..] ==> f in frames;
      OfAll(frames[1..], id);
      assert frames == [frames[0]] + frames[1..];
    }
  }

  lemma ReplayedIsKept(m: Mgr, m1: Mgr, t: Le, t1: Le, log: Log, more: Log, p: Address, id: byte, before: bv8,
                       frames: seq<HidFrame>)
    requires Kept(m, t, log, p, id, before) && HeldOf(m, p, id) == frames
    requires t1.IsSubscribed(p, id) && t1.ButtonsSent(p) == LastButtons(frames, t.ButtonsSent(p))
    requires Frames(more, Deliveries, p, id) == Frames(more, Handovers, p, id) == frames
    requires Frames(more, Routings, p, id) == []
    requires Frames(more, Handovers, p, id) + HeldOf(m1, p, id) == frames
    requires Frames(log + more, Deliveries, p, id) == Frames(log, Deliveries, p, id) + frames
    requires Frames(log + more, Routings, p, id) == Frames(log, Routings, p, id) + []
    requires Lively([], LastButtons(frames, t.ButtonsSent(p)))
    requires LastButtons([], LastButtons(frames, t.ButtonsSent(p))) == LastButtons(frames, t.ButtonsSent(p))
    ensures Kept(m1, t1, log + more, p, id, before)
  {
    hide Frames, HeldOf, Thins, Lively, LastButtons, Le.ButtonsSent;
    assert HeldOf(m1, p, id) == [];
    assert Frames(log, Deliveries, p, id) + frames + [] == Frames(log, Deliveries, p, id) + frames;
    assert Frames(log, Routings, p, id) + [] == Frames(log, Routings, p, id);
  }

  // ---- A host subscribes -----------------------------------------------------------------

  /** The replay that a subscription of this host sets off. */
  predicate Replays(m: Mgr, t: Le, peer: Address, id: byte) {
    WaitsFor(m, peer) && t.IsSubscribed(peer, id)
  }

  /** Whatever a replay sends, other reports and other hosts keep what is held for them. */
  lemma ReplayPassesBy(m: Mgr, t: Le, peer: Address, report: byte, outcomes: seq<TrySend>, p: Address, id: byte)
    requires NoLeftoverBut(m, t, report) && report in INPUT_REPORT_IDS && (peer != p || report != id)
    ensures var (m1, t1, more) := OnSubscribed(m, t, peer, report, outcomes);
      Mute(more, p, id) && HeldOf(m1, p, id) == HeldOf(m, p, id)
      && (id == REPORT_ID_MOUSE ==> Remembers(t, t1, p)) && (peer != p ==> SamePeer(t, t1, p))
  {
    hide NoLeftoverBut, SendEach, Of, Without, Le.FullyAttached, Frames, SentTo;
    if Replays(m, t, peer, report) {
      var frames := Of(m.pending.value.buffer.frames, report);
      ReplayIsMute(t, peer, frames, outcomes, report, p, id);
      if peer != p {
        ReplayIsElsewhere(t, peer, frames, outcomes, p);
      } else {
        HeldBesideReplay(m, t, p, report, outcomes, id);
        if id == REPORT_ID_MOUSE {
          KeysOnly(frames, report);
          ReplayRemembers(t, p, frames, outcomes);
        }
      }
    }
  }

  lemma HeldBesideReplay(m: Mgr, t: Le, p: Address, report: byte, outcomes: seq<TrySend>, id: byte)
    requires NoLeftoverBut(m, t, report) && report in INPUT_REPORT_IDS && report != id && Replays(m, t, p, report)
    ensures HeldOf(OnSubscribed(m, t, p, report, outcomes).0, p, id) == HeldOf(m, p, id)
  {
    var (m1, t1, more) := OnSubscribed(m, t, p, report, outcomes);
    var frames := Of(m.pending.value.buffer.frames, report);
    assert more == SendEach(t, p, frames, outcomes).1;
    ReplayShows(m, t, p, report, outcomes, id);
    hide OnSubscribed, SendEach, Of, NoLeftoverBut, HeldOf;
    ReplayIsMute(t, p, frames, outcomes, report, p, id);
    MuteShowsNothing(more, Handovers, p, id);
    assert [] + HeldOf(m1, p, id) == HeldOf(m1, p, id);
  }

  lemma SubscribeKeeps(m: Mgr, t: Le, peer: Address, report: byte, log: Log, p: Address, id: byte, before: bv8)
    requires Kept(m, t, log, p, id, before)
    ensures Kept(m, Subscribed(t, peer, report).0, log, p, id, before)
  {
    hide Frames, Of, Thins, Lively, LastButtons;
  }

  lemma QuietIsMute(log: Log, p: Address, id: byte)
    requires Quiet(log)
    ensures Mute(log, p, id)
  {
  }

  /** What the subscription itself and its reception do to this host: nothing the mouse's byte shows. */
  lemma ReceptionRemembers(m: Mgr, t: Le, turn: Turn, p: Address)
    requires turn.SubscribeTurn?
    ensures var (m2, t2, told) := Received(m, t, turn);
      Quiet(told) && m2.pending == m.pending && Remembers(t, t2, p)
      && (turn.peer != p ==> SamePeer(t, t2, p))
      && (t2 == Subscribed(t, turn.peer, turn.id).0 || !t2.IsSubscribed(turn.peer, turn.id))
  {
    hide OnIncomingPeer;
  }

  /** The first half of a subscription turn. */
  function Received(m: Mgr, t: Le, turn: Turn): (Mgr, Le, Log)
    requires turn.SubscribeTurn?
  {
    var (t1, first) := Subscribed(t, turn.peer, turn.id);
    if first then OnIncomingPeer(m, t1, turn.peer, turn.bonded, turn.links, turn.adv, turn.at) else (m, t1, [])
  }

  lemma ReceivedIsReady(m: Mgr, t: Le, turn: Turn)
    requires turn.SubscribeTurn? && NoLeftover(m, t)
    ensures var (m2, t2, _) := Received(m, t, turn); NoLeftoverBut(m2, t2, turn.id)
  {
    hide NoLeftover, NoLeftoverBut, OnIncomingPeer, Subscribed;
    SubscribeKeepsOthers(m, t, turn.peer, turn.id);
    var (m2, t2, told) := Received(m, t, turn);
    IncomingKeepsOthers(m, Subscribed(t, turn.peer, turn.id).0, m2, t2, turn.peer, turn.id);
  }

  lemma SubscribeTurnInHalves(m: Mgr, t: Le, turn: Turn)
    requires turn.SubscribeTurn?
    ensures var (m2, t2, told) := Received(m, t, turn);
      var (m3, t3, more) := OnSubscribed(m2, t2, turn.peer, turn.id, turn.outcomes);
      OnSubscribeTurn(m, t, turn) == (m3, t3, told + more)
  {
    hide OnIncomingPeer, OnSubscribed, Subscribed;
  }

  lemma ReplayKeepsTheWait(m: Mgr, t: Le, peer: Address, id: byte, outcomes: seq<TrySend>, p: Address)
    ensures var (m1, t1, _) := OnSubscribed(m, t, peer, id, outcomes);
      (WaitsFor(m, p) ==> WaitsFor(m1, p) || t1.FullyAttached(p))
      && (WaitsFor(m1, p) ==>
            WaitsFor(m, p) && m1.pending.value.buffer.lastButtons == m.pending.value.buffer.lastButtons)
  {
    hide SendEach, Of, Without, Le.FullyAttached, Le.IsSubscribed;
  }

  lemma MuteInParts(log: Log, more: Log, p: Address, id: byte)
    requires Mute(log, p, id) && Mute(more, p, id)
    ensures Mute(log + more, p, id)
  {
  }

  lemma SameRemembers(t: Le, t2: Le, t3: Le, p: Address)
    requires Remembers(t, t2, p) && (Remembers(t2, t3, p) || SamePeer(t2, t3, p))
    requires p in t3.peers ==> p in t2.peers
    ensures Remembers(t, t3, p)
  {
  }

  lemma {:induction false} ReplayAddsNobody(t: Le, peer: Address, frames: seq<HidFrame>, outcomes: seq<TrySend>,
                                            p: Address)
    ensures p in SendEach(t, peer, frames, outcomes).0.peers ==> p in t.peers
    decreases |frames|
  {
    hide SendResult;
    if frames != [] {
      ReplayAddsNobody(t, peer, frames[..|frames| - 1], outcomes, p);
    }
  }

  lemma OnSubscribedAddsNobody(m: Mgr, t: Le, peer: Address, id: byte, outcomes: seq<TrySend>, p: Address)
    ensures p in OnSubscribed(m, t, peer, id, outcomes).1.peers ==> p in t.peers
  {
    hide SendEach, Of, Without, Le.FullyAttached;
    if Replays(m, t, peer, id) {
      ReplayAddsNobody(t, peer, Of(m.pending.value.buffer.frames, id), outcomes, p);
    }
  }

  lemma SubscribeTurnKeeps(m: Mgr, t: Le, turn: Turn, log: Log, p: Address, id: byte, before: bv8)
    requires turn.SubscribeTurn? && turn.id in INPUT_REPORT_IDS
    requires var (_, t1, more) := OnSubscribeTurn(m, t, turn);
      NoSendFails(more, p, id) && Undisturbed(m, t, t1, p, id)
    requires NoLeftover(m, t) && PeersAreSubscribed(t) && Awaited(m, t, p) && Kept(m, t, log, p, id, before)
    ensures var (m1, t1, more) := OnSubscribeTurn(m, t, turn);
      Kept(m1, t1, log + more, p, id, before) && Awaited(m1, t1, p)
  {
    hide NoLeftover, NoLeftoverBut, OnSubscribed, Received, Awaited, Subscribed, Kept, NoSendFails, Undisturbed, Quiet,
      Mute, Remembers, SamePeer, PeersAreSubscribed, Le.FullyAttached, Le.IsSubscribed, OnSubscribeTurn, Of;
    var (m2, t2, told) := Received(m, t, turn);
    var (m3, t3, more) := OnSubscribed(m2, t2, turn.peer, turn.id, turn.outcomes);
    SubscribeTurnInHalves(m, t, turn);
    ReceptionRemembers(m, t, turn, p);
    ReceivedIsReady(m, t, turn);
    ReplayKeepsTheWait(m2, t2, turn.peer, turn.id, turn.outcomes, p);
    UndisturbedAwaits(m, t, m3, t3, p, id);
    QuietIsMute(told, p, id);
    if turn.peer == p && turn.id == id && Replays(m2, t2, p, id) {
      NoSendFailsInPart(told, more, p, id);
      SubscribeKeeps(m, t, p, id, log, p, id, before);
      ToldKeeps(m, m2, t2, log, told, p, id, before);
      ReplayOfReport(m2, t2, p, id, turn.outcomes, log + told, before);
      assert log + (told + more) == log + told + more;
    } else {
      OtherSubscriptionPassesBy(m, t, turn, p, id);
      PassingByKeeps(m, t, m3, t3, log, told + more, p, id, before);
    }
  }

  lemma ToldKeeps(m: Mgr, m1: Mgr, t: Le, log: Log, told: Log, p: Address, id: byte, before: bv8)
    requires Kept(m, t, log, p, id, before) && Mute(told, p, id) && m1.pending == m.pending
    ensures Kept(m1, t, log + told, p, id, before)
  {
    hide Kept, Mute, Of;
    MuteKeeps(m, t, m1, t, log, told, p, id, before);
  }

  lemma OtherSubscriptionPassesBy(m: Mgr, t: Le, turn: Turn, p: Address, id: byte)
    requires turn.SubscribeTurn? && turn.id in INPUT_REPORT_IDS && NoLeftover(m, t)
    requires var (m2, t2, _) := Received(m, t, turn);
      !(turn.peer == p && turn.id == id && Replays(m2, t2, p, id))
    ensures var (m1, t1, more) := OnSubscribeTurn(m, t, turn);
      Mute(more, p, id) && HeldOf(m1, p, id) == HeldOf(m, p, id) && (id == REPORT_ID_MOUSE ==> Remembers(t, t1, p))
  {
    hide NoLeftover, NoLeftoverBut, OnSubscribed, Received, Subscribed, Quiet, Mute, Remembers, SamePeer,
      Le.FullyAttached, Le.IsSubscribed, OnSubscribeTurn, Of;
    var (m2, t2, told) := Received(m, t, turn);
    var (m3, t3, more) := OnSubscribed(m2, t2, turn.peer, turn.id, turn.outcomes);
    SubscribeTurnInHalves(m, t, turn);
    ReceptionRemembers(m, t, turn, p);
    ReceivedIsReady(m, t, turn);
    QuietIsMute(told, p, id);
    if Replays(m2, t2, turn.peer, turn.id) {
      ReplayPassesBy(m2, t2, turn.peer, turn.id, turn.outcomes, p, id);
      MuteInParts(told, more, p, id);
      OnSubscribedAddsNobody(m2, t2, turn.peer, turn.id, turn.outcomes, p);
      if id == REPORT_ID_MOUSE {
        SameRemembers(t, t2, t3, p);
      }
    } else {
      NoReplay(m2, t2, turn.peer, turn.id, turn.outcomes);
      assert told + more == told;
    }
  }

  lemma NoReplay(m: Mgr, t: Le, peer: Address, id: byte, outcomes: seq<TrySend>)
    requires !Replays(m, t, peer, id)
    ensures OnSubscribed(m, t, peer, id, outcomes) == (m, t, [])
  {
  }

  // ---- Whole turns -----------------------------------------------------------------------

  lemma TickPassesBy(m: Mgr, t: Le, answers: TickAnswers, now: int, p: Address)
    requires WaitsFor(m, p) ==> now - m.pending.value.since < REPLAY_WINDOW
    ensures var (m1, t1, more) := Tick(m, t, answers, now);
      Quiet(more) && Remembers(t, t1, p) && SameWait(m, m1, p)
  {
    hide PollWindow, PollUninvited, ApplyAdvertising, PollStuckHosts, ToldFrom, ConnectedHosts;
  }

  lemma CloseRemembers(t: Le, peer: Address, report: byte, generation: nat, p: Address)
    ensures Remembers(t, SubForgotten(t, peer, report, Some(generation)), p)
  {
  }

  /** A turn other than a frame or a subscription: nothing is routed, and nothing held changes. */
  lemma OtherTurnPassesBy(m: Mgr, t: Le, turn: Turn, p: Address)
    requires !turn.FrameTurn? && !turn.SubscribeTurn? && (turn.SwitchTurn? ==> !m.single)
    requires turn.TickTurn? && WaitsFor(m, p) ==> turn.at - m.pending.value.since < REPLAY_WINDOW
    ensures var (m1, t1, more) := TakeTurn(m, t, turn);
      Quiet(more) && Remembers(t, t1, p) && SameWait(m, m1, p)
  {
    hide RouteFrame, OnSubscribeTurn, Tick, SubForgotten, OpenWindow, RepairSlot;
    match turn {
      case CloseTurn(peer, i, generation, _) => CloseRemembers(t, peer, i, generation, p);
      case TickTurn(answers, at) => TickPassesBy(m, t, answers, at, p);
      case _ =>
    }
  }

  lemma CalmTurnKeeps(m: Mgr, t: Le, turn: Turn, log: Log, p: Address, id: byte, before: bv8)
    requires NoLeftover(m, t) && PeersAreSubscribed(t) && Awaited(m, t, p) && Kept(m, t, log, p, id, before)
    requires Calm(m, t, turn, p, id)
    ensures var (m1, t1, more) := TakeTurn(m, t, turn); Kept(m1, t1, log + more, p, id, before) && Awaited(m1, t1, p)
  {
    hide NoLeftover, Awaited, Kept, NoSendFails, NothingEvicted, Undisturbed, RouteFrame, OnSlotChange, OnSubscribeTurn,
      Tick, SubForgotten, OpenWindow, RepairSlot, Quiet, Mute, Remembers, PeersAreSubscribed, Of;
    var (m1, t1, more) := TakeTurn(m, t, turn);
    match turn {
      case FrameTurn(slot, frame, outcome, _) => RouteFrameKeeps(m, t, slot, frame, outcome, log, p, id, before);
      case SubscribeTurn(_, _, _, _, _, _, _) => SubscribeTurnKeeps(m, t, turn, log, p, id, before);
      case _ =>
        OtherTurnPassesBy(m, t, turn, p);
        QuietIsMute(more, p, id);
        hide TakeTurn;
        SameWaitHolds(m, m1, p, id);
        UndisturbedAwaits(m, t, m1, t1, p, id);
        PassingByKeeps(m, t, m1, t1, log, more, p, id, before);
    }
  }

  lemma TurnKeepsNoLeftover(m: Mgr, t: Le, turn: Turn)
    requires turn.SubscribeTurn? ==> turn.id in INPUT_REPORT_IDS
    requires NoLeftover(m, t)
    ensures var (m1, t1, more) := TakeTurn(m, t, turn); NoLeftover(m1, t1)
  {
    // `TurnKeepsOrder` for a host nothing is held for.
    var p := if m.pending.Some? then m.pending.value.addr + 1 else 0;
    NothingYetIsInOrder(m, p, REPORT_ID_KEYBOARD);
    hide TakeTurn, NoLeftover, InOrder;
    TurnKeepsOrder(m, t, turn, [], p, REPORT_ID_KEYBOARD);
  }

  // ---- No host is remembered without a subscription --------------------------------------

  lemma SendKeepsSubscribed(t: Le, peer: Address, frame: HidFrame, outcome: TrySend)
    requires PeersAreSubscribed(t)
    ensures PeersAreSubscribed(SentTo(t, peer, frame, outcome))
  {
    PeersStaySubscribed(t, Gatt.Event.Send(peer, frame, outcome));
  }

  lemma {:induction false} SendEachKeepsSubscribed(t: Le, peer: Address, frames: seq<HidFrame>, outcomes: seq<TrySend>)
    requires PeersAreSubscribed(t)
    ensures PeersAreSubscribed(SendEach(t, peer, frames, outcomes).0)
    decreases |frames|
  {
    hide PeersAreSubscribed, SentTo, SendResult;
    if frames != [] {
      var n := |frames| - 1;
      SendEachKeepsSubscribed(t, peer, frames[..n], outcomes);
      SendKeepsSubscribed(SendEach(t, peer, frames[..n], outcomes).0, peer, frames[n], OutcomeAt(outcomes, n));
    }
  }

  lemma RouteFrameKeepsSubscribed(m: Mgr, t: Le, slot: Slot, frame: HidFrame, outcome: TrySend)
    requires PeersAreSubscribed(t)
    ensures PeersAreSubscribed(RouteFrame(m, t, slot, frame, outcome).1)
  {
    hide PeersAreSubscribed, SentTo, SendResult, Pushed;
    if slot in m.bindings {
      SendKeepsSubscribed(t, m.bindings[slot], frame, outcome);
    }
  }

  lemma {:induction false} RouteAllKeepsSubscribed(m: Mgr, t: Le, queue: seq<Waiting>)
    requires PeersAreSubscribed(t)
    ensures PeersAreSubscribed(RouteAll(m, t, queue).1)
    decreases |queue|
  {
    hide PeersAreSubscribed, RouteFrame;
    if queue != [] {
      var q := queue[|queue| - 1];
      RouteAllKeepsSubscribed(m, t, queue[..|queue| - 1]);
      var (m1, t1, _) := RouteAll(m, t, queue[..|queue| - 1]);
      RouteFrameKeepsSubscribed(m1, t1, q.slot, q.frame, q.outcome);
    }
  }

  lemma SubscribeTurnKeepsSubscribed(m: Mgr, t: Le, turn: Turn)
    requires turn.SubscribeTurn? && PeersAreSubscribed(t)
    ensures PeersAreSubscribed(OnSubscribeTurn(m, t, turn).1)
  {
    PeersStaySubscribed(t, Gatt.Event.Subscribe(turn.peer, turn.id));
    PeersStaySubscribed(Subscribed(t, turn.peer, turn.id).0, Gatt.Event.Drop(turn.peer));
    SubscribeTurnInHalves(m, t, turn);
    hide PeersAreSubscribed, OnIncomingPeer, Subscribed, PeerDropped, SendEach, Of, Without, Le.FullyAttached,
      Le.IsSubscribed, OnSubscribeTurn;
    var (m2, t2, _) := Received(m, t, turn);
    if m2.pending.Some? {
      SendEachKeepsSubscribed(t2, turn.peer, Of(m2.pending.value.buffer.frames, turn.id), turn.outcomes);
    }
  }

  lemma TickKeepsSubscribed(m: Mgr, t: Le, answers: TickAnswers, now: int)
    requires PeersAreSubscribed(t)
    ensures PeersAreSubscribed(Tick(m, t, answers, now).1)
  {
    hide PollWindow, PollUninvited, ApplyAdvertising, PollStuckHosts, ToldFrom, ConnectedHosts;
  }

  lemma SwitchKeepsSubscribed(m: Mgr, t: Le, slot: Slot, queue: seq<Waiting>, links: set<Address>, adv: AdvAnswers,
                              at: int)
    requires PeersAreSubscribed(t)
    ensures PeersAreSubscribed(OnSlotChange(m, t, slot, queue, links, adv, at).1)
  {
    RouteAllKeepsSubscribed(m.(active := slot), t, queue);
    hide RouteAll, ApplyAdvertising, ArmPending, ConnectedHosts;
  }

  lemma TurnKeepsSubscribed(m: Mgr, t: Le, turn: Turn)
    requires PeersAreSubscribed(t)
    ensures PeersAreSubscribed(TakeTurn(m, t, turn).1)
  {
    hide PeersAreSubscribed, RouteFrame, OnSlotChange, OnSubscribeTurn, Tick, SubForgotten, OpenWindow, RepairSlot;
    match turn {
      case FrameTurn(slot, frame, outcome, _) => RouteFrameKeepsSubscribed(m, t, slot, frame, outcome);
      case SwitchTurn(slot, queue, links, adv, at) => SwitchKeepsSubscribed(m, t, slot, queue, links, adv, at);
      case SubscribeTurn(_, _, _, _, _, _, _) => SubscribeTurnKeepsSubscribed(m, t, turn);
      case CloseTurn(peer, i, generation, _) =>
        PeersStaySubscribed(t, Gatt.Event.CloseMessage(peer, i, generation));
      case TickTurn(answers, at) => TickKeepsSubscribed(m, t, answers, at);
      case _ =>
    }
  }

  /** In any run from the start, no host is remembered without a subscription. */
  lemma {:induction false} RunKeepsSubscribed(m: Mgr, t: Le, turns: seq<Turn>)
    requires PeersAreSubscribed(t)
    ensures PeersAreSubscribed(RunTurns(m, t, turns).1)
  {
    hide PeersAreSubscribed, TakeTurn;
    if turns != [] {
      RunKeepsSubscribed(m, t, turns[..|turns| - 1]);
      var (m1, t1, _) := RunTurns(m, t, turns[..|turns| - 1]);
      TurnKeepsSubscribed(m1, t1, turns[|turns| - 1]);
    }
  }

  /**
   A tick within the wait that tells the host nothing is calm, whomever it kicks: a kick finds no
   subscription to end, so a wait may well last through the kick of the host it is for.
  */
  lemma TicksAreCalm(m: Mgr, t: Le, answers: TickAnswers, at: int, p: Address, id: byte)
    requires PeersAreSubscribed(t) && Told(p, at, Sweep) !in Tick(m, t, answers, at).2
    requires WaitsFor(m, p) ==> at - m.pending.value.since < REPLAY_WINDOW
    ensures Calm(m, t, TickTurn(answers, at), p, id)
  {
    hide PollWindow, PollUninvited, ApplyAdvertising, PollStuckHosts, ToldFrom, ConnectedHosts, Mgr.ActiveHostPresent;
    var m1 := PollWindow(m, answers.window, at);
    var connected := ConnectedHosts(m1.bindings, answers.links);
    var (m2, t2, away) := PollUninvited(m1, t, connected, at);
    var m3 := ApplyAdvertising(m2, connected, answers.adv);
    TickIsQuiet(m, t, answers, at);
    assert PeersAreSubscribed(t2);
    StuckHosts.KicksEndNoSubscription(m3, t2, connected, at, answers.reregisterOk);
    assert p !in away;
    assert Tick(m, t, answers, at).1 == t2;
  }

  /** Slot 2's host is the only one, and has been on the link since 0 without a subscription. */
  predicate Silent(m: Mgr) {
    m.single && m.bindings == map[2 := 7] && m.active == 2 && m.pairing.None?
    && m.stuck == map[7 := 0] && m.kicked == map[] && m.helped == {}
  }

  lemma SweepPassesBy(m: Mgr, answers: TickAnswers)
    requires Silent(m) && answers.links == {7}
    ensures var connected := ConnectedHosts(m.bindings, answers.links);
      var (m2, t2, away) := PollUninvited(m, NO_PEERS, connected, 3_000);
      connected == {7} && PollWindow(m, answers.window, 3_000) == m && away == {} && t2 == NO_PEERS
      && Silent(ApplyAdvertising(m2, connected, answers.adv))
  {
    var connected := ConnectedHosts(m.bindings, answers.links);
    assert m.bindings[2] in m.bindings.Values && connected == {7};
    hide ConnectedHosts, ApplyAdvertising;
  }

  /** So the awaited host may be kicked: silent for 3 s on the link, it is, and the wait goes on untouched. */
  lemma KickedWhileAwaited(m: Mgr, answers: TickAnswers, id: byte)
    requires Silent(m) && WaitsFor(m, 7) && m.pending.value.since == 0 && answers.links == {7}
    ensures var (m1, t1, log) := Tick(m, NO_PEERS, answers, 3_000);
      Kicked(7, 3_000) in log && m1.pending == m.pending && t1 == NO_PEERS
      && Calm(m, NO_PEERS, TickTurn(answers, 3_000), 7, id)
  {
    SweepPassesBy(m, answers);
    hide Calm, ConnectedHosts, ApplyAdvertising, PollWindow, PollUninvited, PollStuckHosts;
    var connected := ConnectedHosts(m.bindings, answers.links);
    var (m2, t2, _) := PollUninvited(m, NO_PEERS, connected, 3_000);
    var m3 := ApplyAdvertising(m2, connected, answers.adv);
    assert StuckHosts.FirstStuck(m3, NO_PEERS, connected, 3_000, 2);
    StuckHosts.PollClimbsForTheFirstStuckHost(m3, NO_PEERS, connected, 3_000, answers.reregisterOk, 2);
    TicksAreCalm(m, NO_PEERS, answers, 3_000, 7, id);
    TickPassesBy(m, NO_PEERS, answers, 3_000, 7);
    StuckHosts.KicksEndNoSubscription(m3, NO_PEERS, connected, 3_000, answers.reregisterOk);
  }

  /** And for keys any close message is calm while the host is waited for. */
  lemma ClosesAreCalmForKeys(m: Mgr, t: Le, peer: Address, report: byte, generation: nat, at: int, p: Address, id: byte)
    requires WaitsFor(m, p) && id != REPORT_ID_MOUSE
    ensures Calm(m, t, CloseTurn(peer, report, generation, at), p, id)
  {
    hide SubForgotten, KeepsSubs;
  }

  /** The wait is over at the first tick eight seconds on, and at no tick before. */
  lemma WaitEndsExactlyInTime(m: Mgr, t: Le, answers: TickAnswers, at: int)
    ensures Tick(m, t, answers, at).0.pending ==
      if m.pending.Some? && at >= m.pending.value.since + 8_000 then None else m.pending
  {
    hide PollWindow, PollUninvited, ApplyAdvertising, PollStuckHosts, ToldFrom, ConnectedHosts;
  }

  // ---- The main results ------------------------------------------------------------------

  /** Whatever a mouse frame is going to be compared with is this byte. */
  predicate StartsAt(m: Mgr, t: Le, p: Address, before: bv8) {
    t.ButtonsSent(p) == before
    && (Waits(m, t, p, REPORT_ID_MOUSE) ==> m.pending.value.buffer.lastButtons == before)
  }

  lemma StartIsKept(m: Mgr, t: Le, p: Address, id: byte, before: bv8)
    requires HeldOf(m, p, id) == [] && (id == REPORT_ID_MOUSE ==> StartsAt(m, t, p, before))
    ensures Kept(m, t, [], p, id, before)
  {
    NothingIsInStep(before);
    hide HeldOf, Waits, Lively, LastButtons, Le.ButtonsSent;
    assert Frames([], Deliveries, p, id) + [] == [] && Frames([], Routings, p, id) == [];
  }

  lemma CalmSubscriptions(m: Mgr, t: Le, turn: Turn, p: Address, id: byte)
    requires Calm(m, t, turn, p, id)
    ensures turn.SubscribeTurn? ==> turn.id in INPUT_REPORT_IDS
  {
  }

  lemma {:induction false} CalmRunKeeps(m: Mgr, t: Le, turns: seq<Turn>, p: Address, id: byte, before: bv8)
    requires NoLeftover(m, t) && PeersAreSubscribed(t) && Awaited(m, t, p) && Kept(m, t, [], p, id, before)
    requires CalmRun(m, t, turns, p, id)
    ensures var (m1, t1, log) := RunTurns(m, t, turns);
      NoLeftover(m1, t1) && PeersAreSubscribed(t1) && Awaited(m1, t1, p) && Kept(m1, t1, log, p, id, before)
  {
    hide TakeTurn, NoLeftover, Awaited, Kept, Calm, PeersAreSubscribed;
    if turns != [] {
      var rest, last := turns[..|turns| - 1], turns[|turns| - 1];
      CalmRunKeeps(m, t, rest, p, id, before);
      var (m1, t1, log) := RunTurns(m, t, rest);
      CalmSubscriptions(m1, t1, last, p, id);
      TurnKeepsNoLeftover(m1, t1, last);
      TurnKeepsSubscribed(m1, t1, last);
      CalmTurnKeeps(m1, t1, last, log, p, id, before);
    }
  }

  /**
   Over a calm run, what was delivered to the host, followed by what is still held for it, is what
   was routed to it, in order, less mouse frames whose buttons repeat those of the mouse frame
   routed before: whether the wait dropped them or a busy link did.
  */
  lemma OnlyMotionIsMissing(m: Mgr, t: Le, turns: seq<Turn>, p: Address, id: byte, before: bv8)
    requires NoLeftover(m, t) && PeersAreSubscribed(t) && Awaited(m, t, p) && HeldOf(m, p, id) == []
    requires id == REPORT_ID_MOUSE ==> StartsAt(m, t, p, before)
    requires CalmRun(m, t, turns, p, id)
    ensures var (m1, _, log) := RunTurns(m, t, turns);
      Thins(Frames(log, Deliveries, p, id) + HeldOf(m1, p, id), Frames(log, Routings, p, id), before)
  {
    StartIsKept(m, t, p, id, before);
    hide NoLeftover, Awaited, CalmRun, RunTurns, StartsAt, HeldOf, Frames, Thins;
    CalmRunKeeps(m, t, turns, p, id, before);
  }

  /** So the buttons the host gets, and those still held for it, change exactly as those routed did. */
  lemma EveryButtonChangeArrives(m: Mgr, t: Le, turns: seq<Turn>, p: Address, before: bv8)
    requires NoLeftover(m, t) && PeersAreSubscribed(t) && Awaited(m, t, p)
    requires HeldOf(m, p, REPORT_ID_MOUSE) == [] && StartsAt(m, t, p, before)
    requires CalmRun(m, t, turns, p, REPORT_ID_MOUSE)
    ensures var (m1, _, log) := RunTurns(m, t, turns);
      ButtonChanges(Frames(log, Deliveries, p, REPORT_ID_MOUSE) + HeldOf(m1, p, REPORT_ID_MOUSE), before)
      == ButtonChanges(Frames(log, Routings, p, REPORT_ID_MOUSE), before)
  {
    hide NoLeftover, Awaited, CalmRun, RunTurns, StartsAt, HeldOf, Frames, Thins, ButtonChanges;
    OnlyMotionIsMissing(m, t, turns, p, REPORT_ID_MOUSE, before);
    var (m1, _, log) := RunTurns(m, t, turns);
    ThinningKeepsButtons(Frames(log, Deliveries, p, REPORT_ID_MOUSE) + HeldOf(m1, p, REPORT_ID_MOUSE),
                         Frames(log, Routings, p, REPORT_ID_MOUSE), before);
  }

  lemma {:induction false} FramesAreOfReport(log: Log, v: View, p: Address, id: byte)
    ensures AllOf(Frames(log, v, p, id), id)
  {
    if log != [] {
      FramesAreOfReport(log[..|log| - 1], v, p, id);
    }
  }

  lemma AttachedHoldsNothing(m: Mgr, t: Le, p: Address, id: byte)
    requires NoLeftover(m, t) && t.FullyAttached(p)
    ensures HeldOf(m, p, id) == []
  {
    if HeldOf(m, p, id) != [] {
      var f := HeldOf(m, p, id)[0];
      assert f in HeldOf(m, p, id);
      EveryFrameHasAnInputReport(f);
    }
    hide Of;
  }

  /** Keys and consumer keys: delivered, then held, is exactly what was routed. */
  lemma KeysAreDeliveredOrHeld(m: Mgr, t: Le, turns: seq<Turn>, p: Address, id: byte)
    requires NoLeftover(m, t) && PeersAreSubscribed(t) && Awaited(m, t, p) && HeldOf(m, p, id) == []
    requires CalmRun(m, t, turns, p, id) && id != REPORT_ID_MOUSE
    ensures var (m1, _, log) := RunTurns(m, t, turns);
      Frames(log, Deliveries, p, id) + HeldOf(m1, p, id) == Frames(log, Routings, p, id)
  {
    hide NoLeftover, Awaited, HeldOf, Frames, CalmRun, RunTurns, Thins;
    var (m1, _, log) := RunTurns(m, t, turns);
    OnlyMotionIsMissing(m, t, turns, p, id, 0);
    FramesAreOfReport(log, Routings, p, id);
    KeysOnly(Frames(log, Routings, p, id), id);
    ThinningKeepsKeys(Frames(log, Deliveries, p, id) + HeldOf(m1, p, id), Frames(log, Routings, p, id), 0);
  }

  /**
   Once the host has enabled all reports after a calm wait, it has every key and consumer frame routed
   since the switch.
  */
  lemma NoKeyIsLost(m: Mgr, t: Le, turns: seq<Turn>, p: Address, id: byte)
    requires NoLeftover(m, t) && PeersAreSubscribed(t) && Awaited(m, t, p) && HeldOf(m, p, id) == []
    requires CalmRun(m, t, turns, p, id) && id != REPORT_ID_MOUSE
    requires RunTurns(m, t, turns).1.FullyAttached(p)
    ensures var log := RunTurns(m, t, turns).2;
      Frames(log, Deliveries, p, id) == Frames(log, Routings, p, id)
  {
    StartIsKept(m, t, p, id, 0);
    hide NoLeftover, Awaited, HeldOf, Frames, CalmRun, RunTurns, Le.FullyAttached, Kept;
    var (m1, t1, log) := RunTurns(m, t, turns);
    CalmRunKeeps(m, t, turns, p, id, 0);
    KeysAreDeliveredOrHeld(m, t, turns, p, id);
    AttachedHoldsNothing(m1, t1, p, id);
    assert Frames(log, Deliveries, p, id) + [] == Frames(log, Deliveries, p, id);
  }

  lemma BootAwaitsTheHost(bindings: Bindings, active: Slot, links: set<Address>, answers: AdvAnswers, now: int,
                          p: Address, id: byte)
    requires Boot(true, bindings, active, links, answers, now).ActiveHost() == Some(p)
    ensures var m := Boot(true, bindings, active, links, answers, now);
      NoLeftover(m, NO_PEERS) && Awaited(m, NO_PEERS, p) && HeldOf(m, p, id) == [] && StartsAt(m, NO_PEERS, p, 0)
  {
    EveryFrameHasAnInputReport(Consumer(0, 0));
    assert !NO_PEERS.IsSubscribed(p, REPORT_ID_CONSUMER);
    hide ApplyAdvertising, ConnectedHosts;
  }

  /** The program starts as if by a switch: from then on, through any calm run, only motion is missing. */
  lemma OnlyMotionIsMissingSinceTheStart(bindings: Bindings, active: Slot, links: set<Address>, answers: AdvAnswers,
                                         now: int, turns: seq<Turn>, p: Address, id: byte)
    requires var m := Boot(true, bindings, active, links, answers, now);
      m.ActiveHost() == Some(p) && CalmRun(m, NO_PEERS, turns, p, id)
    ensures var (m1, _, log) := RunTurns(Boot(true, bindings, active, links, answers, now), NO_PEERS, turns);
      Thins(Frames(log, Deliveries, p, id) + HeldOf(m1, p, id), Frames(log, Routings, p, id), 0)
  {
    BootAwaitsTheHost(bindings, active, links, answers, now, p, id);
    hide Boot, NoLeftover, Awaited, CalmRun, RunTurns, StartsAt, HeldOf, Frames, Thins;
    OnlyMotionIsMissing(Boot(true, bindings, active, links, answers, now), NO_PEERS, turns, p, id, 0);
  }
}
