/**
 What becomes of the frames routed to a host over any run of the manager: they reach the
 transport in order and at most once, whatever connects, fails, times out or switches.
*/
module HeldFrames {
  import opened Wrappers
  import opened Slots
  import opened HidReports
  import opened Replay
  import opened Gatt
  import opened ManagerSpec

  // ---- Frames in a log -------------------------------------------------------------------

  /**
   What to read off a log: frames routed, those of them held back, frames handed to the transport,
   frames it delivered.
  */
  datatype View = Routings | Pushes | Handovers | Deliveries

  predicate Shows(e: Entry, v: View, p: Address, id: byte) {
    match e
    case Routed(q, frame, fate) =>
      q == p && frame.ReportId() == id && (v.Routings? || (v.Pushes? && fate != GivenNow))
    case Given(q, frame, result) =>
      q == p && frame.ReportId() == id && (v.Handovers? || (v.Deliveries? && result.Delivered?))
    case _ => false
  }

  function Shown(e: Entry, v: View, p: Address, id: byte): seq<HidFrame> {
    if Shows(e, v, p, id) then [e.frame] else []
  }

  /** The frames of one host and report, in order. */
  function Frames(log: Log, v: View, p: Address, id: byte): seq<HidFrame> {
    if log == [] then [] else Frames(log[..|log| - 1], v, p, id) + Shown(log[|log| - 1], v, p, id)
  }

  function HeldOf(m: Mgr, p: Address, id: byte): seq<HidFrame> {
    if m.pending.Some? && m.pending.value.addr == p then Of(m.pending.value.buffer.frames, id) else []
  }

  lemma {:induction false} FramesConcat(a: Log, b: Log, v: View, p: Address, id: byte)
    ensures Frames(a + b, v, p, id) == Frames(a, v, p, id) + Frames(b, v, p, id)
  {
    if b == [] {
      assert a + b == a;
    } else {
      hide Shown;
      assert (a + b)[..|a + b| - 1] == a + b[..|b| - 1];
      FramesConcat(a, b[..|b| - 1], v, p, id);
    }
  }

  lemma FramesOne(e: Entry, v: View, p: Address, id: byte)
    ensures Frames([e], v, p, id) == Shown(e, v, p, id)
  {
    assert [e][..0] == [];
  }

  lemma FramesTwo(e: Entry, f: Entry, v: View, p: Address, id: byte)
    ensures Frames([e, f], v, p, id) == Shown(e, v, p, id) + Shown(f, v, p, id)
  {
    assert [e, f][..1] == [e];
    FramesOne(e, v, p, id);
  }

  predicate Quiet(log: Log) {
    forall e :: e in log ==> !e.Routed? && !e.Given?
  }

  lemma {:induction false} QuietShowsNothing(log: Log, v: View, p: Address, id: byte)
    requires Quiet(log)
    ensures Frames(log, v, p, id) == []
  {
    if log != [] {
      assert log[|log| - 1] in log;
      QuietShowsNothing(log[..|log| - 1], v, p, id);
    }
  }

  // ---- Subsequences ----------------------------------------------------------------------

  /** `at` picks `a` out of `b`, each element once and in order. */
  ghost predicate Picks<T(!new)>(at: seq<nat>, a: seq<T>, b: seq<T>) {
    && |at| == |a|
    && (forall i, j :: 0 <= i < j < |at| ==> at[i] < at[j])
    && (forall i :: 0 <= i < |at| ==> at[i] < |b| && b[at[i]] == a[i])
  }

  ghost predicate Embeds<T(!new)>(a: seq<T>, b: seq<T>) {
    exists at: seq<nat> :: Picks(at, a, b)
  }

  lemma EmbedsSame<T(!new)>(a: seq<T>, b: seq<T>, x: seq<T>)
    requires Embeds(a, b)
    ensures Embeds(a + x, b + x)
  {
    var at: seq<nat> :| Picks(at, a, b);
    assert Picks(at + seq(|x|, i requires 0 <= i < |x| => |b| + i), a + x, b + x);
  }

  lemma EmbedsMore<T(!new)>(a: seq<T>, b: seq<T>, x: seq<T>)
    requires Embeds(a, b)
    ensures Embeds(a, b + x)
  {
    var at: seq<nat> :| Picks(at, a, b);
    assert Picks(at, a, b + x);
  }

  lemma EmbedsFront<T(!new)>(a: seq<T>, c: seq<T>, b: seq<T>)
    requires Embeds(a + c, b)
    ensures Embeds(a, b)
  {
    var at: seq<nat> :| Picks(at, a + c, b);
    assert forall i :: 0 <= i < |a| ==> (a + c)[i] == a[i];
    assert Picks(at[..|a|], a, b);
  }

  lemma EmbedsWithout<T(!new)>(a: seq<T>, c: seq<T>, b: seq<T>)
    requires c != [] && Embeds(a + c, b)
    ensures Embeds(a + c[1..], b)
  {
    var at: seq<nat> :| Picks(at, a + c, b);
    var fewer := at[..|a|] + at[|a| + 1..];
    assert forall i :: 0 <= i < |a| ==> (a + c[1..])[i] == (a + c)[i];
    assert forall i :: |a| <= i < |a| + |c| - 1 ==> (a + c[1..])[i] == (a + c)[i + 1] && fewer[i] == at[i + 1];
    assert Picks(fewer, a + c[1..], b);
  }

  // ---- In order, at most once ------------------------------------------------------------

  /** Nothing is held for a report the awaited host has enabled. */
  predicate NoLeftover(m: Mgr, t: Le) {
    m.pending.Some? ==> forall id :: id in INPUT_REPORT_IDS && t.IsSubscribed(m.pending.value.addr, id) ==>
      Of(m.pending.value.buffer.frames, id) == []
  }

  ghost predicate InOrder(m: Mgr, log: Log, p: Address, id: byte) {
    Embeds(Frames(log, Handovers, p, id) + HeldOf(m, p, id), Frames(log, Routings, p, id))
  }

  predicate FewerSubs(t1: Le, t: Le, p: Address) {
    forall id :: id in INPUT_REPORT_IDS && t1.IsSubscribed(p, id) ==> t.IsSubscribed(p, id)
  }

  lemma ForgetShrinks(t: Le, peer: Address, id: byte, generation: Option<nat>, p: Address)
    ensures FewerSubs(SubForgotten(t, peer, id, generation), t, p)
  {
  }

  lemma SendShrinks(t: Le, peer: Address, frame: HidFrame, outcome: TrySend, p: Address)
    ensures FewerSubs(SentTo(t, peer, frame, outcome), t, p)
  {
    ForgetShrinks(t, peer, frame.ReportId(), None, p);
    hide SubForgotten, Fails;
  }

  lemma {:induction false} SendEachShrinks(t: Le, peer: Address, frames: seq<HidFrame>, outcomes: seq<TrySend>,
                                           p: Address)
    ensures FewerSubs(SendEach(t, peer, frames, outcomes).0, t, p)
    decreases |frames|
  {
    if frames != [] {
      var n := |frames| - 1;
      SendEachShrinks(t, peer, frames[..n], outcomes, p);
      SendShrinks(SendEach(t, peer, frames[..n], outcomes).0, peer, frames[n], OutcomeAt(outcomes, n), p);
      hide SentTo, SendResult;
    }
  }

  lemma EveryFrameHasAnInputReport(frame: HidFrame)
    ensures frame.ReportId() in INPUT_REPORT_IDS
  {
    assert INPUT_REPORT_IDS[0] == REPORT_ID_KEYBOARD && INPUT_REPORT_IDS[1] == REPORT_ID_MOUSE
        && INPUT_REPORT_IDS[2] == REPORT_ID_CONSUMER;
  }

  lemma PushKeepsOrder(b: Buffer, frame: HidFrame, given: seq<HidFrame>, routed: seq<HidFrame>, id: byte)
    requires Embeds(given + Of(b.frames, id), routed)
    ensures Embeds(given + Of(Pushed(b, frame).0.frames, id), routed + if frame.ReportId() == id then [frame] else [])
  {
    hide Of, Embeds;
    var tail := if frame.ReportId() == id then [frame] else [];
    var held := Of(b.frames, id);
    if IsMotionOnly(frame, b.lastButtons) {
      EmbedsMore(given + held, routed, tail);
    } else {
      PushedOf(b, frame, id);
      var after := Of(Pushed(b, frame).0.frames, id);
      hide Pushed;
      EmbedsSame(given + held, routed, tail);
      assert given + held + tail == given + (held + tail);
      if after != held + tail {
        EmbedsWithout(given, held, routed);
        EmbedsSame(given + held[1..], routed, tail);
        assert given + held[1..] + tail == given + (held[1..] + tail);
      }
    }
  }

  /** The ways a step can leave what is held, given and routed for one report. */
  lemma HandoverKeepsOrder(m: Mgr, m1: Mgr, log: Log, more: Log, p: Address, id: byte)
    requires InOrder(m, log, p, id)
    requires Frames(more, Handovers, p, id) + HeldOf(m1, p, id) == HeldOf(m, p, id) + Frames(more, Routings, p, id)
          || (Frames(more, Handovers, p, id) == [] && HeldOf(m1, p, id) == [])
    ensures InOrder(m1, log + more, p, id)
  {
    hide Frames, HeldOf, Embeds;
    FramesConcat(log, more, Handovers, p, id);
    FramesConcat(log, more, Routings, p, id);
    var given, routed := Frames(log, Handovers, p, id), Frames(log, Routings, p, id);
    var newGiven, newRouted := Frames(more, Handovers, p, id), Frames(more, Routings, p, id);
    if newGiven + HeldOf(m1, p, id) == HeldOf(m, p, id) + newRouted {
      EmbedsSame(given + HeldOf(m, p, id), routed, newRouted);
      assert given + newGiven + HeldOf(m1, p, id) == given + (newGiven + HeldOf(m1, p, id));
      assert given + HeldOf(m, p, id) + newRouted == given + (HeldOf(m, p, id) + newRouted);
    } else {
      EmbedsFront(given, HeldOf(m, p, id), routed);
      EmbedsMore(given, routed, newRouted);
      assert given + newGiven + HeldOf(m1, p, id) == given;
    }
  }

  lemma QuietKeepsOrder(m: Mgr, m1: Mgr, log: Log, more: Log, p: Address, id: byte)
    requires InOrder(m, log, p, id) && Quiet(more)
    requires m1.pending == m.pending || HeldOf(m1, p, id) == []
    ensures InOrder(m1, log + more, p, id)
  {
    QuietShowsNothing(more, Handovers, p, id);
    QuietShowsNothing(more, Routings, p, id);
    hide InOrder, Frames, Quiet;
    HandoverKeepsOrder(m, m1, log, more, p, id);
  }

  lemma QuietKeepsNoLeftover(m: Mgr, t: Le, m1: Mgr, t1: Le)
    requires NoLeftover(m, t)
    requires m1.pending == m.pending || m1.pending == None || (m1.pending.Some? && m1.pending.value.buffer.frames == [])
    requires m.pending.Some? ==> FewerSubs(t1, t, m.pending.value.addr)
    ensures NoLeftover(m1, t1)
  {
  }

  lemma RouteFrameKeepsOrder(m: Mgr, t: Le, slot: Slot, frame: HidFrame, outcome: TrySend, log: Log, p: Address,
                             id: byte)
    requires NoLeftover(m, t) && InOrder(m, log, p, id)
    ensures var (m1, t1, more) := RouteFrame(m, t, slot, frame, outcome); InOrder(m1, log + more, p, id)
  {
    hide Of, Embeds, Pushed, SentTo, SendResult, NoLeftover, InOrder, Fails;
    var (m1, t1, more) := RouteFrame(m, t, slot, frame, outcome);
    if slot !in m.bindings {
      QuietKeepsOrder(m, m1, log, more, p, id);
    } else if |more| == 2 {
      var peer := m.bindings[slot];
      GivenKeepsOrder(m, t, peer, frame, SendResult(t, peer, frame, outcome), log, p, id);
    } else {
      HeldKeepsOrder(m, m1, more[0], frame, log, p, id);
      assert more == [more[0]];
    }
  }

  lemma GivenKeepsOrder(m: Mgr, t: Le, peer: Address, frame: HidFrame, result: Sent, log: Log, p: Address, id: byte)
    requires NoLeftover(m, t) && InOrder(m, log, p, id)
    requires m.pending.Some? && m.pending.value.addr == peer ==> t.IsSubscribed(peer, frame.ReportId())
    ensures InOrder(m, log + [Routed(peer, frame, GivenNow), Given(peer, frame, result)], p, id)
  {
    hide Of, InOrder, Frames;
    var e, f := Routed(peer, frame, GivenNow), Given(peer, frame, result);
    FramesTwo(e, f, Handovers, p, id);
    FramesTwo(e, f, Routings, p, id);
    EveryFrameHasAnInputReport(frame);
    assert Shown(e, Routings, p, id) != [] ==> HeldOf(m, p, id) == [];
    HandoverKeepsOrder(m, m, log, [e, f], p, id);
  }

  lemma HeldKeepsOrder(m: Mgr, m1: Mgr, e: Entry, frame: HidFrame, log: Log, p: Address, id: byte)
    requires InOrder(m, log, p, id) && m.pending.Some?
    requires e.Routed? && e.peer == m.pending.value.addr && e.frame == frame && e.fate != GivenNow
    requires m1.pending == Some(m.pending.value.(buffer := Pushed(m.pending.value.buffer, frame).0))
    ensures InOrder(m1, log + [e], p, id)
  {
    hide Of, Embeds, Pushed;
    FramesConcat(log, [e], Handovers, p, id);
    FramesConcat(log, [e], Routings, p, id);
    FramesOne(e, Handovers, p, id);
    FramesOne(e, Routings, p, id);
    var given, routed := Frames(log, Handovers, p, id), Frames(log, Routings, p, id);
    assert given + [] == given && routed + [] == routed;
    if p == m.pending.value.addr {
      PushKeepsOrder(m.pending.value.buffer, frame, given, routed, id);
    }
  }

  lemma RouteFrameKeepsNoLeftover(m: Mgr, t: Le, slot: Slot, frame: HidFrame, outcome: TrySend)
    requires NoLeftover(m, t)
    ensures var (m1, t1, more) := RouteFrame(m, t, slot, frame, outcome); NoLeftover(m1, t1)
  {
    hide Of, SendResult;
    var (m1, t1, more) := RouteFrame(m, t, slot, frame, outcome);
    if slot in m.bindings {
      var peer := m.bindings[slot];
      if m.pending.Some? {
        SendShrinks(t, peer, frame, outcome, m.pending.value.addr);
        hide SentTo;
        if m.pending.value.addr == peer && !t.IsSubscribed(peer, frame.ReportId()) {
          forall id | id in INPUT_REPORT_IDS && t.IsSubscribed(peer, id)
            ensures Of(m1.pending.value.buffer.frames, id) == []
          {
            PushLeavesOthers(m.pending.value.buffer, frame, id);
          }
        }
      }
    }
  }

  lemma PushLeavesOthers(b: Buffer, frame: HidFrame, id: byte)
    requires Of(b.frames, id) == [] && frame.ReportId() != id
    ensures Of(Pushed(b, frame).0.frames, id) == []
  {
    hide Of;
    if !IsMotionOnly(frame, b.lastButtons) {
      PushedOf(b, frame, id);
    }
  }

  lemma {:induction false} RouteAllKeepsOrder(m: Mgr, t: Le, queue: seq<Waiting>, log: Log, p: Address, id: byte)
    requires NoLeftover(m, t) && InOrder(m, log, p, id)
    ensures var (m1, t1, more) := RouteAll(m, t, queue); NoLeftover(m1, t1) && InOrder(m1, log + more, p, id)
    decreases |queue|
  {
    hide NoLeftover, InOrder, RouteFrame;
    if queue == [] {
      assert log + [] == log;
    } else {
      var q := queue[|queue| - 1];
      var (m1, t1, more) := RouteAll(m, t, queue[..|queue| - 1]);
      RouteAllKeepsOrder(m, t, queue[..|queue| - 1], log, p, id);
      RouteFrameKeepsOrder(m1, t1, q.slot, q.frame, q.outcome, log + more, p, id);
      RouteFrameKeepsNoLeftover(m1, t1, q.slot, q.frame, q.outcome);
      var rest := RouteFrame(m1, t1, q.slot, q.frame, q.outcome).2;
      assert log + (more + rest) == (log + more) + rest;
    }
  }

  // ---- Replay ----------------------------------------------------------------------------

  lemma {:induction false} SendEachShows(t: Le, peer: Address, frames: seq<HidFrame>, outcomes: seq<TrySend>,
                                         p: Address, id: byte)
    ensures var log := SendEach(t, peer, frames, outcomes).1;
      Frames(log, Handovers, p, id) == (if p == peer then Of(frames, id) else []) && Frames(log, Routings, p, id) == []
    decreases |frames|
  {
    hide Of, SentTo, SendResult;
    if frames == [] {
      assert Of([], id) == [];
    } else {
      var n := |frames| - 1;
      var (t1, log) := SendEach(t, peer, frames[..n], outcomes);
      SendEachShows(t, peer, frames[..n], outcomes, p, id);
      var e := Given(peer, frames[n], SendResult(t1, peer, frames[n], OutcomeAt(outcomes, n)));
      assert SendEach(t, peer, frames, outcomes).1 == log + [e];
      FramesConcat(log, [e], Handovers, p, id);
      FramesConcat(log, [e], Routings, p, id);
      FramesOne(e, Handovers, p, id);
      FramesOne(e, Routings, p, id);
      assert frames == frames[..n] + [frames[n]];
      OfSnoc(frames[..n], frames[n], id);
    }
  }

  lemma {:induction false} OfOf(frames: seq<HidFrame>, id: byte, other: byte)
    ensures Of(Of(frames, id), other) == if other == id then Of(frames, id) else []
  {
    if frames != [] {
      var rest := Of(frames[1..], id);
      OfOf(frames[1..], id, other);
      assert ([frames[0]] + rest)[1..] == rest;
      assert [] + rest == rest;
    }
  }

  /** Every report but this one respects `NoLeftover`: the host has only just enabled it. */
  predicate NoLeftoverBut(m: Mgr, t: Le, id: byte) {
    m.pending.Some? ==>
      forall other :: other in INPUT_REPORT_IDS && other != id && t.IsSubscribed(m.pending.value.addr, other) ==>
        Of(m.pending.value.buffer.frames, other) == []
  }

  /** What a replay turn does to the frames of one report, when the host is the awaited one. */
  lemma ReplayShows(m: Mgr, t: Le, peer: Address, id: byte, outcomes: seq<TrySend>, other: byte)
    requires m.pending.Some? && m.pending.value.addr == peer && t.IsSubscribed(peer, id)
    requires NoLeftoverBut(m, t, id) && id in INPUT_REPORT_IDS
    ensures var (m1, t1, more) := OnSubscribed(m, t, peer, id, outcomes);
      Frames(more, Handovers, peer, other) + HeldOf(m1, peer, other) == HeldOf(m, peer, other)
      && Frames(more, Routings, peer, other) == []
  {
    hide NoLeftoverBut, FewerSubs, SendEach, Of, Without, Frames, Le.FullyAttached, Le.IsSubscribed;
    var held := m.pending.value.buffer.frames;
    var frames := Of(held, id);
    var (t1, log) := SendEach(t, peer, frames, outcomes);
    SendEachShows(t, peer, frames, outcomes, peer, other);
    assert OnSubscribed(m, t, peer, id, outcomes).2 == log;
    var m1 := OnSubscribed(m, t, peer, id, outcomes).0;
    assert m1.pending.Some? ==> m1.pending.value.addr == peer && m1.pending.value.buffer.frames == Without(held, id);
    assert m1.pending.None? ==> t1.FullyAttached(peer);
    hide OnSubscribed;
    OtherReportsUntouched(held, id, other);
    OfOf(held, id, other);
    if t1.FullyAttached(peer) && other != id {
      SendEachShrinks(t, peer, frames, outcomes, peer);
      AttachedBefore(t1, t, peer);
      FullyAttachedHoldsNothing(m, t, id, other);
    }
  }

  lemma AttachedBefore(t1: Le, t: Le, p: Address)
    requires FewerSubs(t1, t, p) && t1.FullyAttached(p)
    ensures t.FullyAttached(p)
  {
  }

  lemma FullyAttachedHoldsNothing(m: Mgr, t: Le, id: byte, other: byte)
    requires m.pending.Some? && NoLeftoverBut(m, t, id) && other != id
    requires t.FullyAttached(m.pending.value.addr)
    ensures Of(m.pending.value.buffer.frames, other) == []
  {
    var held := Of(m.pending.value.buffer.frames, other);
    hide Of;
    if held != [] {
      assert held[0] in held;
      EveryFrameHasAnInputReport(held[0]);
    }
  }

  lemma ReplayGoesToThePeer(m: Mgr, t: Le, peer: Address, id: byte, outcomes: seq<TrySend>, p: Address, other: byte)
    requires m.pending.Some? && m.pending.value.addr == peer && t.IsSubscribed(peer, id) && p != peer
    ensures var (m1, t1, more) := OnSubscribed(m, t, peer, id, outcomes);
      Frames(more, Handovers, p, other) == [] && HeldOf(m1, p, other) == [] && HeldOf(m, p, other) == []
      && Frames(more, Routings, p, other) == []
  {
    hide Of, Without, SendEach;
    SendEachShows(t, peer, Of(m.pending.value.buffer.frames, id), outcomes, p, other);
  }

  lemma OnSubscribedKeepsOrder(m: Mgr, t: Le, peer: Address, id: byte, outcomes: seq<TrySend>, log: Log, p: Address,
                               other: byte)
    requires NoLeftoverBut(m, t, id) && InOrder(m, log, p, other) && id in INPUT_REPORT_IDS
    ensures var (m1, t1, more) := OnSubscribed(m, t, peer, id, outcomes); InOrder(m1, log + more, p, other)
  {
    var (m1, t1, more) := OnSubscribed(m, t, peer, id, outcomes);
    if m.pending.None? || m.pending.value.addr != peer || !t.IsSubscribed(peer, id) {
      QuietKeepsOrder(m, m1, log, more, p, other);
    } else {
      if p == peer {
        ReplayShows(m, t, peer, id, outcomes, other);
      } else {
        ReplayGoesToThePeer(m, t, peer, id, outcomes, p, other);
      }
      hide InOrder, Frames, OnSubscribed, HeldOf, NoLeftoverBut;
      assert HeldOf(m, p, other) + [] == HeldOf(m, p, other);
      HandoverKeepsOrder(m, m1, log, more, p, other);
    }
  }

  // ---- Whole turns -----------------------------------------------------------------------

  lemma SubscribeKeepsOthers(m: Mgr, t: Le, peer: Address, id: byte)
    requires NoLeftover(m, t)
    ensures NoLeftoverBut(m, Subscribed(t, peer, id).0, id)
  {
    hide Of;
  }

  lemma IncomingKeepsOthers(m: Mgr, t: Le, m1: Mgr, t1: Le, peer: Address, id: byte)
    requires NoLeftoverBut(m, t, id) && m1.pending == m.pending && (t1 == t || t1 == PeerDropped(t, peer))
    ensures NoLeftoverBut(m1, t1, id)
  {
    hide Of;
  }

  lemma OnSubscribedKeepsNoLeftover(m: Mgr, t: Le, peer: Address, id: byte, outcomes: seq<TrySend>)
    requires NoLeftoverBut(m, t, id)
    requires m.pending.Some? && m.pending.value.addr != peer ==> NoLeftover(m, t)
    ensures var (m1, t1, more) := OnSubscribed(m, t, peer, id, outcomes); NoLeftover(m1, t1)
  {
    hide Of, Without, SendEach;
    if m.pending.Some? && m.pending.value.addr == peer && t.IsSubscribed(peer, id) {
      var held := m.pending.value.buffer.frames;
      var t1 := SendEach(t, peer, Of(held, id), outcomes).0;
      SendEachShrinks(t, peer, Of(held, id), outcomes, peer);
      forall other | other in INPUT_REPORT_IDS && t1.IsSubscribed(peer, other)
        ensures Of(Without(held, id), other) == []
      {
        OtherReportsUntouched(held, id, other);
      }
    }
  }

  lemma SubscribeTurnKeepsOrder(m: Mgr, t: Le, turn: Turn, log: Log, p: Address, id: byte)
    requires turn.SubscribeTurn? && turn.id in INPUT_REPORT_IDS
    requires NoLeftover(m, t) && InOrder(m, log, p, id)
    ensures var (m1, t1, more) := OnSubscribeTurn(m, t, turn); NoLeftover(m1, t1) && InOrder(m1, log + more, p, id)
  {
    hide InOrder, NoLeftoverBut, OnSubscribed, OnIncomingPeer;
    var (t1, first) := Subscribed(t, turn.peer, turn.id);
    SubscribeKeepsOthers(m, t, turn.peer, turn.id);
    var (m2, t2, more) :=
      if first then OnIncomingPeer(m, t1, turn.peer, turn.bonded, turn.links, turn.adv, turn.at) else (m, t1, []);
    IncomingKeepsOthers(m, t1, m2, t2, turn.peer, turn.id);
    QuietKeepsOrder(m, m2, log, more, p, id);
    OthersNotTouched(m, t, turn.peer, turn.id, m2, t2);
    hide Subscribed, NoLeftover;
    OnSubscribedKeepsOrder(m2, t2, turn.peer, turn.id, turn.outcomes, log + more, p, id);
    OnSubscribedKeepsNoLeftover(m2, t2, turn.peer, turn.id, turn.outcomes);
    var rest := OnSubscribed(m2, t2, turn.peer, turn.id, turn.outcomes).2;
    assert log + (more + rest) == (log + more) + rest;
  }

  lemma OthersNotTouched(m: Mgr, t: Le, peer: Address, id: byte, m2: Mgr, t2: Le)
    requires NoLeftover(m, t) && m2.pending == m.pending
    requires var t1 := Subscribed(t, peer, id).0; t2 == t1 || t2 == PeerDropped(t1, peer)
    ensures m2.pending.Some? && m2.pending.value.addr != peer ==> NoLeftover(m2, t2)
  {
    hide Of;
  }

  lemma SwitchTurnKeepsOrder(m: Mgr, t: Le, slot: Slot, queue: seq<Waiting>, links: set<Address>, adv: AdvAnswers,
                             at: int, log: Log, p: Address, id: byte)
    requires NoLeftover(m, t) && InOrder(m, log, p, id)
    ensures var (m1, t1, more) := OnSlotChange(m, t, slot, queue, links, adv, at);
      NoLeftover(m1, t1) && InOrder(m1, log + more, p, id)
  {
    hide InOrder, NoLeftover, RouteAll, ApplyAdvertising;
    var m0 := m.(active := slot);
    SamePendingKeeps(m, m0, t, log, p, id);
    if !m.single {
      assert log + [] == log;
    } else {
      RouteAllKeepsOrder(m0, t, queue, log, p, id);
      var (m1, t1, routed) := RouteAll(m0, t, queue);
      var (m2, t2, more) := OnSlotChange(m, t, slot, queue, links, adv, at);
      ArmedPending(m1, t1, at, p, id);
      assert m2.pending == ArmPending(m1, t1, at).pending;
      assert more[..|routed|] == routed;
      var rest := more[|routed|..];
      assert Quiet(rest) && more == routed + rest;
      assert log + more == (log + routed) + rest;
      assert t2 == t1 || t2 == PeerDropped(t1, m.ActiveHost().value);
      hide OnSlotChange, ArmPending;
      QuietKeepsOrder(m1, m2, log + routed, rest, p, id);
      SwitchDropsOnly(m1, t1, m2, t2);
    }
  }

  lemma SamePendingKeeps(m: Mgr, m1: Mgr, t: Le, log: Log, p: Address, id: byte)
    requires NoLeftover(m, t) && InOrder(m, log, p, id) && m1.pending == m.pending
    ensures NoLeftover(m1, t) && InOrder(m1, log, p, id)
  {
    hide Of, Embeds;
  }

  lemma ArmedPending(m: Mgr, t: Le, now: int, p: Address, id: byte)
    ensures var m1 := ArmPending(m, t, now);
      (m1.pending.None? || (m1.pending.value.buffer == EMPTY && m1.ActiveHost() == Some(m1.pending.value.addr)))
      && HeldOf(m1, p, id) == []
  {
  }

  lemma SwitchDropsOnly(m: Mgr, t: Le, m1: Mgr, t1: Le)
    requires NoLeftover(m, t) && (m1.pending.None? || m1.pending.value.buffer.frames == [])
    ensures NoLeftover(m1, t1)
  {
  }

  lemma TickIsQuiet(m: Mgr, t: Le, answers: TickAnswers, now: int)
    ensures var (m1, t1, more) := Tick(m, t, answers, now);
      Quiet(more) && (m1.pending == m.pending || m1.pending == None)
      && forall p :: FewerSubs(t1, t, p)
  {
    hide PollWindow, PollUninvited, ApplyAdvertising, PollStuckHosts, ToldFrom;
  }

  lemma TurnKeepsOrder(m: Mgr, t: Le, turn: Turn, log: Log, p: Address, id: byte)
    requires turn.SubscribeTurn? ==> turn.id in INPUT_REPORT_IDS
    requires NoLeftover(m, t) && InOrder(m, log, p, id)
    ensures var (m1, t1, more) := TakeTurn(m, t, turn); NoLeftover(m1, t1) && InOrder(m1, log + more, p, id)
  {
    hide NoLeftover, InOrder, RouteFrame, OnSlotChange, OnSubscribeTurn, Tick, SubForgotten, OpenWindow, RepairSlot,
      Quiet, HeldOf, FewerSubs;
    var (m1, t1, more) := TakeTurn(m, t, turn);
    match turn {
      case FrameTurn(slot, frame, outcome, _) =>
        RouteFrameKeepsOrder(m, t, slot, frame, outcome, log, p, id);
        RouteFrameKeepsNoLeftover(m, t, slot, frame, outcome);
      case SwitchTurn(slot, queue, links, adv, at) =>
        SwitchTurnKeepsOrder(m, t, slot, queue, links, adv, at, log, p, id);
      case SubscribeTurn(_, _, _, _, _, _, _) =>
        SubscribeTurnKeepsOrder(m, t, turn, log, p, id);
      case CloseTurn(peer, i, generation, _) =>
        ClosedKeeps(m, t, peer, i, generation);
        assert log + [] == log;
      case OpenTurn(_, _, _, _, _) =>
        SamePendingKeeps(m, m1, t, log, p, id);
        assert log + [] == log;
      case RepairTurn(_, _, _, _, _) =>
        SamePendingKeeps(m, m1, t, log, p, id);
        assert log + [] == log;
      case TickTurn(answers, at) =>
        TickKeeps(m, t, answers, at, log, p, id);
    }
  }

  lemma ClosedKeeps(m: Mgr, t: Le, peer: Address, id: byte, generation: nat)
    requires NoLeftover(m, t)
    ensures NoLeftover(m, SubForgotten(t, peer, id, Some(generation)))
  {
    if m.pending.Some? {
      ForgetShrinks(t, peer, id, Some(generation), m.pending.value.addr);
    }
    hide SubForgotten, Of;
  }

  lemma TickKeeps(m: Mgr, t: Le, answers: TickAnswers, now: int, log: Log, p: Address, id: byte)
    requires NoLeftover(m, t) && InOrder(m, log, p, id)
    ensures var (m1, t1, more) := Tick(m, t, answers, now); NoLeftover(m1, t1) && InOrder(m1, log + more, p, id)
  {
    hide NoLeftover, InOrder, Tick, Quiet;
    TickIsQuiet(m, t, answers, now);
    var (m1, t1, more) := Tick(m, t, answers, now);
    QuietKeepsOrder(m, m1, log, more, p, id);
    QuietKeepsNoLeftover(m, t, m1, t1);
  }

  /** Hosts subscribe to input reports only. */
  predicate InputReports(turns: seq<Turn>) {
    forall turn :: turn in turns && turn.SubscribeTurn? ==> turn.id in INPUT_REPORT_IDS
  }

  lemma {:induction false} RunKeepsOrder(m: Mgr, t: Le, turns: seq<Turn>, p: Address, id: byte)
    requires NoLeftover(m, t) && InOrder(m, [], p, id) && InputReports(turns)
    ensures var (m1, t1, log) := RunTurns(m, t, turns); NoLeftover(m1, t1) && InOrder(m1, log, p, id)
  {
    hide TakeTurn, NoLeftover, InOrder;
    if turns != [] {
      var before, last := turns[..|turns| - 1], turns[|turns| - 1];
      assert last in turns;
      RunKeepsOrder(m, t, before, p, id);
      var (m1, t1, log) := RunTurns(m, t, before);
      TurnKeepsOrder(m1, t1, last, log, p, id);
    }
  }

  /**
   At every loop boundary since the start, nothing is held for a report its host has enabled,
   and what was handed to the transport, followed by what is held, is an in-order subsequence
   of what was routed, each frame at most once: through switches, failures and timeouts.
  */
  lemma FramesStayInOrder(single: bool, bindings: Bindings, active: Slot, links: set<Address>, answers: AdvAnswers,
                          now: int,
                          turns: seq<Turn>, p: Address, id: byte)
    requires InputReports(turns)
    ensures var (m, t, log) := RunTurns(Boot(single, bindings, active, links, answers, now), NO_PEERS, turns);
      NoLeftover(m, t)
      && Embeds(Frames(log, Handovers, p, id) + HeldOf(m, p, id), Frames(log, Routings, p, id))
  {
    hide ApplyAdvertising, RunTurns;
    var m := ApplyAdvertising(Start(single, bindings, active), ConnectedHosts(bindings, links), answers);
    ArmedPending(m, NO_PEERS, now, p, id);
    var m0 := Boot(single, bindings, active, links, answers, now);
    assert m0 == ArmPending(m, NO_PEERS, now);
    assert NoLeftover(m0, NO_PEERS);
    hide Boot, ArmPending;
    NothingYetIsInOrder(m0, p, id);
    RunKeepsOrder(m0, NO_PEERS, turns, p, id);
    hide Embeds;
  }

  lemma NothingYetIsInOrder(m: Mgr, p: Address, id: byte)
    requires HeldOf(m, p, id) == []
    ensures InOrder(m, [], p, id)
  {
    var given := Frames([], Handovers, p, id) + HeldOf(m, p, id);
    assert given == [];
    assert Picks([], given, Frames([], Routings, p, id));
  }
}
