/**
 What a slot switch does to frames. It drains the queue first, while nothing is held for the new
 host yet. So frames queued for a host that has the report enabled arrive, such as the releases
 for the host being left; all other frames queued, and all frames held, are lost. The frame that
 brings the switch is routed after them, so it can be overtaken.
*/
module SwitchLosses {
  import opened Wrappers
  import opened HidReports
  import opened Replay
  import opened Gatt
  import opened ManagerSpec
  import opened HeldFrames
  import opened Thinning
  import opened ReplayDelivery

  /** Frames in the queue for this host and report. */
  function QueuedFor(bindings: Bindings, queue: seq<Waiting>, p: Address, id: byte): seq<HidFrame> {
    if queue == [] then []
    else QueuedFor(bindings, queue[..|queue| - 1], p, id) + Addressed(bindings, queue[|queue| - 1], p, id)
  }

  function Addressed(bindings: Bindings, q: Waiting, p: Address, id: byte): seq<HidFrame> {
    if q.slot in bindings && bindings[q.slot] == p && q.frame.ReportId() == id then [q.frame] else []
  }

  predicate NoFailedSend(log: Log, p: Address) {
    forall e :: e in log && e.Given? && e.peer == p ==> !e.result.Failed?
  }

  lemma FramesOfNothing(v: View, p: Address, id: byte)
    ensures Frames([], v, p, id) == []
  {
  }

  // ---- What a drained frame shows --------------------------------------------------------

  lemma RoutedShows(m: Mgr, t: Le, q: Waiting, v: View, p: Address, id: byte)
    ensures var more, mine := RouteFrame(m, t, q.slot, q.frame, q.outcome).2, Addressed(m.bindings, q, p, id);
      (v.Routings? ==> Frames(more, v, p, id) == mine)
      && (v.Handovers? ==> Frames(more, v, p, id) == [] || Frames(more, v, p, id) == mine)
  {
    var more := RouteFrame(m, t, q.slot, q.frame, q.outcome).2;
    hide Pushed, SendResult, SentTo, Frames;
    if |more| == 0 {
      FramesOfNothing(v, p, id);
    } else if |more| == 1 {
      FramesOne(more[0], v, p, id);
    } else {
      FramesTwo(more[0], more[1], v, p, id);
    }
  }

  lemma DeliveryShows(m: Mgr, t: Le, q: Waiting, p: Address, id: byte)
    ensures var (_, _, more) := RouteFrame(m, t, q.slot, q.frame, q.outcome);
      Frames(more, Deliveries, p, id) ==
      if t.IsSubscribed(p, id) && SendResult(t, p, q.frame, q.outcome).Delivered?
      then Addressed(m.bindings, q, p, id) else []
  {
    var more := RouteFrame(m, t, q.slot, q.frame, q.outcome).2;
    hide Pushed, Fails, SentTo, Frames;
    if |more| == 0 {
      FramesOfNothing(Deliveries, p, id);
    } else if |more| == 1 {
      FramesOne(more[0], Deliveries, p, id);
    } else {
      FramesTwo(more[0], more[1], Deliveries, p, id);
    }
  }

  /** What the drain routes is what was queued, and what it hands over is part of that. */
  lemma {:induction false} DrainRoutesTheQueue(m: Mgr, t: Le, queue: seq<Waiting>, p: Address, id: byte)
    ensures var log := RouteAll(m, t, queue).2;
      Frames(log, Routings, p, id) == QueuedFor(m.bindings, queue, p, id)
      && Embeds(Frames(log, Handovers, p, id), QueuedFor(m.bindings, queue, p, id))
    decreases |queue|
  {
    hide RouteFrame, Frames, Addressed;
    if queue == [] {
      FramesOfNothing(Routings, p, id);
      FramesOfNothing(Handovers, p, id);
      assert Picks([], Frames([], Handovers, p, id), QueuedFor(m.bindings, queue, p, id));
    } else {
      hide Embeds;
      var rest, q := queue[..|queue| - 1], queue[|queue| - 1];
      DrainRoutesTheQueue(m, t, rest, p, id);
      var (m1, t1, log) := RouteAll(m, t, rest);
      var more := RouteFrame(m1, t1, q.slot, q.frame, q.outcome).2;
      RoutedShows(m1, t1, q, Routings, p, id);
      RoutedShows(m1, t1, q, Handovers, p, id);
      FramesConcat(log, more, Routings, p, id);
      FramesConcat(log, more, Handovers, p, id);
      var handed, queued := Frames(log, Handovers, p, id), QueuedFor(m.bindings, rest, p, id);
      var mine := Addressed(m.bindings, q, p, id);
      EmbedsSame(handed, queued, mine);
      EmbedsMore(handed, queued, mine);
      assert handed + [] == handed;
    }
  }

  // ---- A report that is not enabled ------------------------------------------------------

  lemma RoutingSubscribesNobody(m: Mgr, t: Le, q: Waiting, p: Address, id: byte)
    requires !t.IsSubscribed(p, id)
    ensures !RouteFrame(m, t, q.slot, q.frame, q.outcome).1.IsSubscribed(p, id)
  {
    hide Pushed, Fails;
  }

  /** Whatever else is going on, a frame drained for a report that is not enabled does not arrive. */
  lemma {:induction false} UnreadyFramesAreLost(m: Mgr, t: Le, queue: seq<Waiting>, p: Address, id: byte)
    requires !t.IsSubscribed(p, id)
    ensures var (_, t1, log) := RouteAll(m, t, queue);
      !t1.IsSubscribed(p, id) && Frames(log, Deliveries, p, id) == []
    decreases |queue|
  {
    hide RouteFrame, Frames, Le.IsSubscribed;
    FramesOfNothing(Deliveries, p, id);
    if queue != [] {
      var rest, q := queue[..|queue| - 1], queue[|queue| - 1];
      UnreadyFramesAreLost(m, t, rest, p, id);
      var (m1, t1, log) := RouteAll(m, t, rest);
      RoutingSubscribesNobody(m1, t1, q, p, id);
      DeliveryShows(m1, t1, q, p, id);
      FramesConcat(log, RouteFrame(m1, t1, q.slot, q.frame, q.outcome).2, Deliveries, p, id);
    }
  }

  // ---- A report that is enabled ----------------------------------------------------------

  lemma NoFailedSendInPart(log: Log, more: Log, p: Address)
    ensures NoFailedSend(log + more, p) <==> NoFailedSend(log, p) && NoFailedSend(more, p)
  {
    assert forall e :: e in log || e in more <==> e in log + more;
  }

  /**
   A drained frame that does not fail leaves the report enabled, and is delivered unless it only moves
   the pointer.
  */
  lemma ReadyFrameArrives(m: Mgr, t: Le, q: Waiting, p: Address, id: byte)
    requires t.IsSubscribed(p, id)
    requires NoFailedSend(RouteFrame(m, t, q.slot, q.frame, q.outcome).2, p)
    ensures var (_, t1, more), mine := RouteFrame(m, t, q.slot, q.frame, q.outcome), Addressed(m.bindings, q, p, id);
      t1.IsSubscribed(p, id)
      && (id == REPORT_ID_MOUSE ==>
            t1.ButtonsSent(p) == if mine == [] then t.ButtonsSent(p) else ButtonsAfter(q.frame, t.ButtonsSent(p)))
      && (Frames(more, Deliveries, p, id) == mine
          || (Frames(more, Deliveries, p, id) == [] && IsMotionOnly(q.frame, t.ButtonsSent(p))))
  {
    DeliveryShows(m, t, q, p, id);
    hide Pushed, SentTo, Fails, Frames;
    var more := RouteFrame(m, t, q.slot, q.frame, q.outcome).2;
    if |more| == 2 {
      var peer := m.bindings[q.slot];
      assert more[1] in more;
      if peer != p {
        SendElsewhere(t, peer, q.frame, q.outcome, p);
      } else {
        SendThatDoesNotFail(t, p, q.frame, q.outcome, id);
      }
    }
  }

  lemma {:induction false} ReadyFramesArrive(m: Mgr, t: Le, queue: seq<Waiting>, p: Address, id: byte)
    requires t.IsSubscribed(p, id) && NoFailedSend(RouteAll(m, t, queue).2, p)
    ensures
      var (_, t1, log), before := RouteAll(m, t, queue), t.ButtonsSent(p);
      var queued := QueuedFor(m.bindings, queue, p, id);
      t1.IsSubscribed(p, id) && Thins(Frames(log, Deliveries, p, id), queued, before)
      && (id == REPORT_ID_MOUSE ==> t1.ButtonsSent(p) == LastButtons(queued, before))
    decreases |queue|
  {
    hide RouteFrame, Frames, Addressed, NoFailedSend, Le.IsSubscribed, Le.ButtonsSent;
    FramesOfNothing(Deliveries, p, id);
    if queue != [] {
      var rest, q := queue[..|queue| - 1], queue[|queue| - 1];
      var (m1, t1, log) := RouteAll(m, t, rest);
      var more := RouteFrame(m1, t1, q.slot, q.frame, q.outcome).2;
      NoFailedSendInPart(log, more, p);
      ReadyFramesArrive(m, t, rest, p, id);
      ReadyFrameArrives(m1, t1, q, p, id);
      FramesConcat(log, more, Deliveries, p, id);
      ThinsOneMore(Frames(log, Deliveries, p, id), Frames(more, Deliveries, p, id), m.bindings, rest, q,
                   t1.ButtonsSent(p), t.ButtonsSent(p), p, id);
      assert queue == rest + [q];
    }
  }

  /** The drain one frame further. */
  lemma ThinsOneMore(delivered: seq<HidFrame>, more: seq<HidFrame>, bindings: Bindings, rest: seq<Waiting>, q: Waiting,
                     sent: bv8, before: bv8, p: Address, id: byte)
    requires Thins(delivered, QueuedFor(bindings, rest, p, id), before)
    requires id == REPORT_ID_MOUSE ==> sent == LastButtons(QueuedFor(bindings, rest, p, id), before)
    requires more == Addressed(bindings, q, p, id) || (more == [] && IsMotionOnly(q.frame, sent))
    ensures var queued, mine := QueuedFor(bindings, rest + [q], p, id), Addressed(bindings, q, p, id);
      Thins(delivered + more, queued, before)
      && (id == REPORT_ID_MOUSE ==>
            LastButtons(queued, before) == if mine == [] then sent else ButtonsAfter(q.frame, sent))
  {
    var queued := QueuedFor(bindings, rest, p, id);
    assert (rest + [q])[..|rest|] == rest && queued + [] == queued && delivered + [] == delivered;
    LastOfSnoc(queued, q.frame, before);
    hide QueuedFor, Thins, LastButtons, Lively;
    if Addressed(bindings, q, p, id) != [] {
      if more == [] {
        ThinsSkipping(delivered, queued, q.frame, before);
      } else {
        ThinsKeeping(delivered, queued, q.frame, before);
      }
    }
  }

  // ---- The whole switch ------------------------------------------------------------------

  /** Beyond the drain a switch routes and sends nothing. */
  lemma SwitchShowsTheDrain(m: Mgr, t: Le, turn: Turn, v: View, p: Address, id: byte)
    requires turn.SwitchTurn? && m.single
    ensures var drained, log := RouteAll(m.(active := turn.to), t, turn.queue).2, TakeTurn(m, t, turn).2;
      Frames(log, v, p, id) == Frames(drained, v, p, id) && (NoFailedSend(log, p) <==> NoFailedSend(drained, p))
  {
    hide RouteAll, ApplyAdvertising, ArmPending, Frames,
      RouteFrame, OnSubscribeTurn, Tick, SubForgotten, OpenWindow, RepairSlot;
    var drained := RouteAll(m.(active := turn.to), t, turn.queue).2;
    var log := TakeTurn(m, t, turn).2;
    var rest := log[|drained|..];
    assert log == drained + rest && Quiet(rest);
    NoFailedSendInPart(drained, rest, p);
    assert NoFailedSend(rest, p);
    hide TakeTurn, Quiet, NoFailedSend;
    QuietShowsNothing(rest, v, p, id);
    FramesConcat(drained, rest, v, p, id);
  }

  lemma ApplyingAdvertisingIsNoSwitch(m: Mgr, turn: Turn)
    requires turn.SwitchTurn?
    ensures var m1 := ApplyAdvertising(m, ConnectedHosts(m.bindings, turn.links), turn.adv);
      m1.pending == m.pending && m1.active == m.active && m1.bindings == m.bindings
  {
    hide ApplyAdvertising, ConnectedHosts;
  }

  /** The parts of a switch that matter for waiting: what is armed, and who is dropped. */
  lemma SwitchArmsAndDrops(m: Mgr, t: Le, turn: Turn)
    requires turn.SwitchTurn? && m.single
    ensures var (m1, t1, _) := RouteAll(m.(active := turn.to), t, turn.queue);
      var armed := ArmPending(m1, t1, turn.at);
      var (m2, t2, _) := TakeTurn(m, t, turn);
      m2.pending == armed.pending && m2.ActiveHost() == armed.ActiveHost() && m2.active == turn.to
      && (t2 == t1 || (m.ActiveHost().Some? && m.ActiveHost() != armed.ActiveHost()
                       && t2 == PeerDropped(t1, m.ActiveHost().value)))
  {
    hide RouteAll, ApplyAdvertising, ArmPending, PeerDropped, ConnectedHosts,
      RouteFrame, OnSubscribeTurn, Tick, SubForgotten, OpenWindow, RepairSlot, OnlyAdvertisingDiffers;
    var (m1, t1, _) := RouteAll(m.(active := turn.to), t, turn.queue);
    ApplyingAdvertisingIsNoSwitch(ArmPending(m1, t1, turn.at), turn);
  }

  /**
   Every switch turn in single mode, also one back to the slot it came from, throws away whatever
   was held for anybody: afterwards nothing is held, and what was handed over came from the queue.
  */
  lemma SwitchDropsWhatWasHeld(m: Mgr, t: Le, turn: Turn, p: Address, id: byte)
    requires turn.SwitchTurn? && m.single
    ensures var (m1, _, log) := TakeTurn(m, t, turn);
      HeldOf(m1, p, id) == []
      && Frames(log, Routings, p, id) == QueuedFor(m.bindings, turn.queue, p, id)
      && Embeds(Frames(log, Handovers, p, id), QueuedFor(m.bindings, turn.queue, p, id))
  {
    var m0 := m.(active := turn.to);
    var (m1, t1, _) := RouteAll(m0, t, turn.queue);
    SwitchArmsAndDrops(m, t, turn);
    ArmedPending(m1, t1, turn.at, p, id);
    hide TakeTurn, RouteAll, ArmPending, Frames, Embeds, QueuedFor, Of;
    SwitchShowsTheDrain(m, t, turn, Routings, p, id);
    SwitchShowsTheDrain(m, t, turn, Handovers, p, id);
    DrainRoutesTheQueue(m0, t, turn.queue, p, id);
  }

  /** Frames queued for a report that is not enabled are lost: for the new host, one awaited already, or any other. */
  lemma SwitchLosesUnreadyFrames(m: Mgr, t: Le, turn: Turn, p: Address, id: byte)
    requires turn.SwitchTurn? && m.single && !t.IsSubscribed(p, id)
    ensures Frames(TakeTurn(m, t, turn).2, Deliveries, p, id) == []
  {
    hide TakeTurn, RouteAll, Frames;
    SwitchShowsTheDrain(m, t, turn, Deliveries, p, id);
    UnreadyFramesAreLost(m.(active := turn.to), t, turn.queue, p, id);
  }

  /**
   Draining the queue first is what serves the host being left: what was queued for a host that has
   the report enabled, such as the router's releases, arrives before the host is dropped, less
   motion that a busy link swallows.
  */
  lemma SwitchServesTheHostBeingLeft(m: Mgr, t: Le, turn: Turn, p: Address, id: byte)
    requires turn.SwitchTurn? && m.single && t.IsSubscribed(p, id)
    requires NoFailedSend(TakeTurn(m, t, turn).2, p)
    ensures var log := TakeTurn(m, t, turn).2;
      Thins(Frames(log, Deliveries, p, id), QueuedFor(m.bindings, turn.queue, p, id), t.ButtonsSent(p))
  {
    hide TakeTurn, RouteAll, Frames, Thins, QueuedFor, NoFailedSend, Le.ButtonsSent, LastButtons;
    SwitchShowsTheDrain(m, t, turn, Deliveries, p, id);
    ReadyFramesArrive(m.(active := turn.to), t, turn.queue, p, id);
  }

  /**
   The loss, exactly. If no send to the host fails, what arrives of the queued frames says all they
   say if and only if the host has the report enabled, or they say nothing (they only move the pointer).
  */
  lemma QueuedFramesArriveExactlyWhen(m: Mgr, t: Le, turn: Turn, p: Address, id: byte)
    requires turn.SwitchTurn? && m.single
    requires NoFailedSend(TakeTurn(m, t, turn).2, p)
    ensures
      var arrived := Frames(TakeTurn(m, t, turn).2, Deliveries, p, id);
      var queued := QueuedFor(m.bindings, turn.queue, p, id);
      var before := t.ButtonsSent(p);
      Thins(arrived, queued, before) <==> t.IsSubscribed(p, id) || Thins([], queued, before)
  {
    hide TakeTurn, Frames, Thins, QueuedFor, NoFailedSend, Le.ButtonsSent;
    if t.IsSubscribed(p, id) {
      SwitchServesTheHostBeingLeft(m, t, turn, p, id);
    } else {
      SwitchLosesUnreadyFrames(m, t, turn, p, id);
    }
  }

  lemma {:induction false} QueuedAreOfReport(bindings: Bindings, queue: seq<Waiting>, p: Address, id: byte)
    ensures AllOf(QueuedFor(bindings, queue, p, id), id)
  {
    if queue != [] {
      QueuedAreOfReport(bindings, queue[..|queue| - 1], p, id);
    }
  }

  /**
   For keys and consumer keys: all queued frames arrive, in order, if and only if none are queued or
   the report is enabled.
  */
  lemma QueuedKeysArriveExactlyWhen(m: Mgr, t: Le, turn: Turn, p: Address, id: byte)
    requires turn.SwitchTurn? && m.single && id != REPORT_ID_MOUSE
    requires NoFailedSend(TakeTurn(m, t, turn).2, p)
    ensures
      var arrived := Frames(TakeTurn(m, t, turn).2, Deliveries, p, id);
      var queued := QueuedFor(m.bindings, turn.queue, p, id);
      arrived == queued <==> queued == [] || t.IsSubscribed(p, id)
  {
    hide TakeTurn, Frames, Thins, QueuedFor, NoFailedSend, Le.ButtonsSent;
    var arrived, queued := Frames(TakeTurn(m, t, turn).2, Deliveries, p, id), QueuedFor(m.bindings, turn.queue, p, id);
    QueuedFramesArriveExactlyWhen(m, t, turn, p, id);
    QueuedAreOfReport(m.bindings, turn.queue, p, id);
    KeysOnly(queued, id);
    ThinningKeepsKeys(arrived, queued, t.ButtonsSent(p));
    ThinningKeepsKeys([], queued, t.ButtonsSent(p));
    if !t.IsSubscribed(p, id) {
      SwitchLosesUnreadyFrames(m, t, turn, p, id);
    }
  }

  /**
   The input: while slot 2 is active, a frame for slot 3's host waits in the queue behind the one that
   brings the switch to slot 3, and the host is not connected. The frame is neither delivered nor held.
  */
  lemma QueuedFrameIsLost(frame: HidFrame, links: set<Address>, adv: AdvAnswers)
    ensures var m0 := Boot(true, map[2 := 10, 3 := 20], 2, {}, adv, 0);
      var turns := [SwitchTurn(3, [Waiting(3, frame, Accepted)], links, adv, 1)];
      var (m, _, log) := RunTurns(m0, NO_PEERS, turns);
      Frames(log, Routings, 20, frame.ReportId()) == [frame] && Frames(log, Deliveries, 20, frame.ReportId()) == []
      && HeldOf(m, 20, frame.ReportId()) == [] && m.ActiveHost() == Some(20)
  {
    var m0 := Boot(true, map[2 := 10, 3 := 20], 2, {}, adv, 0);
    var queue := [Waiting(3, frame, Accepted)];
    var turn := SwitchTurn(3, queue, links, adv, 1);
    assert m0.single && m0.bindings == map[2 := 10, 3 := 20] by { hide ApplyAdvertising; }
    hide Boot;
    assert QueuedFor(m0.bindings, queue, 20, frame.ReportId()) == [frame] by {
      assert queue[..0] == [] && QueuedFor(m0.bindings, [], 20, frame.ReportId()) == [];
    }
    hide TakeTurn, QueuedFor, Frames, HeldOf;
    OneTurn(m0, NO_PEERS, turn);
    SwitchDropsWhatWasHeld(m0, NO_PEERS, turn, 20, frame.ReportId());
    SwitchLosesUnreadyFrames(m0, NO_PEERS, turn, 20, frame.ReportId());
    SwitchActivates(m0, NO_PEERS, turn);
  }

  lemma OneTurn(m: Mgr, t: Le, turn: Turn)
    ensures RunTurns(m, t, [turn]) == TakeTurn(m, t, turn)
  {
    hide TakeTurn;
    assert [turn][..0] == [];
    assert [] + TakeTurn(m, t, turn).2 == TakeTurn(m, t, turn).2;
  }

  lemma SwitchActivates(m: Mgr, t: Le, turn: Turn)
    requires turn.SwitchTurn? && m.single
    ensures TakeTurn(m, t, turn).0.ActiveHost() == m.(active := turn.to).ActiveHost()
  {
    SwitchArmsAndDrops(m, t, turn);
    hide TakeTurn, RouteAll, ArmPending;
  }

  // ---- After the switch ------------------------------------------------------------------

  lemma ArmedAwaits(m: Mgr, t: Le, now: int, p: Address, id: byte)
    requires m.single
    ensures var armed := ArmPending(m, t, now);
      (armed.ActiveHost() == Some(p) ==> Awaited(armed, t, p)) && HeldOf(armed, p, id) == []
      && (armed.pending.Some? ==> armed.pending.value.buffer == EMPTY)
  {
    hide Le.FullyAttached;
    ArmedPending(m, t, now, p, id);
  }

  lemma DropKeepsAwaiting(m: Mgr, m1: Mgr, t: Le, host: Address, p: Address)
    requires Awaited(m, t, p) && host != p && m1.pending == m.pending
    ensures Awaited(m1, t, p) && Awaited(m1, PeerDropped(t, host), p)
  {
  }

  /** A switch leaves its host awaited or attached, with nothing held: the start of a calm run. */
  lemma SwitchAwaitsTheHost(m: Mgr, t: Le, turn: Turn, p: Address, id: byte)
    requires turn.SwitchTurn? && m.single
    ensures var (m1, t1, _) := TakeTurn(m, t, turn);
      m1.active == turn.to
      && (m1.pending.Some? ==> m1.pending.value.buffer == EMPTY)
      && (m1.ActiveHost() == Some(p) ==> Awaited(m1, t1, p) && HeldOf(m1, p, id) == [])
  {
    SwitchArmsAndDrops(m, t, turn);
    var (m1, t1, _) := RouteAll(m.(active := turn.to), t, turn.queue);
    var armed := ArmPending(m1, t1, turn.at);
    var (m2, t2, _) := TakeTurn(m, t, turn);
    RouteAllIsSingle(m.(active := turn.to), t, turn.queue);
    ArmedAwaits(m1, t1, turn.at, p, id);
    hide RouteAll, TakeTurn, ArmPending, PeerDropped, Awaited, Of;
    if m2.ActiveHost() == Some(p) {
      var left := if t2 == t1 then p + 1 else m.ActiveHost().value;
      DropKeepsAwaiting(armed, m2, t1, left, p);
    }
  }

  lemma RouteAllIsSingle(m: Mgr, t: Le, queue: seq<Waiting>)
    ensures RouteAll(m, t, queue).0.single == m.single
  {
  }

  /**
   From a switch through any calm run after it: what the new host got, followed by what is held for
   it, is what was routed to it since, less motion. For the mouse this takes a host that has the
   report enabled at the switch, or was last sent no button down, such as one not connected at all.
  */
  lemma OnlyMotionIsMissingAfterASwitch(m: Mgr, t: Le, turn: Turn, turns: seq<Turn>, p: Address, id: byte)
    requires turn.SwitchTurn? && m.single && NoLeftover(m, t) && PeersAreSubscribed(t)
    requires var (m1, t1, _) := TakeTurn(m, t, turn);
      m1.ActiveHost() == Some(p) && CalmRun(m1, t1, turns, p, id)
      && (id == REPORT_ID_MOUSE ==> t1.IsSubscribed(p, id) || t1.ButtonsSent(p) == 0)
    ensures var (m1, t1, _) := TakeTurn(m, t, turn);
      var (m2, _, log) := RunTurns(m1, t1, turns);
      var got, routed := Frames(log, Deliveries, p, id) + HeldOf(m2, p, id), Frames(log, Routings, p, id);
      var before := t1.ButtonsSent(p);
      Thins(got, routed, before) && ButtonChanges(got, before) == ButtonChanges(routed, before)
  {
    SwitchAwaitsTheHost(m, t, turn, p, id);
    TurnKeepsNoLeftover(m, t, turn);
    TurnKeepsSubscribed(m, t, turn);
    hide TakeTurn, NoLeftover, PeersAreSubscribed, Awaited, CalmRun, RunTurns, HeldOf, Frames, Thins,
      Le.ButtonsSent, ButtonChanges, LastButtons;
    var (m1, t1, _) := TakeTurn(m, t, turn);
    OnlyMotionIsMissing(m1, t1, turns, p, id, t1.ButtonsSent(p));
    var (m2, _, log) := RunTurns(m1, t1, turns);
    var got := Frames(log, Deliveries, p, id) + HeldOf(m2, p, id);
    ThinningKeepsButtons(got, Frames(log, Routings, p, id), t1.ButtonsSent(p));
  }

  // ---- Overtaking ------------------------------------------------------------------------

  /** The switch, and then the frame that brought it: the loop takes that frame off first but routes it last. */
  function SwitchAndBringer(m: Mgr, t: Le, turn: Turn, bringer: Waiting): (Mgr, Le, Log)
    requires turn.SwitchTurn?
  {
    var (m1, t1, log) := TakeTurn(m, t, turn);
    var (m2, t2, more) := TakeTurn(m1, t1, FrameTurn(bringer.slot, bringer.frame, bringer.outcome, turn.at));
    (m2, t2, log + more)
  }

  lemma SwitchKeepsBindings(m: Mgr, t: Le, turn: Turn)
    requires turn.SwitchTurn? && m.single
    ensures TakeTurn(m, t, turn).0.bindings == m.bindings
  {
    hide RouteAll, ApplyAdvertising, ArmPending, PeerDropped, ConnectedHosts,
      RouteFrame, OnSubscribeTurn, Tick, SubForgotten, OpenWindow, RepairSlot;
  }

  lemma BringerShows(m: Mgr, t: Le, turn: Turn, bringer: Waiting, v: View, p: Address, id: byte)
    requires turn.SwitchTurn?
    ensures var (m1, t1, log) := TakeTurn(m, t, turn);
      var more := RouteFrame(m1, t1, bringer.slot, bringer.frame, bringer.outcome).2;
      Frames(SwitchAndBringer(m, t, turn, bringer).2, v, p, id) == Frames(log, v, p, id) + Frames(more, v, p, id)
  {
    hide OnSlotChange, RouteFrame, Frames;
    var (m1, t1, log) := TakeTurn(m, t, turn);
    FramesConcat(log, RouteFrame(m1, t1, bringer.slot, bringer.frame, bringer.outcome).2, v, p, id);
  }

  lemma {:induction false} SameOnBothEnds<T>(x: T, s: seq<T>)
    ensures s + [x] == [x] + s <==> forall y :: y in s ==> y == x
  {
    if s != [] {
      SameOnBothEnds(x, s[1..]);
      assert forall y :: y in s <==> y == s[0] || y in s[1..];
      assert s + [x] == [s[0]] + (s[1..] + [x]);
      if s + [x] == [x] + s {
        assert s[0] == (s + [x])[0] == x;
        assert s[1..] + [x] == (s + [x])[1..] == ([x] + s)[1..] == s == [x] + s[1..];
      } else if s[0] == x {
        assert s == [x] + s[1..] && s + [x] == [x] + (s[1..] + [x]);
      } else {
        assert s[0] in s;
      }
    }
  }

  lemma BringerIsDelivered(m: Mgr, t: Le, q: Waiting, p: Address, id: byte)
    requires id != REPORT_ID_MOUSE && t.IsSubscribed(p, id) && q.frame.ReportId() == id
    requires q.slot in m.bindings && m.bindings[q.slot] == p
    requires NoFailedSend(RouteFrame(m, t, q.slot, q.frame, q.outcome).2, p)
    ensures Frames(RouteFrame(m, t, q.slot, q.frame, q.outcome).2, Deliveries, p, id) == [q.frame]
  {
    hide RouteFrame, Frames, NoFailedSend, Le.IsSubscribed, Le.ButtonsSent;
    ReadyFrameArrives(m, t, q, p, id);
  }

  /**
   Frames queued behind the frame that brings the switch are routed before it. A host that has the
   report enabled all along gets them first: in the order the router sent them if and only if every
   frame of that report queued for it is the same as the one that brought the switch.
  */
  lemma BringerIsOvertakenExactlyWhen(m: Mgr, t: Le, turn: Turn, bringer: Waiting, p: Address)
    requires turn.SwitchTurn? && m.single && bringer.slot in m.bindings && m.bindings[bringer.slot] == p
    requires var id := bringer.frame.ReportId();
      id != REPORT_ID_MOUSE && t.IsSubscribed(p, id) && TakeTurn(m, t, turn).1.IsSubscribed(p, id)
      && NoFailedSend(SwitchAndBringer(m, t, turn, bringer).2, p)
    ensures var id := bringer.frame.ReportId();
      var queued, arrived := QueuedFor(m.bindings, turn.queue, p, id),
                             Frames(SwitchAndBringer(m, t, turn, bringer).2, Deliveries, p, id);
      arrived == queued + [bringer.frame]
      && (arrived == [bringer.frame] + queued <==> forall f :: f in queued ==> f == bringer.frame)
  {
    var id := bringer.frame.ReportId();
    var (m1, t1, log) := TakeTurn(m, t, turn);
    var more := RouteFrame(m1, t1, bringer.slot, bringer.frame, bringer.outcome).2;
    assert SwitchAndBringer(m, t, turn, bringer).2 == log + more by { hide OnSlotChange, RouteFrame; }
    NoFailedSendInPart(log, more, p);
    SwitchKeepsBindings(m, t, turn);
    BringerShows(m, t, turn, bringer, Deliveries, p, id);
    hide TakeTurn, RouteFrame, Frames, NoFailedSend, QueuedFor, SwitchAndBringer, Le.IsSubscribed;
    QueuedKeysArriveExactlyWhen(m, t, turn, p, id);
    BringerIsDelivered(m1, t1, bringer, p, id);
    SameOnBothEnds(bringer.frame, QueuedFor(m.bindings, turn.queue, p, id));
  }

  // ---- A run that reorders ---------------------------------------------------------------

  const KEY_DOWN := Keyboard(0, [0, 4])
  const KEY_UP := Keyboard(0, [0, 0])

  /** Slot 2 is active with its host away, and slot 3's host idles on the link with the keyboard enabled. */
  function IdlingHost(): Turn {
    SubscribeTurn(20, REPORT_ID_KEYBOARD, true, {20}, AdvAnswers(true, None), [], 0)
  }

  const IDLING := Le(map[20 := Peer(map[REPORT_ID_KEYBOARD := 0], 0)], 1)

  /** Slot 2's host may be awaited, slot 3's is not. */
  predicate TwoHosts(m: Mgr) {
    m.single && m.bindings == map[2 := 10, 3 := 20] && m.active == 2 && m.pairing.None?
    && (m.pending.Some? ==> m.pending.value.addr == 10)
  }

  lemma HostIdles(m: Mgr)
    requires TwoHosts(m)
    ensures var (m1, t1, log) := TakeTurn(m, NO_PEERS, IdlingHost()); m1 == m && t1 == IDLING && log == []
  {
    assert Subscribed(NO_PEERS, 20, REPORT_ID_KEYBOARD) == (IDLING, true) by {
      assert Subscribed(NO_PEERS, 20, REPORT_ID_KEYBOARD).0.peers == IDLING.peers;
    }
    assert SlotOf(m.bindings, 20) == Some(3);
    hide Subscribed, SlotOf;
    assert !IDLING.FullyAttached(10) by { assert REPORT_ID_KEYBOARD in INPUT_REPORT_IDS; }
    assert OnIncomingPeer(m, IDLING, 20, true, {20}, AdvAnswers(true, None), 0) == (m, IDLING, []) by {
      hide BindAndSettle;
    }
    hide OnIncomingPeer, RouteFrame, OnSlotChange, Tick, SubForgotten, OpenWindow, RepairSlot;
    assert OnSubscribed(m, IDLING, 20, REPORT_ID_KEYBOARD, []) == (m, IDLING, []);
  }

  lemma AcceptedIsDelivered(m: Mgr, t: Le, q: Waiting, p: Address)
    requires q.slot in m.bindings && m.bindings[q.slot] == p
    requires t.IsSubscribed(p, q.frame.ReportId()) && q.outcome.Accepted?
    ensures NoFailedSend(RouteFrame(m, t, q.slot, q.frame, q.outcome).2, p)
  {
    hide Pushed, SentTo;
  }

  lemma OneWaiting(m: Mgr, t: Le, q: Waiting)
    ensures RouteAll(m, t, [q]) == RouteFrame(m, t, q.slot, q.frame, q.outcome)
  {
    hide RouteFrame;
    assert [q][..0] == [] && RouteAll(m, t, []) == (m, t, []);
    assert [] + RouteFrame(m, t, q.slot, q.frame, q.outcome).2 == RouteFrame(m, t, q.slot, q.frame, q.outcome).2;
  }

  /** The host switched to keeps its subscriptions unless a send to it fails. */
  lemma NewHostStaysSubscribed(m: Mgr, t: Le, turn: Turn, p: Address, id: byte)
    requires turn.SwitchTurn? && m.single && m.(active := turn.to).ActiveHost() == Some(p)
    requires t.IsSubscribed(p, id) && NoFailedSend(TakeTurn(m, t, turn).2, p)
    ensures TakeTurn(m, t, turn).1.IsSubscribed(p, id)
  {
    SwitchArmsAndDrops(m, t, turn);
    hide TakeTurn, RouteAll, Frames, Thins, QueuedFor, NoFailedSend, Le.ButtonsSent, LastButtons;
    SwitchShowsTheDrain(m, t, turn, Deliveries, p, id);
    ReadyFramesArrive(m.(active := turn.to), t, turn.queue, p, id);
  }

  lemma SwitchSendsTheRelease(m: Mgr, t: Le, turn: Turn, q: Waiting, p: Address)
    requires turn.SwitchTurn? && m.single && turn.queue == [q]
    requires m.(active := turn.to).ActiveHost() == Some(p) && q.slot == turn.to
    requires t.IsSubscribed(p, q.frame.ReportId()) && q.outcome.Accepted?
    ensures TakeTurn(m, t, turn).1.IsSubscribed(p, q.frame.ReportId()) && NoFailedSend(TakeTurn(m, t, turn).2, p)
  {
    hide TakeTurn, RouteAll, RouteFrame, Frames, NoFailedSend;
    OneWaiting(m.(active := turn.to), t, q);
    AcceptedIsDelivered(m.(active := turn.to), t, q, p);
    SwitchShowsTheDrain(m, t, turn, Deliveries, p, q.frame.ReportId());
    NewHostStaysSubscribed(m, t, turn, p, q.frame.ReportId());
  }

  lemma BringerIsAccepted(m: Mgr, t: Le, turn: Turn, bringer: Waiting, p: Address)
    requires turn.SwitchTurn? && m.single && bringer.slot in m.bindings && m.bindings[bringer.slot] == p
    requires bringer.outcome.Accepted? && TakeTurn(m, t, turn).1.IsSubscribed(p, bringer.frame.ReportId())
    requires NoFailedSend(TakeTurn(m, t, turn).2, p)
    ensures NoFailedSend(SwitchAndBringer(m, t, turn, bringer).2, p)
  {
    var (m1, t1, log) := TakeTurn(m, t, turn);
    var more := RouteFrame(m1, t1, bringer.slot, bringer.frame, bringer.outcome).2;
    assert SwitchAndBringer(m, t, turn, bringer).2 == log + more by { hide OnSlotChange, RouteFrame; }
    SwitchKeepsBindings(m, t, turn);
    hide TakeTurn, RouteFrame, NoFailedSend, SwitchAndBringer;
    AcceptedIsDelivered(m1, t1, bringer, p);
    NoFailedSendInPart(log, more, p);
  }

  lemma ThreeTurns(m: Mgr, t: Le, idle: Turn, turn: Turn, bringer: Waiting)
    requires turn.SwitchTurn? && TakeTurn(m, t, idle).2 == []
    ensures var (m1, t1, _) := TakeTurn(m, t, idle);
      RunTurns(m, t, [idle, turn, FrameTurn(bringer.slot, bringer.frame, bringer.outcome, turn.at)]).2
      == SwitchAndBringer(m1, t1, turn, bringer).2
  {
    hide OnSubscribeTurn, OnSlotChange, RouteFrame, Tick, SubForgotten, OpenWindow, RepairSlot;
    var third := FrameTurn(bringer.slot, bringer.frame, bringer.outcome, turn.at);
    assert SwitchAndBringer(TakeTurn(m, t, idle).0, TakeTurn(m, t, idle).1, turn, bringer).2
        == TakeTurn(TakeTurn(m, t, idle).0, TakeTurn(m, t, idle).1, turn).2
           + TakeTurn(TakeTurn(TakeTurn(m, t, idle).0, TakeTurn(m, t, idle).1, turn).0,
                      TakeTurn(TakeTurn(m, t, idle).0, TakeTurn(m, t, idle).1, turn).1, third).2;
    hide TakeTurn, SwitchAndBringer;
    assert [idle, turn, third][..2] == [idle, turn] && [idle, turn][..1] == [idle];
    OneTurn(m, t, idle);
  }

  lemma BootHasTwoHosts(adv: AdvAnswers)
    ensures TwoHosts(Boot(true, map[2 := 10, 3 := 20], 2, {}, adv, 0))
  {
    hide ApplyAdvertising;
  }

  lemma OneIsQueued(bindings: Bindings, q: Waiting, p: Address)
    requires q.slot in bindings && bindings[q.slot] == p
    ensures QueuedFor(bindings, [q], p, q.frame.ReportId()) == [q.frame]
  {
    assert [q][..0] == [] && QueuedFor(bindings, [], p, q.frame.ReportId()) == [];
  }

  /** The press brings the switch to slot 3, its release is queued behind: the host gets the release first. */
  lemma ReleaseOvertakesPress(adv: AdvAnswers)
    ensures var m0 := Boot(true, map[2 := 10, 3 := 20], 2, {}, adv, 0);
      var turns := [IdlingHost(), SwitchTurn(3, [Waiting(3, KEY_UP, Accepted)], {20}, adv, 1),
                    FrameTurn(3, KEY_DOWN, Accepted, 1)];
      Frames(RunTurns(m0, NO_PEERS, turns).2, Deliveries, 20, REPORT_ID_KEYBOARD) == [KEY_UP, KEY_DOWN]
  {
    var m0 := Boot(true, map[2 := 10, 3 := 20], 2, {}, adv, 0);
    BootHasTwoHosts(adv);
    hide Boot;
    var up, down := Waiting(3, KEY_UP, Accepted), Waiting(3, KEY_DOWN, Accepted);
    var turn := SwitchTurn(3, [up], {20}, adv, 1);
    assert QueuedFor(m0.bindings, [up], 20, REPORT_ID_KEYBOARD) == [KEY_UP] by { OneIsQueued(m0.bindings, up, 20); }
    hide TakeTurn, RunTurns, Frames, QueuedFor, NoFailedSend, SwitchAndBringer;
    HostIdles(m0);
    ThreeTurns(m0, NO_PEERS, IdlingHost(), turn, down);
    SwitchSendsTheRelease(m0, IDLING, turn, up, 20);
    BringerIsAccepted(m0, IDLING, turn, down, 20);
    BringerIsOvertakenExactlyWhen(m0, IDLING, turn, down, 20);
  }
}
