/**
 For whom the hub advertises. At every turn that decides it (a tick, a switch in single mode, a window
 that settles or closes, and the start) the hub is connectable exactly if a host that is expected is
 away and BlueZ takes the advertisement or the earlier one can stay. All other turns leave it alone.
*/
module Advertising {
  import opened Wrappers
  import opened Slots
  import opened Gatt
  import opened ManagerSpec
  import PairingWindows

  // ---- Who is expected -------------------------------------------------------------------

  /** The slot has a host that may connect: the active remote slot in single mode, any slot otherwise. */
  predicate Expects(m: Mgr, slot: Slot) {
    slot in m.bindings && (m.single ==> slot == m.active && slot != LOCAL_SLOT)
  }

  /** A host that is expected has no link. */
  predicate SomeoneIsAway(m: Mgr, links: set<Address>) {
    exists slot :: slot in m.bindings && Expects(m, slot) && m.bindings[slot] !in links
  }

  /** The advertisement that is up needs no new request: it is not the window's, and the adapter still has it. */
  predicate CanStay(m: Mgr, answers: AdvAnswers) {
    m.adv && !m.advDiscoverable && answers.instances != Some(0)
  }

  /** The hub is connectable if and only if it has a host to wait for and can be, and it is not discoverable. */
  predicate AsExpected(m: Mgr, before: Mgr, links: set<Address>, answers: AdvAnswers) {
    (m.adv <==> SomeoneIsAway(m, links) && (answers.accepted || CanStay(before, answers)))
    && !(m.adv && m.advDiscoverable)
  }

  predicate SameAdvertising(m: Mgr, m1: Mgr) {
    m1.adv == m.adv && m1.advDiscoverable == m.advDiscoverable
  }

  // ---- One decision ----------------------------------------------------------------------

  lemma WantedIfSomeoneIsAway(m: Mgr, links: set<Address>)
    ensures WantsAdvertising(m, ConnectedHosts(m.bindings, links)) <==> SomeoneIsAway(m, links)
  {
    var connected := ConnectedHosts(m.bindings, links);
    assert forall slot :: slot in m.bindings ==>
      m.bindings[slot] in m.bindings.Values && (m.bindings[slot] in connected <==> m.bindings[slot] in links);
    if m.ActiveHost().Some? {
      assert Expects(m, m.active);
    }
    if a :| a in m.bindings.Values && a !in connected {
      var slot :| slot in m.bindings && m.bindings[slot] == a;
    }
    if SomeoneIsAway(m, links) {
      var slot :| slot in m.bindings && Expects(m, slot) && m.bindings[slot] !in links;
      assert m.bindings[slot] !in connected;
    }
  }

  /** One decision, with no window waiting for a device. */
  lemma DecidesAsExpected(m: Mgr, links: set<Address>, answers: AdvAnswers)
    requires !m.WindowOpen()
    ensures AsExpected(ApplyAdvertising(m, ConnectedHosts(m.bindings, links), answers), m, links, answers)
  {
    WantedIfSomeoneIsAway(m, links);
    var r := ApplyAdvertising(m, ConnectedHosts(m.bindings, links), answers);
    SameExpectations(m, r, links);
    hide WantsAdvertising, ConnectedHosts, SomeoneIsAway;
  }

  lemma SameExpectations(m: Mgr, m1: Mgr, links: set<Address>)
    requires m1.bindings == m.bindings && m1.single == m.single && m1.active == m.active
    ensures SomeoneIsAway(m1, links) <==> SomeoneIsAway(m, links)
  {
    assert forall slot :: slot in m.bindings ==> (Expects(m1, slot) <==> Expects(m, slot));
  }

  /** What AsExpected looks at. */
  lemma StaysAsExpected(m: Mgr, m1: Mgr, before: Mgr, before1: Mgr, links: set<Address>, answers: AdvAnswers)
    requires AsExpected(m, before, links, answers) && SameAdvertising(m, m1) && SameAdvertising(before, before1)
    requires m1.bindings == m.bindings && m1.single == m.single && m1.active == m.active
    ensures AsExpected(m1, before1, links, answers)
  {
    SameExpectations(m, m1, links);
    hide SomeoneIsAway;
  }

  // ---- Windows that settle or close ------------------------------------------------------

  lemma SettlingIsAsExpected(m: Mgr, slot: Slot, addr: Address, links: set<Address>, answers: AdvAnswers)
    requires m.WindowOpen()
    ensures var r := BindAndSettle(m, slot, addr, links, answers); !r.WindowOpen() && AsExpected(r, m, links, answers)
  {
    var m1 := Bind(m, slot, addr);
    var settled := m1.(pairing := Some(m1.pairing.value.(bound := true)));
    DecidesAsExpected(settled, links, answers);
    hide ApplyAdvertising, ConnectedHosts, AsExpected;
    StaysAsExpected(ApplyAdvertising(settled, ConnectedHosts(m1.bindings, links), answers),
                    BindAndSettle(m, slot, addr, links, answers), settled, m, links, answers);
  }

  lemma ClosingIsAsExpected(m: Mgr, links: set<Address>, answers: AdvAnswers, unpairableOk: bool)
    requires m.WindowOpen()
    ensures var r := CloseWindow(m, ConnectedHosts(m.bindings, links), answers, unpairableOk);
      !r.WindowOpen() && AsExpected(r, m, links, answers)
  {
    var closed := m.(pairing := None, pairable := if unpairableOk then false else m.pairable);
    DecidesAsExpected(closed, links, answers);
    hide ApplyAdvertising, ConnectedHosts, AsExpected;
    var r := CloseWindow(m, ConnectedHosts(m.bindings, links), answers, unpairableOk);
    StaysAsExpected(r, r, closed, m, links, answers);
  }

  lemma SettledWindowClosesQuietly(m: Mgr, connected: set<Address>, answers: AdvAnswers, unpairableOk: bool)
    requires !m.WindowOpen()
    ensures var r := CloseWindow(m, connected, answers, unpairableOk); !r.WindowOpen() && SameAdvertising(m, r)
  {
    hide ApplyAdvertising;
  }

  /** The poll that settles or closes a waiting window leaves the advertisement as expected, and otherwise alone. */
  lemma PollIsAsExpected(m: Mgr, answers: WindowAnswers, now: int)
    ensures var m1 := PollWindow(m, answers, now);
      if m.WindowOpen() && !m1.WindowOpen() then AsExpected(m1, m, answers.links, answers.adv)
      else SameAdvertising(m, m1)
  {
    hide CloseWindow, BindAndSettle, ConnectedHosts, AsExpected;
    if m.pairing.Some? {
      if !m.WindowOpen() {
        SettledWindowClosesQuietly(m, ConnectedHosts(m.bindings, answers.links), answers.adv, answers.unpairableOk);
      } else {
        ClosingIsAsExpected(m, answers.links, answers.adv, answers.unpairableOk);
      }
      if m.WindowOpen() && now < m.pairing.value.deadline && answers.devices.Some? {
        var found := FirstEligible(m, m.pairing.value, answers.devices.value, answers.bonded);
        if found.Some? {
          SettlingIsAsExpected(m, m.pairing.value.slot, found.value, answers.links, answers.adv);
        }
      }
    }
  }

  // ---- Whole turns -----------------------------------------------------------------------

  /** What the tick does before and after it decides leaves alone what the decision looks at. */
  lemma TickDecidesOnce(m: Mgr, t: Le, answers: TickAnswers, now: int)
    ensures var m0, m1 := PollWindow(m, answers.window, now), Tick(m, t, answers, now).0;
      var m2 := PollUninvited(m0, t, ConnectedHosts(m0.bindings, answers.links), now).0;
      var m3 := ApplyAdvertising(m2, ConnectedHosts(m2.bindings, answers.links), answers.adv);
      m2 == m0.(evicted := m2.evicted)
      && m1 == m3.(stuck := m1.stuck, kicked := m1.kicked, helped := m1.helped, lastReregister := m1.lastReregister,
                   pending := m1.pending)
  {
    hide PollWindow, PollUninvited, PollStuckHosts, ConnectedHosts, ApplyAdvertising, ToldFrom;
  }

  /** A tick with no window waiting decides; what came up or went down within the tick before counts as earlier. */
  lemma TickIsAsExpected(m: Mgr, t: Le, answers: TickAnswers, now: int)
    ensures var m1 := Tick(m, t, answers, now).0;
      if m1.WindowOpen() then SameAdvertising(m, m1)
      else AsExpected(m1, PollWindow(m, answers.window, now), answers.links, answers.adv)
  {
    TickDecidesOnce(m, t, answers, now);
    PairingWindows.TickKeepsVisibility(m, t, answers, now);
    hide PollWindow, PollUninvited, Tick, ConnectedHosts, AsExpected, ApplyAdvertising;
    var m0, m1 := PollWindow(m, answers.window, now), Tick(m, t, answers, now).0;
    var m2 := PollUninvited(m0, t, ConnectedHosts(m0.bindings, answers.links), now).0;
    if !m2.WindowOpen() {
      DecidesAsExpected(m2, answers.links, answers.adv);
      StaysAsExpected(ApplyAdvertising(m2, ConnectedHosts(m2.bindings, answers.links), answers.adv), m1, m2, m0,
                      answers.links, answers.adv);
    }
  }

  lemma SwitchIsAsExpected(m: Mgr, t: Le, slot: Slot, queue: seq<Waiting>, links: set<Address>, answers: AdvAnswers,
                           now: int)
    ensures var m1 := OnSlotChange(m, t, slot, queue, links, answers, now).0;
      if m.single && !m.WindowOpen() then AsExpected(m1, m, links, answers) else SameAdvertising(m, m1)
  {
    hide RouteAll, ConnectedHosts, ArmPending, AsExpected, WantsAdvertising, PeerDropped;
    var (m1, t1, _) := RouteAll(m.(active := slot), t, queue);
    var m2 := ArmPending(m1, t1, now);
    if m.single && !m.WindowOpen() {
      DecidesAsExpected(m2, links, answers);
      hide ApplyAdvertising;
      StaysAsExpected(ApplyAdvertising(m2, ConnectedHosts(m2.bindings, links), answers),
                      OnSlotChange(m, t, slot, queue, links, answers, now).0, m2, m, links, answers);
    }
  }

  lemma IncomingIsAsExpected(m: Mgr, t: Le, turn: Turn)
    requires turn.SubscribeTurn?
    ensures var m1 := OnIncomingPeer(m, t, turn.peer, turn.bonded, turn.links, turn.adv, turn.at).0;
      if m.WindowOpen() && !m1.WindowOpen() then AsExpected(m1, m, turn.links, turn.adv) else SameAdvertising(m, m1)
  {
    hide BindAndSettle, ConnectedHosts, SlotOf, AsExpected;
    if m.WindowOpen() {
      SettlingIsAsExpected(m, m.pairing.value.slot, turn.peer, turn.links, turn.adv);
    }
  }

  /** Beyond what the arrival does, a subscription only moves what is held. */
  lemma SubscribeIsArrival(m: Mgr, t: Le, turn: Turn)
    requires turn.SubscribeTurn?
    ensures var (t1, first) := Subscribed(t, turn.peer, turn.id);
      var m1 := OnSubscribeTurn(m, t, turn).0;
      m1 == (if first then OnIncomingPeer(m, t1, turn.peer, turn.bonded, turn.links, turn.adv, turn.at).0 else m)
            .(pending := m1.pending)
  {
    hide OnIncomingPeer, OnSubscribed, Subscribed;
  }

  lemma SubscribeIsAsExpected(m: Mgr, t: Le, turn: Turn)
    requires turn.SubscribeTurn?
    ensures var m1 := OnSubscribeTurn(m, t, turn).0;
      if m.WindowOpen() && !m1.WindowOpen() then AsExpected(m1, m, turn.links, turn.adv) else SameAdvertising(m, m1)
  {
    SubscribeIsArrival(m, t, turn);
    hide OnIncomingPeer, OnSubscribeTurn, Subscribed, AsExpected;
    var (t1, first) := Subscribed(t, turn.peer, turn.id);
    IncomingIsAsExpected(m, t1, turn);
    var m2 := if first then OnIncomingPeer(m, t1, turn.peer, turn.bonded, turn.links, turn.adv, turn.at).0 else m;
    var m1 := OnSubscribeTurn(m, t, turn).0;
    if m.WindowOpen() && !m1.WindowOpen() {
      StaysAsExpected(m2, m1, m, m, turn.links, turn.adv);
    }
  }

  /** A request for a window that gets as far as BlueZ: up and discoverable, or nothing is up. */
  predicate AsRequested(m: Mgr, m1: Mgr, pairableOk: bool, accepted: bool) {
    if pairableOk then m1.adv == accepted && (accepted ==> m1.advDiscoverable) else SameAdvertising(m, m1)
  }

  /** What every turn of the loop does to the advertisement, whatever BlueZ answers. */
  lemma AdvertisesForTheExpected(m: Mgr, t: Le, turn: Turn)
    ensures var m1 := TakeTurn(m, t, turn).0;
      match turn
      case TickTurn(answers, at) =>
        if m1.WindowOpen() then SameAdvertising(m, m1)
        else AsExpected(m1, PollWindow(m, answers.window, at), answers.links, answers.adv)
      case SwitchTurn(_, _, links, adv, _) =>
        if m.single && !m.WindowOpen() then AsExpected(m1, m, links, adv) else SameAdvertising(m, m1)
      case SubscribeTurn(_, _, _, links, adv, _, _) =>
        if m.WindowOpen() && !m1.WindowOpen() then AsExpected(m1, m, links, adv) else SameAdvertising(m, m1)
      case OpenTurn(slot, _, pairableOk, accepted, _) =>
        if slot in m.bindings then m1 == m else AsRequested(m, m1, pairableOk, accepted)
      case RepairTurn(slot, _, pairableOk, accepted, _) =>
        if slot !in m.bindings && m.pairing.Some? && m.pairing.value.slot == slot then m1 == m
        else AsRequested(m, m1, pairableOk, accepted)
      case _ => SameAdvertising(m, m1)
  {
    hide RouteFrame, OnSlotChange, OnSubscribeTurn, Tick, AsExpected, PollWindow, SubForgotten;
    match turn {
      case TickTurn(answers, at) => TickIsAsExpected(m, t, answers, at);
      case SwitchTurn(slot, queue, links, adv, at) => SwitchIsAsExpected(m, t, slot, queue, links, adv, at);
      case SubscribeTurn(_, _, _, _, _, _, _) => SubscribeIsAsExpected(m, t, turn);
      case _ =>
    }
  }

  /** And at the start. */
  lemma BootAdvertisesForTheExpected(single: bool, bindings: Bindings, active: Slot, links: set<Address>,
                                     answers: AdvAnswers, now: int)
    ensures var m := Boot(single, bindings, active, links, answers, now);
      (m.adv <==> SomeoneIsAway(m, links) && answers.accepted) && !(m.adv && m.advDiscoverable)
  {
    var m0 := Start(single, bindings, active);
    DecidesAsExpected(m0, links, answers);
    hide ApplyAdvertising, ConnectedHosts, ArmPending, SomeoneIsAway;
    StaysAsExpected(ApplyAdvertising(m0, ConnectedHosts(bindings, links), answers),
                    Boot(single, bindings, active, links, answers, now), m0, m0, links, answers);
  }

  /**
   So in single mode, whatever happened before: after a tick with no window waiting and BlueZ accepting, the hub
   is connectable exactly if the active slot is a remote one, has a host, and the host has no link.
  */
  lemma ConnectableExactlyWhileTheHostIsAway(m: Mgr, t: Le, turns: seq<Turn>, answers: TickAnswers, at: int)
    requires answers.adv.accepted
    ensures var m1 := RunTurns(m, t, turns + [TickTurn(answers, at)]).0;
      m1.single && !m1.WindowOpen() ==>
        (m1.adv <==> m1.active != LOCAL_SLOT && m1.active in m1.bindings && m1.bindings[m1.active] !in answers.links)
  {
    assert (turns + [TickTurn(answers, at)])[..|turns|] == turns;
    var (m0, t0, _) := RunTurns(m, t, turns);
    TickIsAsExpected(m0, t0, answers, at);
    hide Tick, PollWindow, RunTurns;
    OneExpected(Tick(m0, t0, answers, at).0, answers.links);
    assert TakeTurn(m0, t0, TickTurn(answers, at)) == Tick(m0, t0, answers, at);
  }

  lemma OneExpected(m: Mgr, links: set<Address>)
    ensures m.single ==>
      (SomeoneIsAway(m, links) <==> m.active != LOCAL_SLOT && m.active in m.bindings && m.bindings[m.active] !in links)
  {
    if m.active != LOCAL_SLOT && m.active in m.bindings {
      assert Expects(m, m.active);
    }
  }
}
