/**
 What every turn of the manager keeps about bindings, pairing windows and visibility, whatever
 BlueZ answers, and the two places where a failed call leaves the radio in a state no window
 accounts for.
*/
module PairingWindows {
  import opened Wrappers
  import opened Slots
  import opened Gatt
  import opened ManagerSpec

  /** No two slots share a host. */
  predicate Injective(bindings: Bindings) {
    forall a, b :: a in bindings && b in bindings && bindings[a] == bindings[b] ==> a == b
  }

  /** An open window's slot is free, and only an open window makes the advertisement discoverable. */
  predicate WindowSound(m: Mgr) {
    && (m.WindowOpen() ==> m.pairing.value.slot !in m.bindings)
    && (m.adv && m.advDiscoverable ==> m.WindowOpen())
  }

  predicate PairingSound(m: Mgr) {
    Injective(m.bindings) && WindowSound(m)
  }

  // ---- Each operation --------------------------------------------------------------------

  lemma AdvertisingHidesUnlessOpen(m: Mgr, connected: set<Address>, answers: AdvAnswers)
    ensures var r := ApplyAdvertising(m, connected, answers);
      (m.WindowOpen() ==> r == m) && (!m.WindowOpen() ==> !(r.adv && r.advDiscoverable))
  {
    hide WantsAdvertising;
  }

  lemma SettledWindowIsSound(m: Mgr, slot: Slot, addr: Address, links: set<Address>, answers: AdvAnswers)
    requires PairingSound(m) && m.WindowOpen() && slot == m.pairing.value.slot && addr !in m.bindings.Values
    ensures PairingSound(BindAndSettle(m, slot, addr, links, answers))
  {
    var m1 := Bind(m, slot, addr);
    var settled := m1.(pairing := Some(m1.pairing.value.(bound := true)));
    AdvertisingHidesUnlessOpen(settled, ConnectedHosts(m1.bindings, links), answers);
    hide ApplyAdvertising, ConnectedHosts;
    assert forall s :: s in m.bindings ==> m.bindings[s] in m.bindings.Values;
  }

  lemma ClosedWindowIsSound(m: Mgr, connected: set<Address>, answers: AdvAnswers, unpairableOk: bool)
    requires PairingSound(m)
    ensures PairingSound(CloseWindow(m, connected, answers, unpairableOk))
  {
    var closed := m.(pairing := None, pairable := if unpairableOk then false else m.pairable);
    AdvertisingHidesUnlessOpen(closed, connected, answers);
    hide ApplyAdvertising;
  }

  lemma PolledWindowIsSound(m: Mgr, answers: WindowAnswers, now: int)
    requires PairingSound(m)
    ensures PairingSound(PollWindow(m, answers, now))
  {
    hide PairingSound, CloseWindow, BindAndSettle, ConnectedHosts;
    if m.pairing.Some? {
      if now >= m.pairing.value.deadline {
        ClosedWindowIsSound(m, ConnectedHosts(m.bindings, answers.links), answers.adv, answers.unpairableOk);
      } else if !m.pairing.value.bound && answers.devices.Some? {
        var found := FirstEligible(m, m.pairing.value, answers.devices.value, answers.bonded);
        if found.Some? {
          SettledWindowIsSound(m, m.pairing.value.slot, found.value, answers.links, answers.adv);
        }
      }
    }
  }

  lemma OpenedWindowIsSound(m: Mgr, slot: Slot, paired: set<Address>, pairableOk: bool, accepted: bool, now: int)
    requires PairingSound(m)
    ensures PairingSound(OpenWindow(m, slot, paired, pairableOk, accepted, now))
  {
  }

  lemma UnboundSlotIsSound(m: Mgr, slot: Slot)
    requires PairingSound(m)
    ensures PairingSound(m.(bindings := m.bindings - {slot}))
  {
  }

  lemma IncomingIsSound(m: Mgr, t: Le, peer: Address, bonded: bool, links: set<Address>, answers: AdvAnswers, now: int)
    requires PairingSound(m)
    ensures PairingSound(OnIncomingPeer(m, t, peer, bonded, links, answers, now).0)
  {
    hide SlotOf, BindAndSettle, ConnectedHosts;
    if SlotOf(m.bindings, peer).None? && m.WindowOpen() && bonded {
      SettledWindowIsSound(m, m.pairing.value.slot, peer, links, answers);
      hide PairingSound;
    }
  }

  lemma SoundIgnoresTheRest(m: Mgr, m1: Mgr)
    requires PairingSound(m) && m1.bindings == m.bindings && m1.pairing == m.pairing
    requires m1.adv == m.adv && m1.advDiscoverable == m.advDiscoverable
    ensures PairingSound(m1)
  {
  }

  lemma AdvertisingIsSound(m: Mgr, connected: set<Address>, answers: AdvAnswers)
    requires PairingSound(m)
    ensures PairingSound(ApplyAdvertising(m, connected, answers))
  {
    AdvertisingHidesUnlessOpen(m, connected, answers);
    hide ApplyAdvertising;
  }

  lemma TickIsSound(m: Mgr, t: Le, answers: TickAnswers, now: int)
    requires PairingSound(m)
    ensures PairingSound(Tick(m, t, answers, now).0)
  {
    hide PairingSound, PollWindow, PollUninvited, ApplyAdvertising, PollStuckHosts, ConnectedHosts;
    var m1 := PollWindow(m, answers.window, now);
    PolledWindowIsSound(m, answers.window, now);
    var connected := ConnectedHosts(m1.bindings, answers.links);
    var (m2, t2, away) := PollUninvited(m1, t, connected, now);
    SoundIgnoresTheRest(m1, m2);
    AdvertisingIsSound(m2, connected, answers.adv);
    var m3 := ApplyAdvertising(m2, connected, answers.adv);
    SoundIgnoresTheRest(m3, Tick(m, t, answers, now).0);
  }

  lemma SwitchIsSound(m: Mgr, t: Le, slot: Slot, queue: seq<Waiting>, links: set<Address>, adv: AdvAnswers, at: int)
    requires PairingSound(m)
    ensures PairingSound(OnSlotChange(m, t, slot, queue, links, adv, at).0)
  {
    hide PairingSound, RouteAll, ApplyAdvertising, ConnectedHosts, ArmPending, PeerDropped, OnlyAdvertisingDiffers;
    var m0 := m.(active := slot);
    SoundIgnoresTheRest(m, m0);
    if m.single {
      var (m1, t1, _) := RouteAll(m0, t, queue);
      var m2 := ArmPending(m1, t1, at);
      SoundIgnoresTheRest(m0, m2);
      var connected := ConnectedHosts(m2.bindings, links);
      AdvertisingIsSound(m2, connected, adv);
      SoundIgnoresTheRest(ApplyAdvertising(m2, connected, adv), OnSlotChange(m, t, slot, queue, links, adv, at).0);
    }
  }

  lemma SubscribeTurnIsSound(m: Mgr, t: Le, turn: Turn)
    requires turn.SubscribeTurn? && PairingSound(m)
    ensures PairingSound(OnSubscribeTurn(m, t, turn).0)
  {
    hide PairingSound, OnIncomingPeer, OnSubscribed, Subscribed;
    var (t1, first) := Subscribed(t, turn.peer, turn.id);
    IncomingIsSound(m, t1, turn.peer, turn.bonded, turn.links, turn.adv, turn.at);
    var (m2, t2, log) :=
      if first then OnIncomingPeer(m, t1, turn.peer, turn.bonded, turn.links, turn.adv, turn.at) else (m, t1, []);
    SoundIgnoresTheRest(m2, OnSubscribeTurn(m, t, turn).0);
  }

  lemma TurnKeepsPairingSound(m: Mgr, t: Le, turn: Turn)
    requires PairingSound(m)
    ensures PairingSound(TakeTurn(m, t, turn).0)
  {
    hide PairingSound, OnSubscribeTurn, OnSlotChange, Tick, OpenWindow, RouteFrame;
    match turn {
      case FrameTurn(slot, frame, outcome, _) =>
        SoundIgnoresTheRest(m, TakeTurn(m, t, turn).0);
      case SwitchTurn(slot, queue, links, adv, at) => SwitchIsSound(m, t, slot, queue, links, adv, at);
      case SubscribeTurn(_, _, _, _, _, _, _) => SubscribeTurnIsSound(m, t, turn);
      case CloseTurn(_, _, _, _) =>
      case OpenTurn(slot, paired, pairableOk, accepted, at) =>
        OpenedWindowIsSound(m, slot, paired, pairableOk, accepted, at);
      case RepairTurn(slot, paired, pairableOk, accepted, at) =>
        UnboundSlotIsSound(m, slot);
        OpenedWindowIsSound(m.(bindings := m.bindings - {slot}), slot, paired, pairableOk, accepted, at);
      case TickTurn(answers, at) => TickIsSound(m, t, answers, at);
    }
  }

  lemma BootIsSound(single: bool, bindings: Bindings, active: Slot, links: set<Address>, answers: AdvAnswers, now: int)
    requires Injective(bindings)
    ensures PairingSound(Boot(single, bindings, active, links, answers, now))
  {
    hide ApplyAdvertising, ArmPending, ConnectedHosts, Injective;
    var m := ApplyAdvertising(Start(single, bindings, active), ConnectedHosts(bindings, links), answers);
    AdvertisingHidesUnlessOpen(Start(single, bindings, active), ConnectedHosts(bindings, links), answers);
  }

  lemma {:induction false} RunKeepsPairingSound(m: Mgr, t: Le, turns: seq<Turn>)
    requires PairingSound(m)
    ensures PairingSound(RunTurns(m, t, turns).0)
  {
    hide TakeTurn, PairingSound;
    if turns != [] {
      RunKeepsPairingSound(m, t, turns[..|turns| - 1]);
      var (m1, t1, _) := RunTurns(m, t, turns[..|turns| - 1]);
      TurnKeepsPairingSound(m1, t1, turns[|turns| - 1]);
    }
  }

  /**
   Over any run from injective bindings: no host is ever bound twice, an open window's slot is
   free, and the hub is discoverable only while a window waits for a device.
  */
  lemma PairingStaysSound(single: bool, bindings: Bindings, active: Slot, links: set<Address>, answers: AdvAnswers,
                          now: int,
                          turns: seq<Turn>)
    requires Injective(bindings)
    ensures var m := RunTurns(Boot(single, bindings, active, links, answers, now), NO_PEERS, turns).0;
      && Injective(m.bindings)
      && (m.WindowOpen() ==> m.pairing.value.slot !in m.bindings)
      && (m.adv && m.advDiscoverable ==> m.WindowOpen())
  {
    hide RunTurns, Boot;
    BootIsSound(single, bindings, active, links, answers, now);
    RunKeepsPairingSound(Boot(single, bindings, active, links, answers, now), NO_PEERS, turns);
    hide Injective;
  }

  // ---- How bindings come and go ----------------------------------------------------------

  /** The device has claimed the open window's slot: bonded, bound nowhere, and first seen in time. */
  predicate Claims(m: Mgr, turn: Turn, slot: Slot, addr: Address) {
    m.WindowOpen() && m.pairing.value.slot == slot && addr !in m.bindings.Values
    && match turn
       case SubscribeTurn(peer, _, bonded, _, _, _, _) => peer == addr && bonded
       case TickTurn(answers, at) =>
         at < m.pairing.value.deadline && addr in answers.window.bonded && addr !in m.pairing.value.prePaired
         && answers.window.devices.Some? && addr in answers.window.devices.value
       case _ => false
  }

  /** The turn binds a slot exactly to a claiming device, settling the window, and unbinds one exactly on a re-pair. */
  predicate BindingsMoveOnly(m: Mgr, turn: Turn, m1: Mgr) {
    (m1.bindings == m.bindings)
    || (turn.RepairTurn? && m1.bindings == m.bindings - {turn.slot})
    || (m.WindowOpen() && m1.pairing == Some(m.pairing.value.(bound := true))
        && var slot := m.pairing.value.slot;
           slot in m1.bindings && m1.bindings == m.bindings[slot := m1.bindings[slot]]
           && Claims(m, turn, slot, m1.bindings[slot]))
  }

  lemma BoundAndSettled(m: Mgr, slot: Slot, addr: Address, links: set<Address>, answers: AdvAnswers)
    requires m.pairing.Some?
    ensures BindAndSettle(m, slot, addr, links, answers).pairing == Some(m.pairing.value.(bound := true))
  {
    hide ApplyAdvertising, ConnectedHosts;
  }

  lemma PollBindsClaimingDevice(m: Mgr, turn: Turn, m1: Mgr)
    requires turn.TickTurn? && m1.bindings == PollWindow(m, turn.answers.window, turn.at).bindings
    requires m1.pairing == PollWindow(m, turn.answers.window, turn.at).pairing
    ensures BindingsMoveOnly(m, turn, m1)
  {
    hide CloseWindow, BindAndSettle, ConnectedHosts;
    var answers := turn.answers.window;
    if m.WindowOpen() && turn.at < m.pairing.value.deadline && answers.devices.Some? {
      var found := FirstEligible(m, m.pairing.value, answers.devices.value, answers.bonded);
      if found.Some? {
        BoundAndSettled(m, m.pairing.value.slot, found.value, answers.links, answers.adv);
      }
    }
  }

  lemma TickBindsClaimingDevice(m: Mgr, t: Le, turn: Turn)
    requires turn.TickTurn?
    ensures BindingsMoveOnly(m, turn, TakeTurn(m, t, turn).0)
  {
    hide PollWindow, PollUninvited, ApplyAdvertising, PollStuckHosts, ConnectedHosts, BindingsMoveOnly;
    PollBindsClaimingDevice(m, turn, TakeTurn(m, t, turn).0);
  }

  lemma IncomingBindsClaimingDevice(m: Mgr, t: Le, turn: Turn)
    requires turn.SubscribeTurn?
    ensures BindingsMoveOnly(m, turn, OnIncomingPeer(m, t, turn.peer, turn.bonded, turn.links, turn.adv, turn.at).0)
  {
    hide BindAndSettle, ConnectedHosts, SlotOf;
    if m.pairing.Some? {
      BoundAndSettled(m, m.pairing.value.slot, turn.peer, turn.links, turn.adv);
    }
  }

  lemma SubscribeBindsClaimingDevice(m: Mgr, t: Le, turn: Turn)
    requires turn.SubscribeTurn?
    ensures BindingsMoveOnly(m, turn, OnSubscribeTurn(m, t, turn).0)
  {
    hide OnSubscribed, Subscribed, OnIncomingPeer, Claims;
    IncomingBindsClaimingDevice(m, Subscribed(t, turn.peer, turn.id).0, turn);
  }

  /** Bindings change in two ways only: a re-pair frees its slot, or a claiming device takes the open window's slot. */
  lemma BindingsOnlyMoveThroughWindows(m: Mgr, t: Le, turn: Turn)
    ensures BindingsMoveOnly(m, turn, TakeTurn(m, t, turn).0)
  {
    match turn {
      case SwitchTurn(slot, queue, links, adv, at) => SwitchKeepsBindings(m, t, slot, queue, links, adv, at);
      case SubscribeTurn(_, _, _, _, _, _, _) => SubscribeBindsClaimingDevice(m, t, turn);
      case TickTurn(answers, at) => TickBindsClaimingDevice(m, t, turn);
      case _ =>
    }
    hide RouteFrame, OnSlotChange, OnSubscribeTurn, Tick, OpenWindow;
  }

  lemma SwitchKeepsBindings(m: Mgr, t: Le, slot: Slot, queue: seq<Waiting>, links: set<Address>, adv: AdvAnswers,
                            at: int)
    ensures var m1 := OnSlotChange(m, t, slot, queue, links, adv, at).0;
      m1.bindings == m.bindings && m1.pairing == m.pairing && m1.pairable == m.pairable && m1.active == slot
      && (m.WindowOpen() ==> m1.adv == m.adv && m1.advDiscoverable == m.advDiscoverable)
  {
    hide RouteAll, ConnectedHosts, ArmPending, ApplyAdvertising;
    var (m1, t1, _) := RouteAll(m.(active := slot), t, queue);
    var m2 := ArmPending(m1, t1, at);
    AdvertisingHidesUnlessOpen(m2, ConnectedHosts(m2.bindings, links), adv);
  }

  lemma TickBindsTheFirst(m: Mgr, t: Le, turn: Turn)
    requires turn.TickTurn? && m.WindowOpen() && turn.at < m.pairing.value.deadline
    requires turn.answers.window.devices.Some?
    ensures var answers, m1 := turn.answers.window, TakeTurn(m, t, turn).0;
      var found := FirstEligible(m, m.pairing.value, answers.devices.value, answers.bonded);
      if found.Some? then m1.bindings == m.bindings[m.pairing.value.slot := found.value] else m1.bindings == m.bindings
  {
    hide PollUninvited, ApplyAdvertising, PollStuckHosts, ConnectedHosts, FirstEligible, BindAndSettle, CloseWindow;
  }

  /**
   And a claim is always met: with a window waiting, a tick that finds claiming devices binds its slot to the
   first of them, and a claiming device that subscribes for the first time is bound at once.
  */
  lemma ClaimsAreMet(m: Mgr, t: Le, turn: Turn, slot: Slot, addr: Address)
    requires Claims(m, turn, slot, addr) && (turn.SubscribeTurn? ==> addr !in t.peers)
    ensures var m1 := TakeTurn(m, t, turn).0;
      slot in m1.bindings && Claims(m, turn, slot, m1.bindings[slot]) && !m1.WindowOpen()
      && (turn.SubscribeTurn? ==> m1.bindings[slot] == addr)
  {
    BindingsOnlyMoveThroughWindows(m, t, turn);
    if turn.TickTurn? {
      TickBindsTheFirst(m, t, turn);
      hide TakeTurn, FirstEligible, BindingsMoveOnly;
    } else {
      hide FirstEligible;
    }
  }

  // ---- Pairable without a window ---------------------------------------------------------

  predicate PairableOnlyInWindow(m: Mgr) {
    m.pairable ==> m.pairing.Some?
  }

  /** The adapter was made pairable and the window then failed to open, or the window closed and the adapter refused. */
  predicate LeavesPairable(m: Mgr, turn: Turn) {
    match turn
    case OpenTurn(slot, _, pairableOk, accepted, _) => slot !in m.bindings && pairableOk && !accepted && m.pairing.None?
    case RepairTurn(_, _, pairableOk, accepted, _) => pairableOk && !accepted && m.pairing.None?
    case TickTurn(answers, at) =>
      m.pairing.Some? && at >= m.pairing.value.deadline && !answers.window.unpairableOk && m.pairable
    case _ => false
  }

  lemma PollKeepsPairable(m: Mgr, answers: WindowAnswers, now: int)
    ensures var m1 := PollWindow(m, answers, now);
      if m.pairing.Some? && now >= m.pairing.value.deadline then
        m1.pairing.None? && m1.pairable == (m.pairable && !answers.unpairableOk)
      else m1.pairable == m.pairable && m1.pairing.Some? == m.pairing.Some?
  {
    hide ApplyAdvertising, ConnectedHosts, FirstEligible;
  }

  lemma IncomingKeepsPairable(m: Mgr, t: Le, turn: Turn)
    requires turn.SubscribeTurn?
    ensures var m1 := OnIncomingPeer(m, t, turn.peer, turn.bonded, turn.links, turn.adv, turn.at).0;
      m1.pairable == m.pairable && m1.pairing.Some? == m.pairing.Some?
      && (m1.WindowOpen() ==> m1 == m.(evicted := m1.evicted))
  {
    hide ApplyAdvertising, ConnectedHosts, SlotOf;
  }

  lemma SubscribeKeepsPairable(m: Mgr, t: Le, turn: Turn)
    requires turn.SubscribeTurn?
    ensures var m1 := OnSubscribeTurn(m, t, turn).0;
      m1.pairable == m.pairable && m1.pairing.Some? == m.pairing.Some?
      && (m1.WindowOpen() ==> m1 == m.(evicted := m1.evicted, pending := m1.pending))
  {
    hide OnSubscribed, Subscribed, OnIncomingPeer;
    IncomingKeepsPairable(m, Subscribed(t, turn.peer, turn.id).0, turn);
  }

  lemma TickKeepsPairable(m: Mgr, t: Le, answers: TickAnswers, now: int)
    ensures var m0, m1 := PollWindow(m, answers.window, now), Tick(m, t, answers, now).0;
      m1.pairable == m0.pairable && m1.pairing == m0.pairing
  {
    hide PollWindow, PollUninvited, ApplyAdvertising, PollStuckHosts, ConnectedHosts;
  }

  lemma OpeningLeavesPairable(m: Mgr, slot: Slot, paired: set<Address>, pairableOk: bool, accepted: bool, now: int)
    requires PairableOnlyInWindow(m)
    ensures PairableOnlyInWindow(OpenWindow(m, slot, paired, pairableOk, accepted, now)) <==>
      !(slot !in m.bindings && pairableOk && !accepted && m.pairing.None?)
  {
  }

  /** A turn ends with the adapter pairable and no window exactly when a BlueZ call fails at one of these points. */
  lemma PairableOutsideWindowExactlyWhen(m: Mgr, t: Le, turn: Turn)
    requires PairableOnlyInWindow(m)
    ensures PairableOnlyInWindow(TakeTurn(m, t, turn).0) <==> !LeavesPairable(m, turn)
  {
    hide RouteFrame, OnSlotChange, OnSubscribeTurn, Tick, PollWindow, SubForgotten, OnlyAdvertisingDiffers, OpenWindow;
    match turn {
      case OpenTurn(slot, paired, pairableOk, accepted, at) =>
        OpeningLeavesPairable(m, slot, paired, pairableOk, accepted, at);
      case RepairTurn(slot, paired, pairableOk, accepted, at) =>
        OpeningLeavesPairable(m.(bindings := m.bindings - {slot}), slot, paired, pairableOk, accepted, at);
      case SwitchTurn(slot, queue, links, adv, at) => SwitchKeepsBindings(m, t, slot, queue, links, adv, at);
      case SubscribeTurn(_, _, _, _, _, _, _) => SubscribeKeepsPairable(m, t, turn);
      case TickTurn(answers, at) =>
        PollKeepsPairable(m, answers.window, at);
        TickKeepsPairable(m, t, answers, at);
      case _ =>
    }
  }

  /** The input: a first pairing request whose advertisement BlueZ refuses. */
  lemma RefusedAdvertisementLeavesPairable()
    ensures var m0 := Boot(true, map[], 1, {}, AdvAnswers(true, None), 0);
      var turns := [OpenTurn(2, {}, true, false, 1)];
      PairableOnlyInWindow(m0) && var m := RunTurns(m0, NO_PEERS, turns).0; m.pairable && m.pairing.None?
  {
    var turns := [OpenTurn(2, {}, true, false, 1)];
    assert turns[..0] == [];
  }

  // ---- A window nobody can see -----------------------------------------------------------

  predicate WindowVisible(m: Mgr) {
    m.WindowOpen() ==> m.adv && m.advDiscoverable
  }

  /** A request to replace an open window is refused by BlueZ after the old advertisement was taken down. */
  predicate HidesWindow(m: Mgr, turn: Turn) {
    m.WindowOpen()
    && match turn
       case OpenTurn(slot, _, pairableOk, accepted, _) => slot !in m.bindings && pairableOk && !accepted
       case RepairTurn(slot, _, pairableOk, accepted, _) =>
         pairableOk && !accepted && (slot in m.bindings || m.pairing.value.slot != slot)
       case _ => false
  }

  /** The turn is no request to open a window. */
  predicate Passive(turn: Turn) {
    !turn.OpenTurn? && !turn.RepairTurn?
  }

  lemma PollKeepsVisibility(m: Mgr, answers: WindowAnswers, now: int)
    ensures var m1 := PollWindow(m, answers, now);
      m1.WindowOpen() ==> m1 == m
  {
    hide ApplyAdvertising, ConnectedHosts, FirstEligible;
  }

  lemma TickKeepsVisibility(m: Mgr, t: Le, answers: TickAnswers, now: int)
    ensures var m1 := Tick(m, t, answers, now).0;
      m1.WindowOpen() ==>
        m.WindowOpen() && m1.pairing == m.pairing && m1.adv == m.adv && m1.advDiscoverable == m.advDiscoverable
  {
    hide PollWindow, PollUninvited, PollStuckHosts, ConnectedHosts, WantsAdvertising;
    PollKeepsVisibility(m, answers.window, now);
  }

  /** As long as the window stays open, no other turn touches the advertisement: an invisible window stays invisible. */
  lemma OnlyARequestChangesVisibility(m: Mgr, t: Le, turn: Turn)
    requires Passive(turn)
    ensures var m1 := TakeTurn(m, t, turn).0;
      m1.WindowOpen() ==>
        m.WindowOpen() && m1.pairing == m.pairing && m1.adv == m.adv && m1.advDiscoverable == m.advDiscoverable
  {
    match turn {
      case SwitchTurn(slot, queue, links, adv, at) => SwitchKeepsBindings(m, t, slot, queue, links, adv, at);
      case SubscribeTurn(_, _, _, _, _, _, _) => SubscribeKeepsPairable(m, t, turn);
      case TickTurn(answers, at) => TickKeepsVisibility(m, t, answers, at);
      case _ =>
    }
    hide RouteFrame, OnSlotChange, OnSubscribeTurn, Tick;
  }

  lemma OpeningHides(m: Mgr, slot: Slot, paired: set<Address>, pairableOk: bool, accepted: bool, now: int)
    requires WindowVisible(m)
    ensures WindowVisible(OpenWindow(m, slot, paired, pairableOk, accepted, now)) <==>
      !(m.WindowOpen() && slot !in m.bindings && pairableOk && !accepted)
  {
  }

  /** An open window loses its advertisement exactly when a request to replace it is refused. */
  lemma WindowHiddenExactlyWhen(m: Mgr, t: Le, turn: Turn)
    requires WindowVisible(m)
    ensures WindowVisible(TakeTurn(m, t, turn).0) <==> !HidesWindow(m, turn)
  {
    hide RouteFrame, OnSlotChange, OnSubscribeTurn, Tick, SubForgotten, OpenWindow;
    match turn {
      case OpenTurn(slot, paired, pairableOk, accepted, at) => OpeningHides(m, slot, paired, pairableOk, accepted, at);
      case RepairTurn(slot, paired, pairableOk, accepted, at) =>
        OpeningHides(m.(bindings := m.bindings - {slot}), slot, paired, pairableOk, accepted, at);
      case _ =>
        OnlyARequestChangesVisibility(m, t, turn);
        hide TakeTurn;
    }
  }

  /** The input: a pairing request for another slot while a window is open, whose advertisement BlueZ refuses. */
  lemma RefusedReplacementHidesTheWindow()
    ensures var m0 := Boot(true, map[], 1, {}, AdvAnswers(true, None), 0);
      var turns := [OpenTurn(2, {}, true, true, 1), OpenTurn(3, {}, true, false, 2)];
      var m1, m := RunTurns(m0, NO_PEERS, turns[..1]).0, RunTurns(m0, NO_PEERS, turns).0;
      WindowVisible(m0) && WindowVisible(m1) && m1.WindowOpen()
      && m.WindowOpen() && m.pairing == m1.pairing && !m.adv
  {
    var turns := [OpenTurn(2, {}, true, true, 1), OpenTurn(3, {}, true, false, 2)];
    assert turns[..1] == [turns[0]] && turns[..1][..0] == [];
  }

  // ---- How long a window lasts -----------------------------------------------------------

  /** The window that the turn opens: a granted request's, for its slot and a minute from now. */
  function Opened(m: Mgr, turn: Turn): Option<Window> {
    match turn
    case OpenTurn(slot, paired, pairableOk, accepted, at) =>
      if slot !in m.bindings && pairableOk && accepted then Some(Window(slot, at + 60_000, paired, false)) else None
    case RepairTurn(slot, paired, pairableOk, accepted, at) =>
      if slot !in m.bindings && m.pairing.Some? && m.pairing.value.slot == slot then None
      else if pairableOk && accepted then Some(Window(slot, at + 60_000, paired, false))
      else None
    case _ => None
  }

  /** The same window, settled or not. */
  predicate SameWindow(m: Mgr, m1: Mgr) {
    m1.pairing.Some? == m.pairing.Some?
    && (m.pairing.Some? ==> m1.pairing.value == m.pairing.value.(bound := m1.pairing.value.bound))
  }

  lemma PollEndsWindow(m: Mgr, answers: WindowAnswers, now: int)
    ensures var m1 := PollWindow(m, answers, now);
      if m.pairing.Some? && now >= m.pairing.value.deadline then m1.pairing == None else SameWindow(m, m1)
  {
    hide ApplyAdvertising, ConnectedHosts, FirstEligible;
  }

  lemma IncomingKeepsWindow(m: Mgr, t: Le, turn: Turn)
    requires turn.SubscribeTurn?
    ensures SameWindow(m, OnIncomingPeer(m, t, turn.peer, turn.bonded, turn.links, turn.adv, turn.at).0)
  {
    hide BindAndSettle, ConnectedHosts, SlotOf;
    if m.pairing.Some? {
      BoundAndSettled(m, m.pairing.value.slot, turn.peer, turn.links, turn.adv);
    }
  }

  lemma SubscribeKeepsWindow(m: Mgr, t: Le, turn: Turn)
    requires turn.SubscribeTurn?
    ensures SameWindow(m, OnSubscribeTurn(m, t, turn).0)
  {
    hide OnSubscribed, Subscribed, OnIncomingPeer;
    IncomingKeepsWindow(m, Subscribed(t, turn.peer, turn.id).0, turn);
  }

  lemma RequestOpensWindow(m: Mgr, t: Le, turn: Turn)
    requires turn.OpenTurn? || turn.RepairTurn?
    ensures var m1 := TakeTurn(m, t, turn).0;
      if Opened(m, turn).Some? then m1.pairing == Opened(m, turn) else m1.pairing == m.pairing
  {
  }

  /**
   A window is open from the request that BlueZ grants until the first tick a minute later, for the same slot
   throughout: any turn opens it so, ends it so, or keeps its slot and deadline.
  */
  lemma WindowsLastAMinute(m: Mgr, t: Le, turn: Turn)
    ensures var m1 := TakeTurn(m, t, turn).0;
      if Opened(m, turn).Some? then m1.pairing == Opened(m, turn)
      else if m.pairing.Some? && turn.TickTurn? && turn.at >= m.pairing.value.deadline then m1.pairing == None
      else SameWindow(m, m1)
  {
    hide RouteFrame, OnSlotChange, OnSubscribeTurn, Tick, PollWindow, SubForgotten, OpenWindow, RepairSlot;
    match turn {
      case OpenTurn(_, _, _, _, _) => RequestOpensWindow(m, t, turn);
      case RepairTurn(_, _, _, _, _) => RequestOpensWindow(m, t, turn);
      case SwitchTurn(slot, queue, links, adv, at) => SwitchKeepsBindings(m, t, slot, queue, links, adv, at);
      case SubscribeTurn(_, _, _, _, _, _, _) => SubscribeKeepsWindow(m, t, turn);
      case TickTurn(answers, at) =>
        PollEndsWindow(m, answers.window, at);
        TickKeepsPairable(m, t, answers, at);
      case _ =>
    }
  }
}
