/**
 Single-connection mode: who is told to disconnect, and when. The active slot's host never is;
 every other connected host is told within a sweep of the active host being present, and not
 again for five seconds.
*/
module OneHost {
  import opened Wrappers
  import opened Slots
  import opened Gatt
  import opened ManagerSpec
  import opened PairingWindows

  // ---- Never the active host -------------------------------------------------------------

  lemma OtherSlotOtherHost(m: Mgr, slot: Slot)
    requires Injective(m.bindings) && slot in m.bindings && slot != m.active
    ensures m.ActiveHost() != Some(m.bindings[slot])
  {
  }

  lemma IncomingSparesActiveHost(m: Mgr, t: Le, peer: Address, bonded: bool, links: set<Address>,
                                 answers: AdvAnswers, now: int)
    requires Injective(m.bindings)
    ensures var (m1, _, log) := OnIncomingPeer(m, t, peer, bonded, links, answers, now);
      (log == [] && m1.evicted == m.evicted)
      || (m1.ActiveHost() != Some(peer)
          && ((log == [Told(peer, now, Incoming)] && m1.evicted == m.evicted[peer := now])
              || (log == [Told(peer, now, Unbound)] && m1.evicted == m.evicted)))
  {
    hide BindAndSettle, ConnectedHosts, Mgr.ActiveHostPresent;
    var slot := SlotOf(m.bindings, peer);
    hide SlotOf;
    if slot.Some? {
      if !m.Serves(slot.value) {
        OtherSlotOtherHost(m, slot.value);
      }
    } else if m.active in m.bindings {
      assert m.bindings[m.active] in m.bindings.Values;
    }
  }

  lemma SubscribeSparesActiveHost(m: Mgr, t: Le, turn: Turn, e: Entry)
    requires turn.SubscribeTurn? && Injective(m.bindings)
    requires e in OnSubscribeTurn(m, t, turn).2 && e.Told?
    ensures OnSubscribeTurn(m, t, turn).0.ActiveHost() != Some(e.host)
  {
    hide Injective, OnIncomingPeer, OnSubscribed, Subscribed;
    IncomingSparesActiveHost(m, Subscribed(t, turn.peer, turn.id).0, turn.peer, turn.bonded,
                             turn.links, turn.adv, turn.at);
  }

  lemma SwitchSparesActiveHost(m: Mgr, t: Le, slot: Slot, queue: seq<Waiting>, links: set<Address>, adv: AdvAnswers,
                               at: int, e: Entry)
    requires e in OnSlotChange(m, t, slot, queue, links, adv, at).2 && e.Told?
    ensures OnSlotChange(m, t, slot, queue, links, adv, at).0.ActiveHost() != Some(e.host)
  {
    hide RouteAll, ApplyAdvertising, ConnectedHosts, ArmPending;
  }

  lemma TickSparesActiveHost(m: Mgr, t: Le, answers: TickAnswers, now: int, e: Entry)
    requires PairingSound(m) && e in Tick(m, t, answers, now).2 && e.Told?
    ensures Tick(m, t, answers, now).0.ActiveHost() != Some(e.host)
  {
    PolledWindowIsSound(m, answers.window, now);
    hide PollWindow, PollUninvited, ApplyAdvertising, PollStuckHosts, ConnectedHosts, ToldFrom, WindowSound, Injective;
    var m1 := PollWindow(m, answers.window, now);
    var (m2, t2, away) := PollUninvited(m1, t, ConnectedHosts(m1.bindings, answers.links), now);
    assert e in ToldFrom(m1, away, now, 256);
    var slot :| slot in m1.bindings && slot != m1.active && m1.bindings[slot] == e.host;
    OtherSlotOtherHost(m1, slot);
  }

  /** Whatever turn tells a host to disconnect, it is not the active slot's host afterwards. */
  lemma ActiveHostIsNeverSentAway(m: Mgr, t: Le, turn: Turn, e: Entry)
    requires PairingSound(m)
    ensures e in TakeTurn(m, t, turn).2 && e.Told? ==> TakeTurn(m, t, turn).0.ActiveHost() != Some(e.host)
  {
    if !(e in TakeTurn(m, t, turn).2 && e.Told?) {
      hide TakeTurn;
      return;
    }
    hide RouteFrame, OnSlotChange, OnSubscribeTurn, Tick, OpenWindow, RepairSlot, WindowSound, Injective;
    match turn {
      case SwitchTurn(slot, queue, links, adv, at) => SwitchSparesActiveHost(m, t, slot, queue, links, adv, at, e);
      case SubscribeTurn(_, _, _, _, _, _, _) => SubscribeSparesActiveHost(m, t, turn, e);
      case TickTurn(answers, at) => TickSparesActiveHost(m, t, answers, at, e);
      case _ =>
    }
  }

  /** Over a whole run: at each turn, whoever is told to go is not the active host. */
  lemma ActiveHostIsNeverSentAwayInARun(single: bool, bindings: Bindings, active: Slot, links: set<Address>,
                                        answers: AdvAnswers,
                                        now: int, turns: seq<Turn>, k: nat, e: Entry)
    requires Injective(bindings) && k < |turns|
    ensures var (m, t, _) := RunTurns(Boot(single, bindings, active, links, answers, now), NO_PEERS, turns[..k]);
      e in TakeTurn(m, t, turns[k]).2 && e.Told? ==> TakeTurn(m, t, turns[k]).0.ActiveHost() != Some(e.host)
  {
    hide RunTurns, TakeTurn, Boot, PairingSound;
    var m0 := Boot(single, bindings, active, links, answers, now);
    BootIsSound(single, bindings, active, links, answers, now);
    RunKeepsPairingSound(m0, NO_PEERS, turns[..k]);
    var (m, t, _) := RunTurns(m0, NO_PEERS, turns[..k]);
    ActiveHostIsNeverSentAway(m, t, turns[k], e);
  }

  // ---- Everybody else --------------------------------------------------------------------

  predicate StampedWithin(m: Mgr, a: Address, now: int) {
    a in m.evicted && now - m.evicted[a] < EVICT_COOLDOWN
  }

  lemma SweepReaches(m: Mgr, t: Le, connected: set<Address>, now: int, slot: Slot)
    requires m.single && m.pairing.None? && m.ActiveHostPresent(t, connected)
    requires slot in m.bindings && slot != m.active
    requires m.bindings[slot] in connected || t.IsPeerConnected(m.bindings[slot])
    ensures var (m1, t1, away) := PollUninvited(m, t, connected, now);
      StampedWithin(m1, m.bindings[slot], now)
      && (m.bindings[slot] in away <==> !StampedWithin(m, m.bindings[slot], now))
      && (m.bindings[slot] in away ==> !t1.IsPeerConnected(m.bindings[slot]))
  {
    hide Mgr.ActiveHostPresent;
  }

  /** With the active slot's host present and no window open, another slot's host is connected. */
  predicate Intrudes(m: Mgr, t: Le, links: set<Address>, slot: Slot) {
    && m.pairing.None?
    && m.ActiveHostPresent(t, ConnectedHosts(m.bindings, links))
    && slot in m.bindings && slot != m.active
    && (m.bindings[slot] in links || t.IsPeerConnected(m.bindings[slot]))
  }

  /**
   After a tick in single mode that found the active slot's host present and no window open,
   every other connected bound host has been told to go: just now, or less than 5 s ago.
  */
  lemma SweepReachesEverybodyElse(m: Mgr, t: Le, answers: TickAnswers, now: int, slot: Slot)
    requires m.single
    ensures var (m1, t1, log) := Tick(m, t, answers, now);
      Intrudes(m1, t, answers.links, slot) ==>
        StampedWithin(m1, m1.bindings[slot], now)
        && (Told(m1.bindings[slot], now, Sweep) in log <==> !StampedWithin(m, m1.bindings[slot], now))
  {
    hide PollWindow, PollUninvited, ApplyAdvertising, PollStuckHosts, ToldFrom, Mgr.ActiveHostPresent;
    var m0 := PollWindow(m, answers.window, now);
    var connected := ConnectedHosts(m0.bindings, answers.links);
    var (m1, t1, log) := Tick(m, t, answers, now);
    assert m0.bindings == m1.bindings && m0.active == m1.active && m0.pairing == m1.pairing && m0.evicted == m.evicted;
    if !Intrudes(m1, t, answers.links, slot) {
      return;
    }
    assert m0.bindings[slot] in m0.bindings.Values;
    SamePresence(m1, m0, t, connected);
    SweepReaches(m0, t, connected, now, slot);
    var away := PollUninvited(m0, t, connected, now).2;
    var told := ToldFrom(m0, away, now, 256);
    assert Told(m0.bindings[slot], now, Sweep) in told <==> m0.bindings[slot] in away;
  }

  lemma SamePresence(m: Mgr, m1: Mgr, t: Le, connected: set<Address>)
    requires m.ActiveHostPresent(t, connected) && m1.bindings == m.bindings && m1.active == m.active
    ensures m1.ActiveHostPresent(t, connected)
  {
  }

  // ---- Two slots with one address --------------------------------------------------------

  /** Another slot is bound to the same address. */
  predicate Shared(bindings: Bindings, slot: Slot) {
    slot in bindings && exists other: Slot :: other != slot && other in bindings && bindings[other] == bindings[slot]
  }

  /** The sweep takes the active host for an intruder. */
  predicate SweepHitsActive(m: Mgr, t: Le, connected: set<Address>, now: int) {
    && m.single && m.pairing.None? && m.ActiveHostPresent(t, connected)
    && Shared(m.bindings, m.active) && !StampedWithin(m, m.ActiveHost().value, now)
  }

  lemma SweepHitsActiveExactlyWhen(m: Mgr, t: Le, connected: set<Address>, now: int)
    ensures m.ActiveHost().Some? && m.ActiveHost().value in PollUninvited(m, t, connected, now).2
       <==> SweepHitsActive(m, t, connected, now)
  {
  }

  /** An arrival takes the active host for another slot's: a lower slot has its address. */
  predicate ArrivalHitsActive(m: Mgr, t: Le, peer: Address) {
    && m.single && m.pairing.None? && m.ActiveHost() == Some(peer) && peer !in t.peers
    && exists lower: Slot :: lower < m.active && lower in m.bindings && m.bindings[lower] == peer
  }

  predicate SendsActiveHostAway(m: Mgr, t: Le, turn: Turn) {
    match turn
    case TickTurn(answers, at) =>
      var m1 := PollWindow(m, answers.window, at);
      SweepHitsActive(m1, t, ConnectedHosts(m1.bindings, answers.links), at)
    case SubscribeTurn(peer, _, _, _, _, _, _) => ArrivalHitsActive(m, t, peer)
    case _ => false
  }

  /** The turn tells the host of the slot that is active afterwards to go. */
  predicate TellsActiveHost(m: Mgr, log: Log) {
    exists e :: e in log && e.Told? && m.ActiveHost() == Some(e.host)
  }

  lemma TickHitsActiveExactlyWhen(m: Mgr, t: Le, answers: TickAnswers, now: int)
    ensures var m1, (m2, _, log) := PollWindow(m, answers.window, now), Tick(m, t, answers, now);
      TellsActiveHost(m2, log) <==> SweepHitsActive(m1, t, ConnectedHosts(m1.bindings, answers.links), now)
  {
    hide PollWindow, PollUninvited, ApplyAdvertising, PollStuckHosts, ConnectedHosts, ToldFrom, SweepHitsActive;
    var m1 := PollWindow(m, answers.window, now);
    var connected := ConnectedHosts(m1.bindings, answers.links);
    var away := PollUninvited(m1, t, connected, now).2;
    var told := ToldFrom(m1, away, now, 256);
    var (m2, _, log) := Tick(m, t, answers, now);
    assert m2.ActiveHost() == m1.ActiveHost();
    SweepHitsActiveExactlyWhen(m1, t, connected, now);
    if SweepHitsActive(m1, t, connected, now) {
      var slot :| slot in m1.bindings && slot != m1.active && m1.bindings[slot] == m1.ActiveHost().value;
      assert Told(m1.bindings[slot], now, Sweep) in told;
      assert Told(m1.bindings[slot], now, Sweep) in log;
    }
  }

  lemma IncomingHitsActiveExactlyWhen(m: Mgr, t: Le, peer: Address, bonded: bool, links: set<Address>,
                                      answers: AdvAnswers, now: int)
    requires t.IsPeerConnected(peer)
    ensures var (m1, _, log) := OnIncomingPeer(m, t, peer, bonded, links, answers, now);
      TellsActiveHost(m1, log) <==>
      m.single && m.pairing.None? && m.ActiveHost() == Some(peer)
      && exists lower: Slot :: lower < m.active && lower in m.bindings && m.bindings[lower] == peer
  {
    hide BindAndSettle, ConnectedHosts, Le.IsPeerConnected;
    var (m1, _, log) := OnIncomingPeer(m, t, peer, bonded, links, answers, now);
    var slot := SlotOf(m.bindings, peer);
    hide SlotOf;
    if slot.Some? && m.ActiveHost() == Some(peer) && slot.value != m.active {
      assert slot.value < m.active;
      if m.single && m.pairing.None? {
        assert Told(peer, now, Incoming) in log;
      }
    }
    if slot.None? && m.active in m.bindings {
      assert m.bindings[m.active] in m.bindings.Values;
    }
  }

  lemma SubscribeHitsActiveExactlyWhen(m: Mgr, t: Le, turn: Turn)
    requires turn.SubscribeTurn?
    ensures var (m1, _, log) := OnSubscribeTurn(m, t, turn);
      TellsActiveHost(m1, log) <==> ArrivalHitsActive(m, t, turn.peer)
  {
    hide OnIncomingPeer, OnSubscribed;
    var (t1, first) := Subscribed(t, turn.peer, turn.id);
    var (m2, t2, told) :=
      if first then OnIncomingPeer(m, t1, turn.peer, turn.bonded, turn.links, turn.adv, turn.at) else (m, t1, []);
    var (m3, _, more) := OnSubscribed(m2, t2, turn.peer, turn.id, turn.outcomes);
    assert turn.id in t1.peers[turn.peer].subs;
    IncomingHitsActiveExactlyWhen(m, t1, turn.peer, turn.bonded, turn.links, turn.adv, turn.at);
    hide Subscribed;
    assert m3.ActiveHost() == m2.ActiveHost();
    assert TellsActiveHost(m3, told + more) <==> TellsActiveHost(m2, told) by {
      assert forall e :: e in told ==> e in told + more;
    }
  }

  /**
   When a turn tells the active slot's own host to go, exactly: a tick with the host present, no
   window open and no note of it under 5 s old, if any other slot has its address; or its arrival
   with no window open, if a lower slot has its address. Never if addresses are distinct.
  */
  lemma ActiveHostIsSentAwayExactlyWhen(m: Mgr, t: Le, turn: Turn)
    ensures var (m1, _, log) := TakeTurn(m, t, turn);
      TellsActiveHost(m1, log) <==> SendsActiveHostAway(m, t, turn)
  {
    hide RouteFrame, OnSlotChange, OnSubscribeTurn, Tick, OpenWindow, RepairSlot, PollWindow, SweepHitsActive,
      ArrivalHitsActive;
    match turn {
      case TickTurn(answers, at) => TickHitsActiveExactlyWhen(m, t, answers, at);
      case SubscribeTurn(_, _, _, _, _, _, _) => SubscribeHitsActiveExactlyWhen(m, t, turn);
      case SwitchTurn(slot, queue, links, adv, at) =>
        var (m1, _, log) := TakeTurn(m, t, turn);
        if TellsActiveHost(m1, log) {
          var e :| e in log && e.Told? && m1.ActiveHost() == Some(e.host);
          SwitchSparesActiveHost(m, t, slot, queue, links, adv, at, e);
        }
      case _ =>
    }
  }

  function PlainTick(at: int): Turn {
    TickTurn(TickAnswers(WindowAnswers(None, {}, {7}, AdvAnswers(true, None), true), {7},
                         AdvAnswers(true, None), true), at)
  }

  /** Slots 2 and 3 have host 7, and slot 2 is active. */
  predicate SharedDesk(m: Mgr) {
    m.single && m.bindings == map[2 := 7, 3 := 7] && m.active == 2 && m.pairing.None?
  }

  lemma SharedHostIsConnected(m: Mgr)
    requires SharedDesk(m)
    ensures ConnectedHosts(m.bindings, {7}) == {7} && Shared(m.bindings, 2)
  {
    assert m.bindings[2] in m.bindings.Values;
    assert m.bindings[3] == m.bindings[2];
  }

  lemma SharedHostIsTold(m: Mgr, t: Le, now: int)
    requires SharedDesk(m) && !StampedWithin(m, 7, now)
    ensures var (m1, _, log) := TakeTurn(m, t, PlainTick(now));
      TellsActiveHost(m1, log) && SharedDesk(m1) && !StampedWithin(m1, 7, now + EVICT_COOLDOWN)
  {
    var answers := PlainTick(now).answers;
    assert PollWindow(m, answers.window, now) == m;
    SharedHostIsConnected(m);
    hide ConnectedHosts, Shared, PollWindow, PollUninvited, ApplyAdvertising, PollStuckHosts, ToldFrom, TellsActiveHost;
    ActiveHostIsSentAwayExactlyWhen(m, t, PlainTick(now));
    SweepHitsActiveExactlyWhen(m, t, {7}, now);
    SweepStamps(m, t, {7}, now);
  }

  function TicksFrom(start: int, n: nat): (r: seq<Turn>)
    ensures |r| == n
  {
    if n == 0 then [] else TicksFrom(start, n - 1) + [PlainTick(start + EVICT_COOLDOWN * (n - 1))]
  }

  /**
   A configured address that repeats a learned one: with slots 2 and 3 both bound to host 7 and slot
   2 active, the hub tells its own active host to go every five seconds, for as long as it comes back.
  */
  lemma {:induction false} SharedHostIsToldAgainAndAgain(links: set<Address>, answers: AdvAnswers, start: int, n: nat)
    ensures
      var m0 := Boot(true, map[2 := 7, 3 := 7], 2, links, answers, 0);
      var (m, t, _) := RunTurns(m0, NO_PEERS, TicksFrom(start, n));
      var now := start + EVICT_COOLDOWN * n;
      SharedDesk(m) && !StampedWithin(m, 7, now)
      && var (m1, _, log) := TakeTurn(m, t, PlainTick(now)); TellsActiveHost(m1, log)
  {
    hide TakeTurn, TellsActiveHost, ApplyAdvertising, ConnectedHosts;
    var m0 := Boot(true, map[2 := 7, 3 := 7], 2, links, answers, 0);
    var (m, t, _) := RunTurns(m0, NO_PEERS, TicksFrom(start, n));
    if n > 0 {
      SharedHostIsToldAgainAndAgain(links, answers, start, n - 1);
      var before := start + EVICT_COOLDOWN * (n - 1);
      var (m1, t1, _) := RunTurns(m0, NO_PEERS, TicksFrom(start, n - 1));
      SharedHostIsTold(m1, t1, before);
      assert TicksFrom(start, n)[..n - 1] == TicksFrom(start, n - 1);
      assert before + EVICT_COOLDOWN == start + EVICT_COOLDOWN * n;
    }
    SharedHostIsTold(m, t, start + EVICT_COOLDOWN * n);
  }

  // ---- Not again for five seconds --------------------------------------------------------

  predicate Stamps(e: Entry) {
    e.Told? && e.why != Unbound
  }

  /** Every stamped disconnect in the log is remembered, or 5 s old. */
  ghost predicate Remembers(m: Mgr, log: Log, clock: int) {
    forall e :: e in log && Stamps(e) ==>
      e.at <= clock && ((e.host in m.evicted && m.evicted[e.host] >= e.at) || clock - e.at >= EVICT_COOLDOWN)
  }

  /** A sweep tells nobody who was told by the sweep, at a switch or on arrival in the 5 s before. */
  predicate NoNagging(log: Log) {
    forall i, j ::
      0 <= i < j < |log| && Stamps(log[i]) && log[j].Told? && log[j].why == Sweep && log[i].host == log[j].host ==>
        log[j].at - log[i].at >= EVICT_COOLDOWN
  }

  /** What a turn at `now` does to the stamps and adds to the log. */
  ghost predicate TellsSoundly(before: map<Address, int>, after: map<Address, int>, more: Log, now: int) {
    && (forall a :: a in before ==>
          (a in after && (after[a] == before[a] || after[a] == now)) || now - before[a] >= EVICT_COOLDOWN)
    && (forall e :: e in more && Stamps(e) ==> e.at == now && e.host in after && after[e.host] == now)
    && (forall e :: e in more && Stamps(e) && e.why == Sweep && e.host in before ==>
          now - before[e.host] >= EVICT_COOLDOWN)
    && (forall i, j :: 0 <= i < j < |more| && Stamps(more[i]) && Stamps(more[j]) && more[j].why == Sweep ==>
          more[i].host != more[j].host)
  }

  lemma TellingKeepsRemembering(m: Mgr, m1: Mgr, log: Log, more: Log, clock: int, now: int)
    requires Remembers(m, log, clock) && clock <= now && TellsSoundly(m.evicted, m1.evicted, more, now)
    ensures Remembers(m1, log + more, now)
  {
  }

  lemma TellingDoesNotNag(m: Mgr, m1: Mgr, log: Log, more: Log, clock: int, now: int)
    requires NoNagging(log) && Remembers(m, log, clock) && clock <= now
    requires TellsSoundly(m.evicted, m1.evicted, more, now)
    ensures NoNagging(log + more)
  {
    var all := log + more;
    forall i, j | 0 <= i < j < |all| && Stamps(all[i]) && all[j].Told? && all[j].why == Sweep
                  && all[i].host == all[j].host
      ensures all[j].at - all[i].at >= EVICT_COOLDOWN
    {
      if j >= |log| {
        assert all[j] == more[j - |log|] && Stamps(all[j]);
        if i < |log| {
          assert all[i] == log[i];
        }
      } else {
        assert all[i] == log[i] && all[j] == log[j];
      }
    }
  }

  lemma SilenceIsSound(evicted: map<Address, int>, more: Log, now: int)
    requires forall e :: e in more ==> !Stamps(e)
    ensures TellsSoundly(evicted, evicted, more, now)
  {
  }

  ghost predicate BoundBelow(m: Mgr, a: Address, n: nat) {
    exists slot: Slot :: slot < n && slot in m.bindings && m.bindings[slot] == a
  }

  lemma BoundBelowMore(m: Mgr, a: Address, n: nat)
    requires BoundBelow(m, a, n)
    ensures BoundBelow(m, a, n + 1)
  {
  }

  lemma BoundOnce(m: Mgr, slot: Slot)
    requires Injective(m.bindings) && slot in m.bindings
    ensures BoundBelow(m, m.bindings[slot], slot + 1) && !BoundBelow(m, m.bindings[slot], slot)
  {
  }

  lemma {:induction false} SweepTellsOnce(m: Mgr, away: set<Address>, now: int, n: nat)
    requires n <= 256 && Injective(m.bindings)
    ensures var log := ToldFrom(m, away, now, n);
      (forall e :: e in log ==> BoundBelow(m, e.host, n))
      && forall i, j :: 0 <= i < j < |log| ==> log[i].host != log[j].host
  {
    if n > 0 {
      SweepTellsOnce(m, away, now, n - 1);
      var before, log := ToldFrom(m, away, now, n - 1), ToldFrom(m, away, now, n);
      var slot: Slot := n - 1;
      if slot in m.bindings {
        BoundOnce(m, slot);
      }
      assert log == before || (slot in m.bindings && log == before + [Told(m.bindings[slot], now, Sweep)]);
      hide ToldFrom, BoundBelow, Injective;
      forall e | e in before ensures BoundBelow(m, e.host, n) {
        BoundBelowMore(m, e.host, n - 1);
      }
      assert forall i :: 0 <= i < |before| ==> before[i] in before;
    }
  }

  lemma SweepTellsSoundly(m: Mgr, t: Le, connected: set<Address>, now: int)
    requires Injective(m.bindings)
    ensures var (m1, _, away) := PollUninvited(m, t, connected, now);
      TellsSoundly(m.evicted, m1.evicted, ToldFrom(m, away, now, 256), now)
  {
    SweepStamps(m, t, connected, now);
    hide PollUninvited, ToldFrom, BoundBelow, Injective;
    SweepTellsOnce(m, PollUninvited(m, t, connected, now).2, now, 256);
  }

  lemma TickTellsSoundly(m: Mgr, t: Le, answers: TickAnswers, now: int)
    requires PairingSound(m)
    ensures var (m1, _, more) := Tick(m, t, answers, now); TellsSoundly(m.evicted, m1.evicted, more, now)
  {
    PolledWindowIsSound(m, answers.window, now);
    hide PollWindow, PollUninvited, ApplyAdvertising, PollStuckHosts, ConnectedHosts, ToldFrom, WindowSound,
      Injective, TellsSoundly;
    var m0 := PollWindow(m, answers.window, now);
    var connected := ConnectedHosts(m0.bindings, answers.links);
    var (m1, t1, away) := PollUninvited(m0, t, connected, now);
    SweepTellsSoundly(m0, t, connected, now);
    var told := ToldFrom(m0, away, now, 256);
    var m2 := ApplyAdvertising(m1, connected, answers.adv);
    var rest := PollStuckHosts(m2, t1, connected, now, answers.reregisterOk).2;
    assert Tick(m, t, answers, now).2 == told + rest;
    AddSilence(m.evicted, m1.evicted, told, rest, now);
  }

  lemma SweepStamps(m: Mgr, t: Le, connected: set<Address>, now: int)
    ensures var (m1, _, away) := PollUninvited(m, t, connected, now);
      (forall a :: a in m.evicted ==> (a in m1.evicted && (m1.evicted[a] == m.evicted[a] || m1.evicted[a] == now))
                                      || now - m.evicted[a] >= EVICT_COOLDOWN)
      && (forall a :: a in away ==> a in m1.evicted && m1.evicted[a] == now)
  {
    hide Uninvited, Mgr.ActiveHostPresent;
  }

  lemma AddSilence(before: map<Address, int>, after: map<Address, int>, more: Log, rest: Log, now: int)
    requires TellsSoundly(before, after, more, now) && forall e :: e in rest ==> !Stamps(e)
    ensures TellsSoundly(before, after, more + rest, now)
  {
    assert forall j :: |more| <= j < |more + rest| ==> (more + rest)[j] in rest;
  }

  lemma SwitchTellsSoundly(m: Mgr, t: Le, slot: Slot, queue: seq<Waiting>, links: set<Address>, adv: AdvAnswers,
                           at: int)
    ensures var (m1, _, more) := OnSlotChange(m, t, slot, queue, links, adv, at);
      TellsSoundly(m.evicted, m1.evicted, more, at)
  {
    hide RouteAll, ApplyAdvertising, ConnectedHosts, ArmPending, TellsSoundly;
    var m0 := m.(active := slot);
    var (r, _, more) := OnSlotChange(m, t, slot, queue, links, adv, at);
    if !m.single {
      SilenceIsSound(m.evicted, more, at);
    } else {
      var routed := RouteAll(m0, t, queue).2;
      if more == routed {
        SilenceIsSound(m.evicted, more, at);
      } else {
        var a := m.ActiveHost().value;
        assert more == routed + [Forgot(a), Told(a, at, Switch)];
        assert r.evicted == (m.evicted - {a})[a := at];
        hide OnSlotChange;
        OneStamp(m.evicted, r.evicted, routed + [Forgot(a)], a, at);
        assert more == routed + [Forgot(a)] + [Told(a, at, Switch)];
      }
    }
  }

  lemma OneStamp(before: map<Address, int>, after: map<Address, int>, silent: Log, a: Address, at: int)
    requires after == (before - {a})[a := at] && forall e :: e in silent ==> !Stamps(e)
    ensures TellsSoundly(before, after, silent + [Told(a, at, Switch)], at)
  {
  }

  lemma SubscribeTellsSoundly(m: Mgr, t: Le, turn: Turn)
    requires turn.SubscribeTurn? && Injective(m.bindings)
    ensures var (m1, _, more) := OnSubscribeTurn(m, t, turn); TellsSoundly(m.evicted, m1.evicted, more, turn.at)
  {
    hide Injective, OnIncomingPeer, OnSubscribed, Subscribed, TellsSoundly;
    var (t1, first) := Subscribed(t, turn.peer, turn.id);
    IncomingSparesActiveHost(m, t1, turn.peer, turn.bonded, turn.links, turn.adv, turn.at);
    var (m2, t2, log) :=
      if first then OnIncomingPeer(m, t1, turn.peer, turn.bonded, turn.links, turn.adv, turn.at) else (m, t1, []);
    var rest := OnSubscribed(m2, t2, turn.peer, turn.id, turn.outcomes).2;
    IncomingTellsSoundly(m.evicted, m2.evicted, log, turn.peer, turn.at);
    AddSilence(m.evicted, m2.evicted, log, rest, turn.at);
  }

  lemma IncomingTellsSoundly(before: map<Address, int>, after: map<Address, int>, log: Log, peer: Address, now: int)
    requires (after == before && (log == [] || log == [Told(peer, now, Unbound)]))
          || (after == before[peer := now] && log == [Told(peer, now, Incoming)])
    ensures TellsSoundly(before, after, log, now)
  {
  }

  lemma TurnTellsSoundly(m: Mgr, t: Le, turn: Turn)
    requires PairingSound(m)
    ensures var (m1, _, more) := TakeTurn(m, t, turn); TellsSoundly(m.evicted, m1.evicted, more, turn.at)
  {
    hide RouteFrame, OnSlotChange, OnSubscribeTurn, Tick, OpenWindow, RepairSlot, WindowSound, Injective, TellsSoundly;
    match turn {
      case SwitchTurn(slot, queue, links, adv, at) => SwitchTellsSoundly(m, t, slot, queue, links, adv, at);
      case SubscribeTurn(_, _, _, _, _, _, _) => SubscribeTellsSoundly(m, t, turn);
      case TickTurn(answers, at) => TickTellsSoundly(m, t, answers, at);
      case _ => SilenceIsSound(m.evicted, TakeTurn(m, t, turn).2, turn.at);
    }
  }

  /** The clock never runs backwards, and starts no later than the first turn. */
  predicate InTime(turns: seq<Turn>, start: int) {
    && (turns != [] ==> start <= turns[0].at)
    && forall i, j :: 0 <= i < j < |turns| ==> turns[i].at <= turns[j].at
  }

  function Clock(turns: seq<Turn>, start: int): int {
    if turns == [] then start else turns[|turns| - 1].at
  }

  lemma {:induction false} RunDoesNotNag(m: Mgr, t: Le, turns: seq<Turn>, start: int)
    requires PairingSound(m) && InTime(turns, start)
    ensures var (m1, _, log) := RunTurns(m, t, turns); NoNagging(log) && Remembers(m1, log, Clock(turns, start))
  {
    hide TakeTurn, PairingSound, TellsSoundly;
    if turns != [] {
      var before, last := turns[..|turns| - 1], turns[|turns| - 1];
      RunDoesNotNag(m, t, before, start);
      RunKeepsPairingSound(m, t, before);
      var (m1, t1, log) := RunTurns(m, t, before);
      var (m2, t2, more) := TakeTurn(m1, t1, last);
      TurnTellsSoundly(m1, t1, last);
      hide NoNagging, Remembers;
      assert Clock(before, start) <= last.at;
      TellingKeepsRemembering(m1, m2, log, more, Clock(before, start), last.at);
      TellingDoesNotNag(m1, m2, log, more, Clock(before, start), last.at);
    }
  }

  /** Over any run from injective bindings, the sweep never tells a host again within 5 s. */
  lemma SweepDoesNotNag(single: bool, bindings: Bindings, active: Slot, links: set<Address>, answers: AdvAnswers,
                        now: int,
                        turns: seq<Turn>)
    requires Injective(bindings) && InTime(turns, now)
    ensures NoNagging(RunTurns(Boot(single, bindings, active, links, answers, now), NO_PEERS, turns).2)
  {
    hide RunTurns, Boot, PairingSound, NoNagging, InTime;
    BootIsSound(single, bindings, active, links, answers, now);
    RunDoesNotNag(Boot(single, bindings, active, links, answers, now), NO_PEERS, turns, now);
  }

  // ---- Who is turned away at the door ----------------------------------------------------

  predicate IsLowest(m: Mgr, slot: Slot, host: Address) {
    slot in m.bindings && m.bindings[slot] == host
    && forall other: Slot :: other < slot && other in m.bindings ==> m.bindings[other] != host
  }

  /** The lowest slot bound to the host is one that is not served now. */
  predicate WaitsItsTurn(m: Mgr, host: Address) {
    m.single && exists slot: Slot :: IsLowest(m, slot, host) && slot != m.active
  }

  /** A bound host whose turn it is not while the active one is there, or a stranger nobody has a window for. */
  predicate Unwelcome(m: Mgr, t: Le, turn: Turn)
    requires turn.SubscribeTurn?
  {
    if turn.peer in m.bindings.Values then
      WaitsItsTurn(m, turn.peer) && m.pairing.None? && m.ActiveHost().Some?
      && (m.ActiveHost().value in turn.links || t.IsPeerConnected(m.ActiveHost().value))
    else !(m.WindowOpen() && turn.bonded)
  }

  lemma LowestSlotDecides(m: Mgr, host: Address)
    ensures SlotOf(m.bindings, host).Some? <==> host in m.bindings.Values
    ensures host in m.bindings.Values ==> (WaitsItsTurn(m, host) <==> !m.Serves(SlotOf(m.bindings, host).value))
  {
    hide SlotFrom;
    var lowest := SlotOf(m.bindings, host);
    if host in m.bindings.Values && WaitsItsTurn(m, host) {
      var slot: Slot :| IsLowest(m, slot, host) && slot != m.active;
      assert !(lowest.value < slot) && !(slot < lowest.value);
    } else if host in m.bindings.Values {
      assert IsLowest(m, lowest.value, host);
    }
  }

  lemma IncomingTurnsAway(m: Mgr, t: Le, turn: Turn)
    requires turn.SubscribeTurn?
    ensures var (_, t1, log) :=
      OnIncomingPeer(m, t, turn.peer, turn.bonded, turn.links, turn.adv, turn.at);
      if Unwelcome(m, t, turn) then
        t1 == PeerDropped(t, turn.peer) && |log| == 1 && log[0].Told? && log[0].host == turn.peer
      else t1 == t && log == []
  {
    LowestSlotDecides(m, turn.peer);
    hide SlotOf, BindAndSettle, WaitsItsTurn;
    if m.ActiveHost().Some? {
      assert m.bindings[m.active] in m.bindings.Values;
    }
  }

  /**
   A host that shows up with its first subscription is told to go, and loses it, exactly if it is a stranger
   with no window waiting or it has to wait its turn while the active host is there; nobody else is told.
  */
  lemma ArrivalsAreTurnedAwayExactlyWhen(m: Mgr, t: Le, turn: Turn, host: Address)
    requires turn.SubscribeTurn?
    ensures var (_, t1, log) := TakeTurn(m, t, turn);
      var away := turn.peer !in t.peers && Unwelcome(m, Subscribed(t, turn.peer, turn.id).0, turn);
      ((exists e :: e in log && e.Told? && e.host == host) <==> away && host == turn.peer)
      && (away ==> !t1.IsPeerConnected(turn.peer))
  {
    var (t1, first) := Subscribed(t, turn.peer, turn.id);
    assert first <==> turn.peer !in t.peers;
    hide OnIncomingPeer, Subscribed, Unwelcome;
    IncomingTurnsAway(m, t1, turn);
    var (m2, t2, told) :=
      if first then OnIncomingPeer(m, t1, turn.peer, turn.bonded, turn.links, turn.adv, turn.at) else (m, t1, []);
    var (_, t3, more) := OnSubscribed(m2, t2, turn.peer, turn.id, turn.outcomes);
    if first && Unwelcome(m, t1, turn) {
      assert told[0] in told + more;
      GoneGetsNothing(m2, t2, turn);
    }
    hide OnSubscribed;
  }

  lemma GoneGetsNothing(m: Mgr, t: Le, turn: Turn)
    requires turn.SubscribeTurn? && turn.peer !in t.peers
    ensures OnSubscribed(m, t, turn.peer, turn.id, turn.outcomes) == (m, t, [])
  {
  }

  /**
   A switch in single mode tells the host being left to go exactly if there is one and the new slot has another:
   it loses its subscriptions, its record as a stuck host is wiped, and the sweep will not tell it for a while.
  */
  lemma SwitchLetsGoOfTheOldHost(m: Mgr, t: Le, turn: Turn)
    requires turn.SwitchTurn? && m.single && m.ActiveHost().Some?
    ensures var (m1, t1, log) := TakeTurn(m, t, turn);
      var old' := m.ActiveHost().value;
      (Told(old', turn.at, Switch) in log <==> m1.ActiveHost() != Some(old'))
      && (m1.ActiveHost() != Some(old') ==>
            !t1.IsPeerConnected(old') && old' !in m1.stuck && old' !in m1.kicked && old' !in m1.helped
            && old' in m1.evicted && m1.evicted[old'] == turn.at)
  {
    hide RouteAll, ApplyAdvertising, ConnectedHosts, ArmPending;
  }
}
