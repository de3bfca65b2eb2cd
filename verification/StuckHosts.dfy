/**
 The escalation ladder for hosts that connect but never enable a report: a host is disconnected
 first, and the HID services are registered again only when that did not help, nobody else is
 using them, and it is not too soon. Stated over the log of any run.
*/
module StuckHosts {
  import opened Wrappers
  import opened Slots
  import opened Gatt
  import opened ManagerSpec

  // ---- What a log says about a host ------------------------------------------------------

  /** The host has been served by a re-registration, and has not been seen away or forgotten since. */
  predicate ServedSince(log: Log, a: Address) {
    if log == [] then false
    else
      match log[|log| - 1]
      case Reregistered(host, _) => host == a || ServedSince(log[..|log| - 1], a)
      case SawAway(host) => host != a && ServedSince(log[..|log| - 1], a)
      case Forgot(host) => host != a && ServedSince(log[..|log| - 1], a)
      case _ => ServedSince(log[..|log| - 1], a)
  }

  /** When the host was last kicked, if it has not been seen attached or forgotten since. */
  function KickedSince(log: Log, a: Address): Option<int> {
    if log == [] then None
    else
      match log[|log| - 1]
      case Kicked(host, at) => if host == a then Some(at) else KickedSince(log[..|log| - 1], a)
      case SawAttached(host) => if host == a then None else KickedSince(log[..|log| - 1], a)
      case Forgot(host) => if host == a then None else KickedSince(log[..|log| - 1], a)
      case _ => KickedSince(log[..|log| - 1], a)
  }

  function LastReregistration(log: Log): Option<int> {
    if log == [] then None
    else if log[|log| - 1].Reregistered? then Some(log[|log| - 1].at)
    else LastReregistration(log[..|log| - 1])
  }

  /**
   A re-registration for `a` at `now` is in order after this log: the last one is at least 10 s
   ago, `a` has been away or forgotten since it was last served, and it was kicked less than
   30 s ago without being seen attached since.
  */
  predicate InOrderAfter(log: Log, a: Address, now: int) {
    && (LastReregistration(log).Some? ==> now - LastReregistration(log).value >= REREGISTER_COOLDOWN)
    && !ServedSince(log, a)
    && KickedSince(log, a).Some?
    && now - KickedSince(log, a).value < KICK_MEMORY
  }

  predicate LadderRespected(log: Log) {
    log == [] ||
    var before, e := log[..|log| - 1], log[|log| - 1];
    LadderRespected(before) && (e.Reregistered? ==> InOrderAfter(before, e.host, e.at))
  }

  // ---- The manager's notes agree with the log --------------------------------------------

  ghost predicate NotesAgree(log: Log, kicked: map<Address, int>, helped: set<Address>) {
    && (forall a :: ServedSince(log, a) ==> a in helped)
    && (forall a :: a in kicked ==> KickedSince(log, a) == Some(kicked[a]))
  }

  ghost predicate Climbs(m: Mgr, log: Log) {
    && NotesAgree(log, m.kicked, m.helped)
    && LastReregistration(log) == m.lastReregister
    && LadderRespected(log)
  }

  /** Entries the ladder does not look at. */
  predicate Irrelevant(log: Log) {
    forall e :: e in log ==> e.Routed? || e.Given? || e.Told?
  }

  lemma Snoc(log: Log, e: Entry)
    ensures (log + [e])[..|log + [e]| - 1] == log && (log + [e])[|log + [e]| - 1] == e
  {
  }

  lemma {:induction false} IrrelevantSaysNothing(log: Log, more: Log, a: Address)
    requires Irrelevant(more)
    ensures ServedSince(log + more, a) == ServedSince(log, a)
    ensures KickedSince(log + more, a) == KickedSince(log, a)
    ensures LastReregistration(log + more) == LastReregistration(log)
    ensures LadderRespected(log + more) == LadderRespected(log)
  {
    if more == [] {
      assert log + more == log;
    } else {
      var rest, e := more[..|more| - 1], more[|more| - 1];
      assert e in more;
      IrrelevantSaysNothing(log, rest, a);
      assert log + more == (log + rest) + [e];
      Snoc(log + rest, e);
    }
  }

  lemma IrrelevantKeeps(m: Mgr, m1: Mgr, log: Log, more: Log)
    requires Climbs(m, log) && Irrelevant(more)
    requires m1.kicked == m.kicked && m1.helped == m.helped && m1.lastReregister == m.lastReregister
    ensures Climbs(m1, log + more)
  {
    hide Irrelevant, ServedSince, KickedSince, LastReregistration, LadderRespected;
    forall a
      ensures ServedSince(log + more, a) == ServedSince(log, a)
      ensures KickedSince(log + more, a) == KickedSince(log, a)
    {
      IrrelevantSaysNothing(log, more, a);
    }
    IrrelevantSaysNothing(log, more, 0);
  }

  // ---- The scan --------------------------------------------------------------------------

  lemma SawAwayAgrees(log: Log, kicked: map<Address, int>, helped: set<Address>, a: Address)
    requires NotesAgree(log, kicked, helped)
    ensures NotesAgree(log + [SawAway(a)], kicked, helped - {a})
  {
    Snoc(log, SawAway(a));
  }

  lemma SawAttachedAgrees(log: Log, kicked: map<Address, int>, helped: set<Address>, a: Address)
    requires NotesAgree(log, kicked, helped)
    ensures NotesAgree(log + [SawAttached(a)], kicked - {a}, helped)
  {
    Snoc(log, SawAttached(a));
  }

  lemma ForgotAgrees(log: Log, kicked: map<Address, int>, helped: set<Address>, a: Address)
    requires NotesAgree(log, kicked, helped)
    ensures NotesAgree(log + [Forgot(a)], kicked - {a}, helped - {a})
  {
    Snoc(log, Forgot(a));
  }

  lemma KickedAgrees(log: Log, kicked: map<Address, int>, helped: set<Address>, a: Address, now: int)
    requires NotesAgree(log, kicked, helped)
    ensures NotesAgree(log + [Kicked(a, now)], kicked[a := now], helped)
  {
    Snoc(log, Kicked(a, now));
  }

  lemma ReregisteredAgrees(log: Log, kicked: map<Address, int>, helped: set<Address>, more: set<Address>, a: Address,
                           now: int)
    requires NotesAgree(log, kicked, helped) && a in more
    ensures NotesAgree(log + [Reregistered(a, now)], map[], helped + more)
  {
    Snoc(log, Reregistered(a, now));
  }

  /** A log entry that is no re-registration changes neither the ladder's verdict nor the time of the last one. */
  lemma OtherEntryKeepsLadder(log: Log, e: Entry)
    requires !e.Reregistered?
    ensures LadderRespected(log + [e]) == LadderRespected(log)
    ensures LastReregistration(log + [e]) == LastReregistration(log)
  {
    hide InOrderAfter;
    Snoc(log, e);
  }

  /** What holds while the hosts are scanned, `log` being the log before the scan. */
  ghost predicate ScanAgrees(m: Mgr, log: Log, s: Scan) {
    && NotesAgree(log + s.log, s.kicked, s.helped)
    && LastReregistration(log + s.log) == m.lastReregister
    && LadderRespected(log + s.log)
  }

  lemma ScanHostAgrees(m: Mgr, t: Le, connected: set<Address>, now: int, log: Log, s: Scan, slot: Slot)
    requires ScanAgrees(m, log, s)
    ensures ScanAgrees(m, log, ScanHost(m, t, connected, now, s, slot))
  {
    hide NotesAgree, LastReregistration, LadderRespected;
    if slot in m.bindings && m.Serves(slot) {
      var a := m.bindings[slot];
      if a !in connected {
        SawAwayAgrees(log + s.log, s.kicked, s.helped, a);
        OtherEntryKeepsLadder(log + s.log, SawAway(a));
        assert log + (s.log + [SawAway(a)]) == (log + s.log) + [SawAway(a)];
      } else if t.IsPeerConnected(a) {
        SawAttachedAgrees(log + s.log, s.kicked, s.helped, a);
        OtherEntryKeepsLadder(log + s.log, SawAttached(a));
        assert log + (s.log + [SawAttached(a)]) == (log + s.log) + [SawAttached(a)];
      }
    }
  }

  lemma {:induction false} ScanHostsAgree(m: Mgr, t: Le, connected: set<Address>, now: int, log: Log, s: Scan, n: nat)
    requires n <= 256 && ScanAgrees(m, log, s)
    ensures ScanAgrees(m, log, ScanHosts(m, t, connected, now, s, n))
  {
    hide ScanAgrees, ScanHost;
    if n > 0 {
      ScanHostsAgree(m, t, connected, now, log, s, n - 1);
      ScanHostAgrees(m, t, connected, now, log, ScanHosts(m, t, connected, now, s, n - 1), n - 1);
    }
  }

  lemma StartScanAgrees(m: Mgr, log: Log, now: int)
    requires Climbs(m, log)
    ensures ScanAgrees(m, log, StartScan(m, now))
  {
    hide ServedSince, KickedSince, LastReregistration, LadderRespected;
    assert log + [] == log;
  }

  /** A host of the slots below `n` that is connected and has no subscription: the scan's business. */
  predicate Silent(m: Mgr, t: Le, connected: set<Address>, a: Address) {
    a in connected && !t.IsPeerConnected(a)
  }

  /** What the scan has found out after the slots below `n`. */
  ghost predicate ScanFound(m: Mgr, t: Le, connected: set<Address>, now: int, s: Scan, n: nat) {
    && (s.trigger.Some? ==> s.trigger.value in m.bindings.Values && Silent(m, t, connected, s.trigger.value)
                            && s.trigger.value !in s.helped)
    && (!s.othersSubscribed ==> forall slot: Slot :: slot < n && slot in m.bindings && m.Serves(slot) ==>
          m.bindings[slot] !in connected || !t.IsPeerConnected(m.bindings[slot]))
    && (forall a :: a in s.kicked ==> now - s.kicked[a] < KICK_MEMORY)
  }

  lemma ScanHostFinds(m: Mgr, t: Le, connected: set<Address>, now: int, s: Scan, slot: Slot)
    requires ScanFound(m, t, connected, now, s, slot)
    ensures ScanFound(m, t, connected, now, ScanHost(m, t, connected, now, s, slot), slot + 1)
  {
  }

  lemma {:induction false} ScanHostsFind(m: Mgr, t: Le, connected: set<Address>, now: int, n: nat)
    requires n <= 256
    ensures ScanFound(m, t, connected, now, ScanHosts(m, t, connected, now, StartScan(m, now), n), n)
  {
    if n > 0 {
      ScanHostsFind(m, t, connected, now, n - 1);
      hide ScanFound, ScanHost;
      ScanHostFinds(m, t, connected, now, ScanHosts(m, t, connected, now, StartScan(m, now), n - 1), n - 1);
    }
  }

  /** The poll disconnects only hosts without a subscription, so it ends none. */
  lemma KicksEndNoSubscription(m: Mgr, t: Le, connected: set<Address>, now: int, reregisterOk: bool)
    requires PeersAreSubscribed(t)
    ensures PollStuckHosts(m, t, connected, now, reregisterOk).1 == t
  {
    ScanHostsFind(m, t, connected, now, 256);
    hide ScanHosts, StartScan, CoolingDown;
    var s := ScanHosts(m, t, connected, now, StartScan(m, now), 256);
    if s.trigger.Some? {
      assert s.trigger.value !in t.peers;
      assert t.peers - {s.trigger.value} == t.peers;
    }
  }

  // ---- The poll --------------------------------------------------------------------------

  lemma TriggerIsInOrder(m: Mgr, log: Log, s: Scan, a: Address, now: int)
    requires ScanAgrees(m, log, s) && a !in s.helped && a in s.kicked && now - s.kicked[a] < KICK_MEMORY
    requires !CoolingDown(m, now)
    ensures InOrderAfter(log + s.log, a, now)
  {
    hide ServedSince, KickedSince, LastReregistration, LadderRespected;
  }

  /** The manager with the notes of the scan. */
  function Scanned(m: Mgr, s: Scan): Mgr {
    m.(stuck := s.stuck, kicked := s.kicked, helped := s.helped)
  }

  lemma KickKeepsClimbing(m: Mgr, m1: Mgr, log: Log, a: Address, now: int)
    requires Climbs(m, log) && m1 == m.(kicked := m.kicked[a := now], stuck := m1.stuck)
    ensures Climbs(m1, log + [Kicked(a, now)])
  {
    hide NotesAgree, LastReregistration, LadderRespected;
    KickedAgrees(log, m.kicked, m.helped, a, now);
    OtherEntryKeepsLadder(log, Kicked(a, now));
  }

  lemma ReregistrationKeepsClimbing(m: Mgr, m1: Mgr, log: Log, more: set<Address>, a: Address, now: int)
    requires Climbs(m, log) && InOrderAfter(log, a, now) && a in more
    requires m1 == m.(lastReregister := Some(now), stuck := map[], kicked := map[], helped := m.helped + more)
    ensures Climbs(m1, log + [Reregistered(a, now)])
  {
    hide NotesAgree, LastReregistration, LadderRespected, InOrderAfter;
    ReregisteredAgrees(log, m.kicked, m.helped, more, a, now);
    ReregisteredKeepsLadder(log, a, now);
  }

  lemma PollKeepsClimbing(m: Mgr, t: Le, connected: set<Address>, now: int, reregisterOk: bool, log: Log)
    requires Climbs(m, log)
    ensures var (m1, t1, more) := PollStuckHosts(m, t, connected, now, reregisterOk); Climbs(m1, log + more)
  {
    StartScanAgrees(m, log, now);
    ScanHostsAgree(m, t, connected, now, log, StartScan(m, now), 256);
    ScanHostsFind(m, t, connected, now, 256);
    hide NotesAgree, LastReregistration, LadderRespected, ScanHosts, StartScan, InOrderAfter, Silent, Remedied;
    var s := ScanHosts(m, t, connected, now, StartScan(m, now), 256);
    var l := log + s.log;
    assert Climbs(Scanned(m, s), l);
    if s.trigger.Some? && s.trigger.value in s.kicked && !CoolingDown(m, now) {
      TriggerIsInOrder(m, log, s, s.trigger.value, now);
    }
    RemedyKeepsClimbing(Scanned(m, s), t, s.trigger, s.othersSubscribed, now, reregisterOk, l);
    var more := Remedied(Scanned(m, s), t, s.trigger, s.othersSubscribed, now, reregisterOk).2;
    assert log + (s.log + more) == l + more;
  }

  lemma RemedyKeepsClimbing(m: Mgr, t: Le, trigger: Option<Address>, others: bool, now: int, reregisterOk: bool,
                            log: Log)
    requires Climbs(m, log) && (trigger.Some? ==> trigger.value in m.bindings.Values)
    requires trigger.Some? && trigger.value in m.kicked && !CoolingDown(m, now) ==>
      InOrderAfter(log, trigger.value, now)
    ensures var (m1, _, more) := Remedied(m, t, trigger, others, now, reregisterOk); Climbs(m1, log + more)
  {
    hide NotesAgree, LastReregistration, LadderRespected, InOrderAfter, PeerDropped, CoolingDown;
    var (m1, _, more) := Remedied(m, t, trigger, others, now, reregisterOk);
    if more == [] {
      assert log + more == log;
      if m1.helped != m.helped {
        MoreHelped(log, m.kicked, m.helped, trigger.value);
      }
    } else if more[0].Kicked? {
      KickKeepsClimbing(m, m1, log, trigger.value, now);
    } else {
      ReregistrationKeepsClimbing(m, m1, log, m.bindings.Values, trigger.value, now);
    }
  }

  lemma MoreHelped(log: Log, kicked: map<Address, int>, helped: set<Address>, a: Address)
    requires NotesAgree(log, kicked, helped)
    ensures NotesAgree(log, kicked, helped + {a})
  {
    hide ServedSince, KickedSince;
  }

  lemma ReregisteredKeepsLadder(log: Log, a: Address, now: int)
    requires LadderRespected(log) && InOrderAfter(log, a, now)
    ensures LadderRespected(log + [Reregistered(a, now)])
    ensures LastReregistration(log + [Reregistered(a, now)]) == Some(now)
  {
    hide InOrderAfter;
    Snoc(log, Reregistered(a, now));
  }

  // ---- Whole turns -----------------------------------------------------------------------

  /** What a tick does before it looks at stuck hosts leaves the ladder's notes alone. */
  lemma EarlierPollsLeaveTheLadder(m: Mgr, t: Le, answers: TickAnswers, now: int)
    ensures var m1 := PollWindow(m, answers.window, now);
      var connected := ConnectedHosts(m1.bindings, answers.links);
      var m3 := ApplyAdvertising(PollUninvited(m1, t, connected, now).0, connected, answers.adv);
      m3.kicked == m.kicked && m3.helped == m.helped && m3.lastReregister == m.lastReregister
  {
    hide PollWindow, PollUninvited, ApplyAdvertising, ConnectedHosts;
  }

  lemma TickKeepsClimbing(m: Mgr, t: Le, answers: TickAnswers, now: int, log: Log)
    requires Climbs(m, log)
    ensures var (m1, t1, more) := Tick(m, t, answers, now); Climbs(m1, log + more)
  {
    hide Climbs, PollWindow, PollUninvited, ApplyAdvertising, PollStuckHosts, ConnectedHosts, ToldFrom,
      OnlyAdvertisingDiffers, OnlyPairingDiffers, PeerDropped;
    var m1 := PollWindow(m, answers.window, now);
    var connected := ConnectedHosts(m1.bindings, answers.links);
    var (m2, t2, away) := PollUninvited(m1, t, connected, now);
    var m3 := ApplyAdvertising(m2, connected, answers.adv);
    var (m4, t4, more) := PollStuckHosts(m3, t2, connected, now, answers.reregisterOk);
    var told := ToldFrom(m1, away, now, 256);
    assert Tick(m, t, answers, now) == (PollPending(m4, now), t4, told + more);
    EarlierPollsLeaveTheLadder(m, t, answers, now);
    hide Tick;
    IrrelevantKeeps(m, m3, log, told);
    PollKeepsClimbing(m3, t2, connected, now, answers.reregisterOk, log + told);
    assert log + (told + more) == (log + told) + more;
    PendingKeepsClimbing(m4, now, log + told + more);
  }

  lemma PendingKeepsClimbing(m: Mgr, now: int, log: Log)
    requires Climbs(m, log)
    ensures Climbs(PollPending(m, now), log)
  {
    hide NotesAgree, LadderRespected, LastReregistration;
  }

  lemma SwitchKeepsClimbing(m: Mgr, t: Le, slot: Slot, queue: seq<Waiting>, links: set<Address>, adv: AdvAnswers,
                            at: int, log: Log)
    requires Climbs(m, log)
    ensures var (m1, t1, more) := OnSlotChange(m, t, slot, queue, links, adv, at); Climbs(m1, log + more)
  {
    hide Climbs, RouteAll, ApplyAdvertising, ConnectedHosts, ArmPending;
    var m0 := m.(active := slot);
    var (r, _, more) := OnSlotChange(m, t, slot, queue, links, adv, at);
    if !m.single {
      IrrelevantKeeps(m, r, log, more);
    } else {
      var (m1, t1, routed) := RouteAll(m0, t, queue);
      var m3 := ApplyAdvertising(ArmPending(m1, t1, at), ConnectedHosts(m1.bindings, links), adv);
      IrrelevantKeeps(m, m3, log, routed);
      if more != routed {
        var a := m.ActiveHost().value;
        assert log + more == (log + routed) + [Forgot(a)] + [Told(a, at, Switch)];
        ForgotKeepsClimbing(m3, ForgetHost(m3, a), log + routed, a);
        IrrelevantKeeps(ForgetHost(m3, a), r, log + routed + [Forgot(a)], [Told(a, at, Switch)]);
      }
    }
  }

  lemma ForgotKeepsClimbing(m: Mgr, m1: Mgr, log: Log, a: Address)
    requires Climbs(m, log) && m1 == ForgetHost(m, a)
    ensures Climbs(m1, log + [Forgot(a)])
  {
    hide NotesAgree, LastReregistration, LadderRespected;
    ForgotAgrees(log, m.kicked, m.helped, a);
    OtherEntryKeepsLadder(log, Forgot(a));
  }

  lemma TurnKeepsClimbing(m: Mgr, t: Le, turn: Turn, log: Log)
    requires Climbs(m, log)
    ensures var (m1, t1, more) := TakeTurn(m, t, turn); Climbs(m1, log + more)
  {
    hide Climbs, RouteFrame, OnSlotChange, OnIncomingPeer, OnSubscribed, Tick, OpenWindow, RepairSlot, Subscribed,
      SubForgotten;
    var (m1, t1, more) := TakeTurn(m, t, turn);
    match turn {
      case SwitchTurn(slot, queue, links, adv, at) => SwitchKeepsClimbing(m, t, slot, queue, links, adv, at, log);
      case TickTurn(answers, at) => TickKeepsClimbing(m, t, answers, at, log);
      case _ => IrrelevantKeeps(m, m1, log, more);
    }
  }

  lemma {:induction false} RunKeepsClimbing(m: Mgr, t: Le, turns: seq<Turn>)
    requires Climbs(m, [])
    ensures var (m1, _, log) := RunTurns(m, t, turns); Climbs(m1, log)
  {
    hide TakeTurn, Climbs;
    if turns != [] {
      var before := turns[..|turns| - 1];
      RunKeepsClimbing(m, t, before);
      var (m1, t1, log) := RunTurns(m, t, before);
      TurnKeepsClimbing(m1, t1, turns[|turns| - 1], log);
    }
  }

  /** Over any run, every re-registration is in order after the log before it. */
  lemma EveryReregistrationIsInOrder(single: bool, bindings: Bindings, active: Slot, links: set<Address>,
                                     answers: AdvAnswers,
                                     now: int, turns: seq<Turn>)
    ensures LadderRespected(RunTurns(Boot(single, bindings, active, links, answers, now), NO_PEERS, turns).2)
  {
    hide RunTurns, ApplyAdvertising, ArmPending;
    var m := Boot(single, bindings, active, links, answers, now);
    assert Climbs(m, []);
    RunKeepsClimbing(m, NO_PEERS, turns);
  }

  /** No re-registration while another host we serve is connected and has a report enabled. */
  lemma NeverUnderOtherHosts(m: Mgr, t: Le, answers: TickAnswers, now: int, a: Address, slot: Slot)
    requires Reregistered(a, now) in Tick(m, t, answers, now).2
    ensures var (m1, t1, _) := Tick(m, t, answers, now);
      a in m1.bindings.Values && a in answers.links && !t1.IsPeerConnected(a)
      && (slot in m1.bindings && m1.Serves(slot) && m1.bindings[slot] in answers.links ==>
            !t1.IsPeerConnected(m1.bindings[slot]))
  {
    hide PollWindow, PollUninvited, ApplyAdvertising, ToldFrom, PollStuckHosts, ConnectedHosts, Le.IsPeerConnected;
    var m1 := PollWindow(m, answers.window, now);
    var connected := ConnectedHosts(m1.bindings, answers.links);
    var (m2, t2, away) := PollUninvited(m1, t, connected, now);
    var m3 := ApplyAdvertising(m2, connected, answers.adv);
    assert Reregistered(a, now) !in ToldFrom(m1, away, now, 256);
    PollSparesOtherHosts(m3, t2, connected, now, answers.reregisterOk, a, slot);
    hide Tick;
    ConnectedHasLinks(m1.bindings, answers.links, a);
    if slot in m1.bindings && m1.bindings[slot] in answers.links {
      ConnectedHasLinks(m1.bindings, answers.links, m1.bindings[slot]);
    }
  }

  lemma ConnectedHasLinks(bindings: Bindings, links: set<Address>, a: Address)
    ensures a in ConnectedHosts(bindings, links) <==> a in bindings.Values && a in links
  {
  }

  /** The poll re-registers for a silent bound host, and only if no served connected host is subscribed. */
  lemma PollSparesOtherHosts(m: Mgr, t: Le, connected: set<Address>, now: int, reregisterOk: bool, a: Address,
                             slot: Slot)
    requires Reregistered(a, now) in PollStuckHosts(m, t, connected, now, reregisterOk).2
    ensures a in m.bindings.Values && a in connected && !t.IsPeerConnected(a)
    ensures PollStuckHosts(m, t, connected, now, reregisterOk).1 == t
    ensures slot in m.bindings && m.Serves(slot) && m.bindings[slot] in connected ==>
      !t.IsPeerConnected(m.bindings[slot])
  {
    hide ScanHosts, StartScan, CoolingDown, PeerDropped;
    ScanHostsFind(m, t, connected, now, 256);
    var s := ScanHosts(m, t, connected, now, StartScan(m, now), 256);
    StartScanIsEmpty(m, now);
    assert Reregistered(a, now) !in s.log;
  }

  lemma StartScanIsEmpty(m: Mgr, now: int)
    ensures StartScan(m, now).log == []
  {
  }

  // ---- Read off the log by position ------------------------------------------------------

  lemma {:induction false} RespectedAt(log: Log, j: nat)
    requires LadderRespected(log) && j < |log| && log[j].Reregistered?
    ensures LadderRespected(log[..j]) && InOrderAfter(log[..j], log[j].host, log[j].at)
  {
    hide InOrderAfter;
    if j < |log| - 1 {
      RespectedAt(log[..|log| - 1], j);
      assert log[..|log| - 1][..j] == log[..j];
    }
  }

  lemma {:induction false} LastIsLatest(log: Log, i: nat)
    requires LadderRespected(log) && i < |log| && log[i].Reregistered?
    ensures LastReregistration(log).Some? && LastReregistration(log).value >= log[i].at
  {
    if i < |log| - 1 {
      LastIsLatest(log[..|log| - 1], i);
    }
  }

  predicate Leaves(e: Entry, a: Address) {
    e == SawAway(a) || e == Forgot(a)
  }

  predicate ComesBack(e: Entry, a: Address) {
    e == SawAttached(a) || e == Forgot(a)
  }

  lemma {:induction false} ServedUnlessLeft(log: Log, i: nat, a: Address)
    requires i < |log| && log[i].Reregistered? && log[i].host == a
    requires forall k :: i < k < |log| ==> !Leaves(log[k], a)
    ensures ServedSince(log, a)
  {
    if i < |log| - 1 {
      ServedUnlessLeft(log[..|log| - 1], i, a);
    }
  }

  lemma {:induction false} KickIsInTheLog(log: Log, a: Address) returns (i: nat)
    requires KickedSince(log, a).Some?
    ensures i < |log| && log[i] == Kicked(a, KickedSince(log, a).value)
    ensures forall k :: i < k < |log| ==> !ComesBack(log[k], a)
  {
    if log[|log| - 1] == Kicked(a, KickedSince(log, a).value) {
      i := |log| - 1;
    } else {
      i := KickIsInTheLog(log[..|log| - 1], a);
    }
  }

  /**
   In any run, two re-registrations are at least 10 s apart, and between two triggered by the
   same host, a tick saw it disconnected or a switch away from it forgot it.
  */
  lemma ReregistrationsAreSparse(single: bool, bindings: Bindings, active: Slot, links: set<Address>,
                                 answers: AdvAnswers,
                                 now: int, turns: seq<Turn>, i: nat, j: nat)
    requires var log := RunTurns(Boot(single, bindings, active, links, answers, now), NO_PEERS, turns).2;
      i < j < |log| && log[i].Reregistered? && log[j].Reregistered?
    ensures var log := RunTurns(Boot(single, bindings, active, links, answers, now), NO_PEERS, turns).2;
      log[j].at - log[i].at >= REREGISTER_COOLDOWN
      && (log[i].host == log[j].host ==> exists k :: i < k < j && Leaves(log[k], log[i].host))
  {
    EveryReregistrationIsInOrder(single, bindings, active, links, answers, now, turns);
    hide RunTurns, Boot, LadderRespected;
    var log := RunTurns(Boot(single, bindings, active, links, answers, now), NO_PEERS, turns).2;
    RespectedAt(log, j);
    LastIsLatest(log[..j], i);
    var a := log[i].host;
    if log[j].host == a && forall k :: i < k < j ==> !Leaves(log[k], a) {
      ServedUnlessLeft(log[..j], i, a);
      assert false;
    }
  }

  /**
   In any run, a re-registration follows a kick of the same host less than 30 s earlier, with no
   tick since that saw the host attached and no switch that forgot it.
  */
  lemma ReregistrationFollowsKick(single: bool, bindings: Bindings, active: Slot, links: set<Address>,
                                  answers: AdvAnswers,
                                  now: int, turns: seq<Turn>, j: nat) returns (i: nat)
    requires var log := RunTurns(Boot(single, bindings, active, links, answers, now), NO_PEERS, turns).2;
      j < |log| && log[j].Reregistered?
    ensures var log := RunTurns(Boot(single, bindings, active, links, answers, now), NO_PEERS, turns).2;
      i < j && log[i].Kicked? && log[i].host == log[j].host && log[j].at - log[i].at < KICK_MEMORY
      && forall k :: i < k < j ==> !ComesBack(log[k], log[j].host)
  {
    EveryReregistrationIsInOrder(single, bindings, active, links, answers, now, turns);
    hide RunTurns, Boot, LadderRespected;
    var log := RunTurns(Boot(single, bindings, active, links, answers, now), NO_PEERS, turns).2;
    RespectedAt(log, j);
    i := KickIsInTheLog(log[..j], log[j].host);
    assert forall k :: i < k < j ==> log[..j][k] == log[k];
  }

  // ---- When the poll acts ----------------------------------------------------------------

  /** A served host that is connected and silent, not yet given up on, and has been so for the grace period. */
  predicate Stuck(m: Mgr, t: Le, connected: set<Address>, now: int, slot: Slot) {
    slot in m.bindings && m.Serves(slot)
    && var a := m.bindings[slot];
       Silent(m, t, connected, a) && a !in m.helped && a in m.stuck && now - m.stuck[a] >= STUCK_HOST_GRACE
  }

  predicate RecentlyKicked(m: Mgr, a: Address, now: int) {
    a in m.kicked && now - m.kicked[a] < KICK_MEMORY
  }

  /** A served host with a live subscription. */
  predicate Attached(m: Mgr, t: Le, connected: set<Address>, slot: Slot) {
    slot in m.bindings && m.Serves(slot) && m.bindings[slot] in connected && t.IsPeerConnected(m.bindings[slot])
  }

  /**
   The scan leaves its notes about silent hosts as they were, but for starting their clocks and
   forgetting old kicks.
  */
  ghost predicate ClocksKept(m: Mgr, t: Le, connected: set<Address>, now: int, s: Scan) {
    forall a :: Silent(m, t, connected, a) ==>
      (a in s.helped <==> a in m.helped)
      && (a in s.kicked <==> RecentlyKicked(m, a, now))
      && (a in m.stuck ==> a in s.stuck && s.stuck[a] == m.stuck[a])
      && (a in s.stuck && a !in m.stuck ==> s.stuck[a] == now)
  }

  lemma ScanHostKeepsClocks(m: Mgr, t: Le, connected: set<Address>, now: int, s: Scan, slot: Slot)
    requires ClocksKept(m, t, connected, now, s)
    ensures var r := ScanHost(m, t, connected, now, s, slot);
      ClocksKept(m, t, connected, now, r)
      && r.trigger == (if s.trigger.None? && Stuck(m, t, connected, now, slot) then Some(m.bindings[slot])
                       else s.trigger)
      && (r.othersSubscribed <==> s.othersSubscribed || Attached(m, t, connected, slot))
  {
  }

  lemma {:induction false} ScanSees(m: Mgr, t: Le, connected: set<Address>, now: int, n: nat)
    requires n <= 256
    ensures var s := ScanHosts(m, t, connected, now, StartScan(m, now), n);
      ClocksKept(m, t, connected, now, s)
      && (s.trigger.Some? <==> exists slot: Slot :: slot < n && Stuck(m, t, connected, now, slot))
      && (s.othersSubscribed <==> exists slot: Slot :: slot < n && Attached(m, t, connected, slot))
  {
    if n > 0 {
      ScanSees(m, t, connected, now, n - 1);
      var s := ScanHosts(m, t, connected, now, StartScan(m, now), n - 1);
      hide Stuck, Attached, ClocksKept, ScanHost, StartScan;
      ScanHostKeepsClocks(m, t, connected, now, s, n - 1);
      var slot: Slot := n - 1;
      assert Stuck(m, t, connected, now, slot) ==> exists x: Slot :: x < n && Stuck(m, t, connected, now, x);
      assert Attached(m, t, connected, slot) ==> exists x: Slot :: x < n && Attached(m, t, connected, x);
    }
  }

  /** Of the stuck slots, the lowest. */
  ghost predicate FirstStuck(m: Mgr, t: Le, connected: set<Address>, now: int, slot: Slot) {
    Stuck(m, t, connected, now, slot) && forall lower: Slot :: lower < slot ==> !Stuck(m, t, connected, now, lower)
  }

  lemma {:induction false} ScanTakesTheFirst(m: Mgr, t: Le, connected: set<Address>, now: int, slot: Slot, n: nat)
    requires slot < n <= 256 && FirstStuck(m, t, connected, now, slot)
    ensures ScanHosts(m, t, connected, now, StartScan(m, now), n).trigger == Some(m.bindings[slot])
  {
    ScanSees(m, t, connected, now, n - 1);
    var s := ScanHosts(m, t, connected, now, StartScan(m, now), n - 1);
    if slot < n - 1 {
      ScanTakesTheFirst(m, t, connected, now, slot, n - 1);
    }
    hide Stuck, Attached, ClocksKept, ScanHost, StartScan;
    ScanHostKeepsClocks(m, t, connected, now, s, n - 1);
  }

  predicate Remedy(e: Entry) {
    e.Kicked? || e.Reregistered?
  }

  /** Without a stuck host the poll kicks nobody and registers nothing. */
  lemma PollLeavesOthersAlone(m: Mgr, t: Le, connected: set<Address>, now: int, reregisterOk: bool)
    requires forall slot: Slot :: !Stuck(m, t, connected, now, slot)
    ensures forall e :: e in PollStuckHosts(m, t, connected, now, reregisterOk).2 ==> !Remedy(e)
  {
    ScanSees(m, t, connected, now, 256);
    StartScanIsEmpty(m, now);
    hide Stuck, Attached, ClocksKept, ScanHosts, StartScan;
  }

  /**
   The rung the poll takes for the host of the lowest stuck slot, and the only remedy it applies:
   without a recent kick it kicks the host, whatever the cool-down; otherwise it gives the host up
   if another served host is attached; otherwise it registers the services again if and only if the
   cool-down is over and the call succeeds, and then counts every bound host as helped.
  */
  lemma PollClimbsForTheFirstStuckHost(m: Mgr, t: Le, connected: set<Address>, now: int, reregisterOk: bool, slot: Slot)
    requires FirstStuck(m, t, connected, now, slot)
    ensures var a := m.bindings[slot];
      var (m1, t1, log) := PollStuckHosts(m, t, connected, now, reregisterOk);
      if !RecentlyKicked(m, a, now) then
        (forall e :: e in log && Remedy(e) <==> e == Kicked(a, now)) && a in m1.kicked && t1 == PeerDropped(t, a)
      else if exists other: Slot :: Attached(m, t, connected, other) then
        (forall e :: e in log ==> !Remedy(e)) && a in m1.helped && t1 == t
      else if CoolingDown(m, now) || !reregisterOk then
        (forall e :: e in log ==> !Remedy(e)) && a !in m1.helped && t1 == t
      else
        (forall e :: e in log && Remedy(e) <==> e == Reregistered(a, now))
        && m.bindings.Values <= m1.helped && m1.kicked == m1.stuck == map[] && t1 == t
  {
    ScanSees(m, t, connected, now, 256);
    ScanTakesTheFirst(m, t, connected, now, slot, 256);
    StartScanIsEmpty(m, now);
    var a := m.bindings[slot];
    assert Silent(m, t, connected, a) && a !in m.helped;
    var s := ScanHosts(m, t, connected, now, StartScan(m, now), 256);
    assert (a in s.kicked <==> RecentlyKicked(m, a, now)) && a !in s.helped;
    hide Stuck, FirstStuck, Attached, ClocksKept, ScanHosts, StartScan, Silent, RecentlyKicked, CoolingDown,
      PeerDropped;
    var log := PollStuckHosts(m, t, connected, now, reregisterOk).2;
    assert forall e :: e in s.log ==> !Remedy(e);
    if log != s.log {
      assert log == s.log + [log[|log| - 1]];
    }
  }
}
