/**
 The Bluetooth manager (src/bt/mod.rs): the object whose methods the select loop calls. Each
 method leaves exactly the state the step function of the same name gives, sends exactly its
 frames, and writes exactly its log.
*/
module Manager {
  import opened Wrappers
  import opened Slots
  import opened HidReports
  import opened Replay
  import opened Gatt
  import opened ManagerSpec

  /** The awaited host and the frames held for it. */
  datatype Awaiting = Awaiting(addr: Address, buffer: ReplayBuffer, since: int, replayed: nat)

  class Manager {
    const single: bool
    var bindings: Bindings
    var active: Slot
    var pairing: Option<Window>
    var pairable: bool
    var adv: bool
    var advDiscoverable: bool
    var stuck: map<Address, int>
    var kicked: map<Address, int>
    var helped: set<Address>
    var lastReregister: Option<int>
    var pending: Option<Awaiting>
    var evicted: map<Address, int>
    ghost var log: Log

    ghost function Parts(): set<object>
      reads this
    {
      if pending.Some? then {this, pending.value.buffer} else {this}
    }

    ghost function State(): Mgr
      reads Parts()
    {
      Mgr(single, bindings, active, pairing, pairable, adv, advDiscoverable, stuck, kicked, helped, lastReregister,
          if pending.Some? then
            Some(ManagerSpec.Pending(pending.value.addr, pending.value.buffer.State(),
                                     pending.value.since, pending.value.replayed))
          else None,
          evicted)
    }

    constructor (single: bool, bindings: Bindings, active: Slot)
      ensures State() == Start(single, bindings, active) && log == []
      ensures fresh(Parts())
    {
      this.single, this.bindings, this.active := single, bindings, active;
      pairing, pairable, adv, advDiscoverable := None, false, false, false;
      stuck, kicked, helped, lastReregister := map[], map[], {}, None;
      pending, evicted, log := None, map[], [];
    }

    // ---- Frames --------------------------------------------------------------------------

    method RouteFrame(t: LeTransport, slot: Slot, frame: HidFrame, outcome: TrySend)
      modifies Parts(), t
      ensures var (m1, t1, more) := ManagerSpec.RouteFrame(old(State()), old(t.State()), slot, frame, outcome);
        State() == m1 && t.State() == t1 && log == old(log) + more
      ensures Parts() == old(Parts())
    {
      hide Pushed, SentTo, SendResult;
      if slot !in bindings {
        return;
      }
      var peer := bindings[slot];
      if pending.Some? && pending.value.addr == peer && !t.Subscribes(peer, frame.ReportId()) {
        var outcome := pending.value.buffer.Push(frame);
        var fate := FateOf(outcome);
        log := log + [Routed(peer, frame, fate)];
        return;
      }
      var result := t.SendTo(peer, frame, outcome);
      log := log + [Routed(peer, frame, GivenNow), Given(peer, frame, result)];
    }

    /** The loop over the frames replayed. */
    method SendFrames(t: LeTransport, peer: Address, frames: seq<HidFrame>, outcomes: seq<TrySend>)
      modifies `log, t
      ensures (t.State(), log) ==
        var (t1, more) := SendEach(old(t.State()), peer, frames, outcomes); (t1, old(log) + more)
    {
      hide SentTo, SendResult;
      assert frames[..0] == [];
      for i := 0 to |frames|
        invariant var (t1, more) := SendEach(old(t.State()), peer, frames[..i], outcomes);
          t.State() == t1 && log == old(log) + more
      {
        var outcome := if i < |outcomes| then outcomes[i] else Accepted;
        assert frames[..i + 1][..i] == frames[..i];
        var result := t.SendTo(peer, frames[i], outcome);
        log := log + [Given(peer, frames[i], result)];
      }
      assert frames[..|frames|] == frames;
    }

    method OnSubscribed(t: LeTransport, peer: Address, id: byte, outcomes: seq<TrySend>)
      modifies Parts(), t
      ensures var (m1, t1, more) := ManagerSpec.OnSubscribed(old(State()), old(t.State()), peer, id, outcomes);
        State() == m1 && t.State() == t1 && log == old(log) + more
      ensures Parts() <= old(Parts())
    {
      hide SendEach, Of, Without, Le.FullyAttached;
      if pending.None? || pending.value.addr != peer || !t.Subscribes(peer, id) {
        return;
      }
      var frames := pending.value.buffer.Take(id);
      pending := Some(pending.value.(replayed := pending.value.replayed + |frames|));
      SendFrames(t, peer, frames, outcomes);
      var attached := t.HasAllReports(peer);
      if attached {
        pending := None;
      }
    }

    method ArmPending(t: LeTransport, now: int)
      modifies this
      ensures State() == ManagerSpec.ArmPending(old(State()), t.State(), now)
      ensures log == old(log) && fresh(Parts() - old(Parts()))
    {
      hide Le.FullyAttached;
      pending := None;
      if !single {
        return;
      }
      var host := ActiveHost();
      if host.None? {
        return;
      }
      var attached := t.HasAllReports(host.value);
      if attached {
        return;
      }
      var buffer := new ReplayBuffer();
      pending := Some(Awaiting(host.value, buffer, now, 0));
    }

    method PollPending(now: int)
      modifies this
      ensures State() == ManagerSpec.PollPending(old(State()), now)
      ensures log == old(log) && Parts() <= old(Parts())
    {
      if pending.Some? && now - pending.value.since >= REPLAY_WINDOW {
        pending := None;
      }
    }

    function ActiveHost(): (r: Option<Address>)
      reads this, Parts()
      ensures r == State().ActiveHost()
    {
      if active != LOCAL_SLOT && active in bindings then Some(bindings[active]) else None
    }

    // ---- Advertising and windows -----------------------------------------------------------

    /** Register the advertisement again with the given flag; the old one is dropped first. */
    method SetAdvertising(discoverable: bool, accepted: bool) returns (ok: bool)
      modifies `adv, `advDiscoverable
      ensures State() == ManagerSpec.SetAdvertising(old(State()), discoverable, accepted) && ok == accepted
    {
      adv := false;
      if !accepted {
        return false;
      }
      adv, advDiscoverable := true, discoverable;
      return true;
    }

    method ApplyAdvertising(connected: set<Address>, answers: AdvAnswers)
      modifies `adv, `advDiscoverable
      ensures State() == ManagerSpec.ApplyAdvertising(old(State()), connected, answers)
    {
      if pairing.Some? && !pairing.value.bound {
        return;
      }
      var want := if single then ActiveHost().Some? && ActiveHost().value !in connected
                  else exists a :: a in bindings.Values && a !in connected;
      if want && !adv {
        var _ := SetAdvertising(false, answers.accepted);
      } else if want && advDiscoverable {
        var _ := SetAdvertising(false, answers.accepted);
      } else if want {
        if answers.instances == Some(0) {
          var _ := SetAdvertising(false, answers.accepted);
        }
      } else if adv {
        adv := false;
      }
    }

    method OpenWindow(slot: Slot, paired: set<Address>, pairableOk: bool, accepted: bool, now: int)
      modifies this
      ensures State() == ManagerSpec.OpenWindow(old(State()), slot, paired, pairableOk, accepted, now)
      ensures log == old(log) && Parts() == old(Parts())
    {
      if slot in bindings || !pairableOk {
        return;
      }
      pairable := true;
      var ok := SetAdvertising(true, accepted);
      if ok {
        pairing := Some(Window(slot, now + PAIRING_WINDOW, paired, false));
      }
    }

    method RepairSlot(slot: Slot, paired: set<Address>, pairableOk: bool, accepted: bool, now: int)
      modifies this
      ensures State() == ManagerSpec.RepairSlot(old(State()), slot, paired, pairableOk, accepted, now)
      ensures log == old(log) && Parts() == old(Parts())
    {
      hide ManagerSpec.OpenWindow;
      if slot in bindings {
        bindings := bindings - {slot};
      } else {
        if pairing.Some? && pairing.value.slot == slot {
          return;
        }
        assert bindings - {slot} == bindings;
      }
      OpenWindow(slot, paired, pairableOk, accepted, now);
    }

    method CloseWindow(connected: set<Address>, answers: AdvAnswers, unpairableOk: bool)
      modifies this
      ensures State() == ManagerSpec.CloseWindow(old(State()), connected, answers, unpairableOk)
      ensures log == old(log) && Parts() == old(Parts())
    {
      hide ManagerSpec.ApplyAdvertising, OnlyPairingDiffers, OnlyAdvertisingDiffers;
      if pairing.None? {
        return;
      }
      var window := pairing.value;
      pairing := None;
      ghost var m := State();
      if !window.bound {
        AdvertisingIgnoresPairable(m, false, connected, answers);
        ApplyAdvertising(connected, answers);
      }
      if unpairableOk {
        pairable := false;
      }
    }

    method BindAndSettle(slot: Slot, addr: Address, links: set<Address>, answers: AdvAnswers)
      modifies this
      ensures State() == ManagerSpec.BindAndSettle(old(State()), slot, addr, links, answers)
      ensures log == old(log) && Parts() == old(Parts())
    {
      hide ManagerSpec.ApplyAdvertising;
      bindings := bindings[slot := addr];
      if pairing.Some? {
        pairing := Some(pairing.value.(bound := true));
        ApplyAdvertising(ConnectedHosts(bindings, links), answers);
      }
    }

    method PollWindow(answers: WindowAnswers, now: int)
      modifies this
      ensures State() == ManagerSpec.PollWindow(old(State()), answers, now)
      ensures log == old(log) && Parts() == old(Parts())
    {
      hide ManagerSpec.CloseWindow, ManagerSpec.BindAndSettle, ConnectedHosts;
      if pairing.None? {
        return;
      }
      var w := pairing.value;
      if now >= w.deadline {
        CloseWindow(ConnectedHosts(bindings, answers.links), answers.adv, answers.unpairableOk);
        return;
      }
      if w.bound || answers.devices.None? {
        return;
      }
      var found := FindEligible(w, answers.devices.value, answers.bonded);
      if found.Some? {
        BindAndSettle(w.slot, found.value, answers.links, answers.adv);
      }
    }

    method FindEligible(w: Window, devices: seq<Address>, bonded: set<Address>) returns (found: Option<Address>)
      ensures found == FirstEligible(State(), w, devices, bonded)
    {
      hide Eligible;
      found := None;
      var i := 0;
      assert devices[0..] == devices;
      while i < |devices|
        invariant 0 <= i <= |devices|
        invariant found == None
        invariant FirstEligible(State(), w, devices, bonded) == FirstEligible(State(), w, devices[i..], bonded)
      {
        assert devices[i..][1..] == devices[i + 1..];
        if IsEligible(w, devices[i], bonded) {
          return Some(devices[i]);
        }
        i := i + 1;
      }
    }

    predicate IsEligible(w: Window, addr: Address, bonded: set<Address>)
      reads this, Parts()
      ensures IsEligible(w, addr, bonded) == Eligible(State(), w, bonded, addr)
    {
      addr !in w.prePaired && addr !in bindings.Values && addr in bonded
    }

    // ---- Hosts that show up ----------------------------------------------------------------

    method SlotOf(addr: Address) returns (r: Option<Slot>)
      ensures r == ManagerSpec.SlotOf(bindings, addr)
    {
      r := None;
      for i := 0 to 256
        invariant SlotFrom(bindings, addr, 0) == SlotFrom(bindings, addr, i)
      {
        if i in bindings && bindings[i] == addr {
          return Some(i);
        }
      }
    }

    predicate ActiveHostPresent(t: LeTransport, connected: set<Address>)
      reads this, Parts(), t
      ensures ActiveHostPresent(t, connected) == State().ActiveHostPresent(t.State(), connected)
    {
      ActiveHost().Some? && (ActiveHost().value in connected || t.Connects(ActiveHost().value))
    }

    method OnIncomingPeer(t: LeTransport, peer: Address, bonded: bool, links: set<Address>, answers: AdvAnswers,
                          now: int)
      modifies this, t
      ensures
        var (m1, t1, more) :=
          ManagerSpec.OnIncomingPeer(old(State()), old(t.State()), peer, bonded, links, answers, now);
        State() == m1 && t.State() == t1 && log == old(log) + more
      ensures Parts() == old(Parts())
    {
      hide ManagerSpec.BindAndSettle, ConnectedHosts, ManagerSpec.SlotOf, Mgr.ActiveHostPresent;
      var slot := SlotOf(peer);
      if slot.Some? {
        if single && slot.value != active && pairing.None? {
          if ActiveHostPresent(t, ConnectedHosts(bindings, links)) {
            t.DropPeer(peer);
            evicted := evicted[peer := now];
            log := log + [Told(peer, now, Incoming)];
          }
        }
        return;
      }
      if pairing.None? || pairing.value.bound || !bonded {
        t.DropPeer(peer);
        log := log + [Told(peer, now, Unbound)];
        return;
      }
      BindAndSettle(pairing.value.slot, peer, links, answers);
    }

    // ---- Once a second ---------------------------------------------------------------------

    /** The bound hosts to send away, in slot order. */
    method FindUninvited(t: LeTransport, connected: set<Address>) returns (uninvited: seq<Address>)
      ensures uninvited == UninvitedFrom(State(), t.State(), connected, evicted, 256)
    {
      uninvited := [];
      for i := 0 to 256
        invariant uninvited == UninvitedFrom(State(), t.State(), connected, evicted, i)
      {
        if i in bindings && i != active && (bindings[i] in connected || t.Connects(bindings[i]))
           && bindings[i] !in evicted {
          uninvited := uninvited + [bindings[i]];
        }
      }
    }

    method PollUninvited(t: LeTransport, connected: set<Address>, now: int)
      modifies this, t
      ensures var (m1, t1, away) := ManagerSpec.PollUninvited(old(State()), old(t.State()), connected, now);
        State() == m1 && t.State() == t1 && log == old(log) + ToldFrom(old(State()), away, now, 256)
      ensures Parts() == old(Parts())
    {
      hide ManagerSpec.PollUninvited, ToldFrom, UninvitedFrom, Mgr.ActiveHostPresent, Stamped, Tellings, Elements,
        Recent;
      SweepAsList(State(), t.State(), connected, now);
      if !single || pairing.Some? || !ActiveHostPresent(t, connected) {
        return;
      }
      SweepUninvited(t, connected, now);
    }

    method SweepUninvited(t: LeTransport, connected: set<Address>, now: int)
      modifies `evicted, `log, t
      ensures var recent := Recent(old(State()), now);
        var list := UninvitedFrom(old(State()), old(t.State()), connected, recent, 256);
        evicted == Stamped(recent, list, now) && log == old(log) + Tellings(list, now)
        && t.State() == old(t.State()).(peers := old(t.State()).peers - Elements(list))
    {
      hide UninvitedFrom, Stamped, Tellings, Elements, Recent;
      ghost var m := State();
      evicted := map a | a in evicted && now - evicted[a] < EVICT_COOLDOWN :: evicted[a];
      assert evicted == Recent(m, now) by { RecentIs(m, now); }
      var uninvited := FindUninvited(t, connected);
      SameList(m, State(), t.State(), connected, evicted, 256);
      SendAway(t, uninvited, now);
    }

    method SendAway(t: LeTransport, uninvited: seq<Address>, now: int)
      modifies `evicted, `log, t
      ensures evicted == Stamped(old(evicted), uninvited, now) && log == old(log) + Tellings(uninvited, now)
      ensures t.State() == old(t.State()).(peers := old(t.State()).peers - Elements(uninvited))
    {
      ghost var recent := evicted;
      assert Stamped(recent, [], now) == recent;
      for i := 0 to |uninvited|
        invariant evicted == Stamped(recent, uninvited[..i], now)
        invariant t.State() == old(t.State()).(peers := old(t.State()).peers - Elements(uninvited[..i]))
        invariant log == old(log) + Tellings(uninvited[..i], now)
      {
        assert uninvited[..i + 1] == uninvited[..i] + [uninvited[i]];
        OneMore(recent, uninvited[..i], uninvited[i], now);
        t.DropPeer(uninvited[i]);
        evicted := evicted[uninvited[i] := now];
        log := log + [Told(uninvited[i], now, Sweep)];
      }
      assert uninvited[..|uninvited|] == uninvited;
    }

    // ---- Stuck hosts -----------------------------------------------------------------------

    /** One bound host of the scan. */
    method ScanHost(t: LeTransport, connected: set<Address>, now: int, slot: Slot, trigger: Option<Address>,
                    others: bool)
      returns (trigger': Option<Address>, others': bool)
      modifies `stuck, `kicked, `helped, `log
      ensures var r := ManagerSpec.ScanHost(old(State()), t.State(), connected, now,
                                            Scan(old(stuck), old(kicked), old(helped), trigger, others, old(log)),
                                             slot);
        r == Scan(stuck, kicked, helped, trigger', others', log)
    {
      trigger', others' := trigger, others;
      if slot !in bindings || (single && slot != active) {
        return;
      }
      var addr := bindings[slot];
      if addr !in connected {
        stuck, helped, log := stuck - {addr}, helped - {addr}, log + [SawAway(addr)];
        return;
      }
      if t.Connects(addr) {
        stuck, kicked, log := stuck - {addr}, kicked - {addr}, log + [SawAttached(addr)];
        others' := true;
        return;
      }
      if addr in helped {
        return;
      }
      if addr !in stuck {
        stuck := stuck[addr := now];
      }
      assert stuck[addr := stuck[addr]] == stuck;
      if now - stuck[addr] >= STUCK_HOST_GRACE && trigger.None? {
        trigger' := Some(addr);
      }
    }

    method ScanHosts(t: LeTransport, connected: set<Address>, now: int) returns (trigger: Option<Address>, others: bool)
      modifies `stuck, `kicked, `helped, `log
      ensures
        var r := ManagerSpec.ScanHosts(old(State()), t.State(), connected, now, StartScan(old(State()), now), 256);
        stuck == r.stuck && kicked == r.kicked && helped == r.helped && log == old(log) + r.log
        && trigger == r.trigger && others == r.othersSubscribed
    {
      hide ManagerSpec.ScanHost, ManagerSpec.ScanHosts, Mgr.Serves, StartScan;
      assert StartScan(State(), now) ==
        Scan(stuck, map a | a in kicked && now - kicked[a] < KICK_MEMORY :: kicked[a], helped, None, false, []) by {
        StartScanIs(State(), now);
      }
      kicked := map a | a in kicked && now - kicked[a] < KICK_MEMORY :: kicked[a];
      trigger, others := None, false;
      ghost var m := old(State());
      ghost var r := StartScan(m, now);
      ScanHostsUnfold(m, t.State(), connected, now, r, 0);
      assert r.log == [] && log == old(log) + r.log;
      for slot := 0 to 256
        invariant r == ManagerSpec.ScanHosts(m, t.State(), connected, now, StartScan(m, now), slot)
        invariant Scan(stuck, kicked, helped, trigger, others, log) == r.(log := old(log) + r.log)
      {
        ghost var m1 := State();
        ScanUsesItsOwnNotes(m, m1, t.State(), connected, now, r, old(log), slot);
        ScanHostsUnfold(m, t.State(), connected, now, StartScan(m, now), slot + 1);
        trigger, others := ScanHost(t, connected, now, slot, trigger, others);
        r := ManagerSpec.ScanHost(m, t.State(), connected, now, r, slot);
      }
    }

    /** Disconnect a stuck host so that it connects afresh. */
    method Kick(t: LeTransport, addr: Address, now: int)
      modifies this`kicked, this`stuck, this`log, t
      ensures State() == old(State()).(kicked := old(kicked)[addr := now], stuck := old(stuck) - {addr})
      ensures t.State() == PeerDropped(old(t.State()), addr) && log == old(log) + [Kicked(addr, now)]
    {
      hide PeerDropped;
      t.DropPeer(addr);
      kicked, stuck, log := kicked[addr := now], stuck - {addr}, log + [Kicked(addr, now)];
    }

    /** The services are registered again: every bound host counts as helped. */
    method CountAllHelped(addr: Address, now: int)
      modifies `stuck, `kicked, `helped, `lastReregister, `log
      ensures State() == old(State()).(lastReregister := Some(now), stuck := map[], kicked := map[],
                                       helped := old(helped) + bindings.Values)
      ensures log == old(log) + [Reregistered(addr, now)]
    {
      lastReregister, stuck, kicked := Some(now), map[], map[];
      helped := helped + bindings.Values;
      log := log + [Reregistered(addr, now)];
    }

    /** The second half of the poll: what is done for the host the scan came up with. */
    method Remedy(t: LeTransport, trigger: Option<Address>, others: bool, now: int, reregisterOk: bool)
      modifies `stuck, `kicked, `helped, `lastReregister, `log, t
      ensures
        var (m1, t1, more) := Remedied(old(State()), old(t.State()), trigger, others, now, reregisterOk);
        State() == m1 && t.State() == t1 && log == old(log) + more
    {
      hide PeerDropped, Sightings;
      if trigger.None? {
        return;
      }
      var addr := trigger.value;
      if addr !in kicked {
        Kick(t, addr, now);
        return;
      }
      if others {
        helped, stuck := helped + {addr}, stuck - {addr};
        return;
      }
      if lastReregister.Some? && now - lastReregister.value < REREGISTER_COOLDOWN {
        return;
      }
      if reregisterOk {
        CountAllHelped(addr, now);
      }
    }

    method PollStuckHosts(t: LeTransport, connected: set<Address>, now: int, reregisterOk: bool)
      modifies this, t
      ensures
        var (m1, t1, more) :=
          ManagerSpec.PollStuckHosts(old(State()), old(t.State()), connected, now, reregisterOk);
        State() == m1 && t.State() == t1 && log == old(log) + more
      ensures Parts() == old(Parts())
    {
      hide ManagerSpec.ScanHosts, StartScan, Remedied, Sightings, PeerDropped;
      var trigger, others := ScanHosts(t, connected, now);
      Remedy(t, trigger, others, now, reregisterOk);
    }

    // ---- Slot changes ----------------------------------------------------------------------

    method DrainQueue(t: LeTransport, queue: seq<Waiting>)
      modifies Parts(), t
      ensures var (m1, t1, more) := RouteAll(old(State()), old(t.State()), queue);
        State() == m1 && t.State() == t1 && log == old(log) + more
      ensures Parts() == old(Parts())
    {
      hide ManagerSpec.RouteFrame;
      assert queue[..0] == [];
      for i := 0 to |queue|
        invariant var (m1, t1, more) := RouteAll(old(State()), old(t.State()), queue[..i]);
          State() == m1 && t.State() == t1 && log == old(log) + more
        invariant Parts() == old(Parts())
      {
        assert queue[..i + 1][..i] == queue[..i];
        RouteFrame(t, queue[i].slot, queue[i].frame, queue[i].outcome);
      }
      assert queue[..|queue|] == queue;
    }

    method ForgetHost(addr: Address)
      modifies `stuck, `kicked, `helped, `evicted
      ensures State() == ManagerSpec.ForgetHost(old(State()), addr)
    {
      stuck, kicked, helped, evicted := stuck - {addr}, kicked - {addr}, helped - {addr}, evicted - {addr};
    }

    method LeaveHost(t: LeTransport, host: Address, now: int)
      modifies `stuck, `kicked, `helped, `evicted, `log, t
      ensures var forgotten := ManagerSpec.ForgetHost(old(State()), host);
        State() == forgotten.(evicted := forgotten.evicted[host := now])
      ensures t.State() == PeerDropped(old(t.State()), host)
      ensures log == old(log) + [Forgot(host), Told(host, now, Switch)]
    {
      t.DropPeer(host);
      ForgetHost(host);
      evicted := evicted[host := now];
      log := log + [Forgot(host), Told(host, now, Switch)];
    }

    method OnSlotChange(t: LeTransport, slot: Slot, queue: seq<Waiting>, links: set<Address>, answers: AdvAnswers,
                        now: int)
      modifies Parts(), t
      ensures
        var (m1, t1, more) :=
          ManagerSpec.OnSlotChange(old(State()), old(t.State()), slot, queue, links, answers, now);
        State() == m1 && t.State() == t1 && log == old(log) + more
      ensures fresh(Parts() - old(Parts()))
    {
      hide RouteAll, ManagerSpec.ArmPending, ManagerSpec.ApplyAdvertising, ConnectedHosts, ManagerSpec.ForgetHost,
        PeerDropped;
      var oldHost := ActiveHost();
      active := slot;
      if !single {
        return;
      }
      DrainQueue(t, queue);
      ArmPending(t, now);
      ApplyAdvertising(ConnectedHosts(bindings, links), answers);
      if oldHost.Some? && oldHost != ActiveHost() {
        LeaveHost(t, oldHost.value, now);
      }
    }

    // ---- The select loop -------------------------------------------------------------------

    method Tick(t: LeTransport, answers: TickAnswers, now: int)
      modifies this, t
      ensures var (m1, t1, more) := ManagerSpec.Tick(old(State()), old(t.State()), answers, now);
        State() == m1 && t.State() == t1 && log == old(log) + more
      ensures Parts() <= old(Parts())
    {
      hide ManagerSpec.PollWindow, ConnectedHosts, ManagerSpec.PollUninvited, ManagerSpec.ApplyAdvertising,
        ManagerSpec.PollStuckHosts, ManagerSpec.PollPending, ToldFrom;
      PollWindow(answers.window, now);
      var connected := ConnectedHosts(bindings, answers.links);
      PollUninvited(t, connected, now);
      ApplyAdvertising(connected, answers.adv);
      PollStuckHosts(t, connected, now, answers.reregisterOk);
      PollPending(now);
    }

    /** One round of the select loop: every branch leaves what `TakeTurn` says. */
    method Turn(t: LeTransport, turn: Turn)
      modifies Parts(), t
      ensures var (m1, t1, more) := TakeTurn(old(State()), old(t.State()), turn);
        State() == m1 && t.State() == t1 && log == old(log) + more
      ensures fresh(Parts() - old(Parts()))
    {
      hide ManagerSpec.RouteFrame, ManagerSpec.OnSlotChange, ManagerSpec.OnIncomingPeer, ManagerSpec.OnSubscribed,
        ManagerSpec.Tick, ManagerSpec.OpenWindow, ManagerSpec.RepairSlot, Subscribed, SubForgotten;
      match turn {
        case FrameTurn(slot, frame, outcome, _) =>
          RouteFrame(t, slot, frame, outcome);
        case SwitchTurn(slot, queue, links, answers, at) =>
          OnSlotChange(t, slot, queue, links, answers, at);
        case SubscribeTurn(peer, id, bonded, links, answers, outcomes, at) =>
          var first := t.Subscribe(peer, id);
          if first {
            OnIncomingPeer(t, peer, bonded, links, answers, at);
          }
          OnSubscribed(t, peer, id, outcomes);
        case CloseTurn(peer, id, generation, _) =>
          t.ForgetSub(peer, id, Some(generation));
        case OpenTurn(slot, paired, pairableOk, accepted, at) =>
          OpenWindow(slot, paired, pairableOk, accepted, at);
        case RepairTurn(slot, paired, pairableOk, accepted, at) =>
          RepairSlot(slot, paired, pairableOk, accepted, at);
        case TickTurn(answers, at) =>
          Tick(t, answers, at);
      }
    }
  }

  lemma ScanHostsUnfold(m: Mgr, t: Le, connected: set<Address>, now: int, s: Scan, n: nat)
    requires n <= 256
    ensures ManagerSpec.ScanHosts(m, t, connected, now, s, n) ==
      if n == 0 then s
      else ManagerSpec.ScanHost(m, t, connected, now, ManagerSpec.ScanHosts(m, t, connected, now, s, n - 1), n - 1)
  {
  }

  lemma StartScanIs(m: Mgr, now: int)
    ensures StartScan(m, now) ==
      Scan(m.stuck, map a | a in m.kicked && now - m.kicked[a] < KICK_MEMORY :: m.kicked[a], m.helped, None, false, [])
  {
  }

  /** A host's scan looks at the scan's notes and log only through `s`, and at the rest of the manager's state. */
  lemma ScanUsesItsOwnNotes(m: Mgr, m1: Mgr, t: Le, connected: set<Address>, now: int, s: Scan, log: Log, slot: Slot)
    requires m1 == m.(stuck := m1.stuck, kicked := m1.kicked, helped := m1.helped)
    ensures var r := ManagerSpec.ScanHost(m, t, connected, now, s, slot);
      ManagerSpec.ScanHost(m1, t, connected, now, s.(log := log + s.log), slot) == r.(log := log + r.log)
  {
    if slot in m.bindings {
      var a := m.bindings[slot];
      assert log + (s.log + [SawAway(a)]) == (log + s.log) + [SawAway(a)];
      assert log + (s.log + [SawAttached(a)]) == (log + s.log) + [SawAttached(a)];
    }
  }

  // ---- The sweep as a list ---------------------------------------------------------------

  function UninvitedFrom(m: Mgr, t: Le, connected: set<Address>, recent: map<Address, int>, n: nat): seq<Address>
    requires n <= 256
  {
    if n == 0 then []
    else
      var slot := n - 1;
      UninvitedFrom(m, t, connected, recent, n - 1)
      + (if slot in m.bindings && slot != m.active
            && (m.bindings[slot] in connected || t.IsPeerConnected(m.bindings[slot]))
            && m.bindings[slot] !in recent then [m.bindings[slot]] else [])
  }

  function Elements(list: seq<Address>): set<Address> {
    set a | a in list
  }

  function Stamped(recent: map<Address, int>, list: seq<Address>, now: int): map<Address, int> {
    recent + map a | a in Elements(list) :: now
  }

  function Tellings(list: seq<Address>, now: int): Log {
    seq(|list|, i requires 0 <= i < |list| => Told(list[i], now, Sweep))
  }

  lemma AdvertisingIgnoresPairable(m: Mgr, pairable: bool, connected: set<Address>, answers: AdvAnswers)
    ensures ManagerSpec.ApplyAdvertising(m.(pairable := pairable), connected, answers)
         == ManagerSpec.ApplyAdvertising(m, connected, answers).(pairable := pairable)
  {
  }

  lemma OneMore(recent: map<Address, int>, list: seq<Address>, a: Address, now: int)
    ensures Elements(list + [a]) == Elements(list) + {a}
    ensures Stamped(recent, list + [a], now) == Stamped(recent, list, now)[a := now]
    ensures Tellings(list + [a], now) == Tellings(list, now) + [Told(a, now, Sweep)]
  {
    assert Elements(list + [a]) == Elements(list) + {a};
  }

  lemma TellingsOfNone(now: int)
    ensures Tellings([], now) == []
  {
  }

  lemma {:induction false} NobodyIsTold(m: Mgr, now: int, n: nat)
    requires n <= 256
    ensures ToldFrom(m, {}, now, n) == []
  {
    if n > 0 {
      NobodyIsTold(m, now, n - 1);
    }
  }

  lemma {:induction false} ListIsTold(m: Mgr, t: Le, connected: set<Address>, recent: map<Address, int>, now: int,
                                      n: nat)
    requires n <= 256
    ensures ToldFrom(m, Uninvited(m, t, connected, recent), now, n) ==
      Tellings(UninvitedFrom(m, t, connected, recent, n), now)
  {
    hide Stamped, Elements, Tellings;
    TellingsOfNone(now);
    if n > 0 {
      ListIsTold(m, t, connected, recent, now, n - 1);
      var before := UninvitedFrom(m, t, connected, recent, n - 1);
      if n - 1 in m.bindings {
        OneMore(recent, before, m.bindings[n - 1], now);
      }
      assert before + [] == before;
    }
  }

  predicate Goes(m: Mgr, t: Le, connected: set<Address>, recent: map<Address, int>, slot: Slot) {
    slot in m.bindings && slot != m.active && (m.bindings[slot] in connected || t.IsPeerConnected(m.bindings[slot]))
    && m.bindings[slot] !in recent
  }

  lemma {:induction false} ListHasElements(m: Mgr, t: Le, connected: set<Address>, recent: map<Address, int>, n: nat,
                                           a: Address)
    requires n <= 256
    ensures a in UninvitedFrom(m, t, connected, recent, n) <==>
      exists slot: Slot :: slot < n && Goes(m, t, connected, recent, slot) && m.bindings[slot] == a
  {
    if n > 0 {
      ListHasElements(m, t, connected, recent, n - 1, a);
      var last: Slot := n - 1;
    }
  }

  function Recent(m: Mgr, now: int): map<Address, int> {
    map a | a in m.evicted && now - m.evicted[a] < EVICT_COOLDOWN :: m.evicted[a]
  }

  lemma RecentIs(m: Mgr, now: int)
    ensures Recent(m, now) == map a | a in m.evicted && now - m.evicted[a] < EVICT_COOLDOWN :: m.evicted[a]
  {
  }

  lemma {:induction false} SameList(m: Mgr, m1: Mgr, t: Le, connected: set<Address>, recent: map<Address, int>, n: nat)
    requires n <= 256 && m1.bindings == m.bindings && m1.active == m.active
    ensures UninvitedFrom(m1, t, connected, recent, n) == UninvitedFrom(m, t, connected, recent, n)
  {
    if n > 0 {
      SameList(m, m1, t, connected, recent, n - 1);
    }
  }

  /** The sweep tells the hosts of its list, in slot order, and stamps and drops just these. */
  lemma SweepAsList(m: Mgr, t: Le, connected: set<Address>, now: int)
    ensures var (m1, t1, away) := ManagerSpec.PollUninvited(m, t, connected, now);
      var told := ToldFrom(m, away, now, 256);
      if !m.single || m.pairing.Some? || !m.ActiveHostPresent(t, connected) then (m1, t1, told) == (m, t, [])
      else
        var recent := Recent(m, now);
        var list := UninvitedFrom(m, t, connected, recent, 256);
        m1 == m.(evicted := Stamped(recent, list, now)) && t1 == t.(peers := t.peers - Elements(list))
        && told == Tellings(list, now)
  {
    hide ToldFrom, UninvitedFrom, Mgr.ActiveHostPresent, Uninvited, Tellings, Elements;
    var recent := Recent(m, now);
    if !m.single || m.pairing.Some? || !m.ActiveHostPresent(t, connected) {
      NobodyIsTold(m, now, 256);
    } else {
      UninvitedIsTold(m, t, connected, recent, now);
    }
  }

  lemma UninvitedIsTold(m: Mgr, t: Le, connected: set<Address>, recent: map<Address, int>, now: int)
    ensures var list := UninvitedFrom(m, t, connected, recent, 256);
      Elements(list) == Uninvited(m, t, connected, recent)
      && ToldFrom(m, Uninvited(m, t, connected, recent), now, 256) == Tellings(list, now)
  {
    forall a ensures a in UninvitedFrom(m, t, connected, recent, 256) <==> a in Uninvited(m, t, connected, recent) {
      ListHasElements(m, t, connected, recent, 256, a);
    }
    ListIsTold(m, t, connected, recent, now, 256);
  }
}
