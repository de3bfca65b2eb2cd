/**
 The Bluetooth manager as step functions (src/bt/mod.rs, Bluetooth LE). Times are integers in
 milliseconds. Whatever BlueZ or a socket answers is an argument, so a result that holds here
 holds for every combination of successes and failures.
*/
module ManagerSpec {
  import opened Wrappers
  import opened Slots
  import opened HidReports
  import opened Replay
  import opened Gatt

  const PAIRING_WINDOW: int := 60_000
  const STUCK_HOST_GRACE: int := 3_000
  const KICK_MEMORY: int := 30_000
  const REREGISTER_COOLDOWN: int := 10_000
  const REPLAY_WINDOW: int := 8_000
  const EVICT_COOLDOWN: int := 5_000

  type Bindings = map<Slot, Address>

  datatype Window = Window(slot: Slot, deadline: int, prePaired: set<Address>, bound: bool)

  datatype Pending = Pending(addr: Address, buffer: Buffer, since: int, replayed: nat)

  /** `single`: keep only the active slot's host connected. `pairable` is the adapter's flag. */
  datatype Mgr = Mgr(
    single: bool,
    bindings: Bindings,
    active: Slot,
    pairing: Option<Window>,
    pairable: bool,
    adv: bool,
    advDiscoverable: bool,
    stuck: map<Address, int>,
    kicked: map<Address, int>,
    helped: set<Address>,
    lastReregister: Option<int>,
    pending: Option<Pending>,
    evicted: map<Address, int>)
  {
    /** The host frames go to now. */
    function ActiveHost(): Option<Address> {
      if active != LOCAL_SLOT && active in bindings then Some(bindings[active]) else None
    }

    predicate Serves(slot: Slot) {
      !single || slot == active
    }

    predicate ActiveHostPresent(t: Le, connected: set<Address>) {
      ActiveHost().Some? && (ActiveHost().value in connected || t.IsPeerConnected(ActiveHost().value))
    }

    /** A window that still waits for a device. */
    predicate WindowOpen() {
      pairing.Some? && !pairing.value.bound
    }
  }

  /** The lowest slot bound to this address. */
  function SlotOf(bindings: Bindings, addr: Address): (r: Option<Slot>)
    ensures r.Some? ==> r.value in bindings && bindings[r.value] == addr
    ensures r.Some? ==> forall slot: Slot :: slot < r.value && slot in bindings ==> bindings[slot] != addr
    ensures r.None? ==> addr !in bindings.Values
  {
    SlotFrom(bindings, addr, 0)
  }

  function SlotFrom(bindings: Bindings, addr: Address, i: nat): (r: Option<Slot>)
    requires i <= 256
    ensures r.Some? ==> i <= r.value && r.value in bindings && bindings[r.value] == addr
    ensures r.Some? ==> forall slot: Slot :: i <= slot < r.value && slot in bindings ==> bindings[slot] != addr
    ensures r.None? ==> forall slot: Slot :: i <= slot && slot in bindings ==> bindings[slot] != addr
    decreases 256 - i
  {
    if i == 256 then None
    else if i in bindings && bindings[i] == addr then Some(i)
    else SlotFrom(bindings, addr, i + 1)
  }

  function ConnectedHosts(bindings: Bindings, links: set<Address>): set<Address> {
    set a | a in bindings.Values && a in links
  }

  // ---- What happened ---------------------------------------------------------------------

  datatype Reason = Sweep | Switch | Incoming | Unbound

  datatype Fate = GivenNow | Held | DroppedAsMotion | HeldEvicting

  datatype Entry =
    | Routed(peer: Address, frame: HidFrame, fate: Fate)
    | Given(peer: Address, frame: HidFrame, result: Sent)
    | Told(host: Address, at: int, why: Reason)
    | Kicked(host: Address, at: int)
    | Reregistered(host: Address, at: int)
    | SawAway(host: Address)
    | SawAttached(host: Address)
    | Forgot(host: Address)

  type Log = seq<Entry>

  // ---- Frames ----------------------------------------------------------------------------

  function FateOf(outcome: PushOutcome): Fate {
    match outcome
    case Queued => Held
    case DroppedMotion => DroppedAsMotion
    case Evicted => HeldEvicting
  }

  /** Send the frame to its slot's host, or hold it if that host is awaited and has not enabled the report. */
  function RouteFrame(m: Mgr, t: Le, slot: Slot, frame: HidFrame, outcome: TrySend): (r: (Mgr, Le, Log))
    ensures r.0 == m.(pending := r.0.pending)
    ensures forall e :: e in r.2 ==> e.Routed? || e.Given?
  {
    if slot !in m.bindings then (m, t, [])
    else
      var peer := m.bindings[slot];
      if m.pending.Some? && m.pending.value.addr == peer && !t.IsSubscribed(peer, frame.ReportId()) then
        var (buffer, outcome) := Pushed(m.pending.value.buffer, frame);
        (m.(pending := Some(m.pending.value.(buffer := buffer))), t, [Routed(peer, frame, FateOf(outcome))])
      else
        (m, SentTo(t, peer, frame, outcome),
         [Routed(peer, frame, GivenNow), Given(peer, frame, SendResult(t, peer, frame, outcome))])
  }

  function OutcomeAt(outcomes: seq<TrySend>, i: nat): TrySend {
    if i < |outcomes| then outcomes[i] else Accepted
  }

  function SendEach(t: Le, peer: Address, frames: seq<HidFrame>, outcomes: seq<TrySend>): (r: (Le, Log))
    ensures forall e :: e in r.1 ==> e.Given?
    decreases |frames|
  {
    if frames == [] then (t, [])
    else
      var n := |frames| - 1;
      var (t1, log) := SendEach(t, peer, frames[..n], outcomes);
      var outcome := OutcomeAt(outcomes, n);
      (SentTo(t1, peer, frames[n], outcome), log + [Given(peer, frames[n], SendResult(t1, peer, frames[n], outcome))])
  }

  /** A host enabled a report: replay what was held for it, and stop holding once it is fully attached. */
  function OnSubscribed(m: Mgr, t: Le, peer: Address, id: byte, outcomes: seq<TrySend>): (r: (Mgr, Le, Log))
    ensures r.0 == m.(pending := r.0.pending)
    ensures forall e :: e in r.2 ==> e.Given?
  {
    if m.pending.None? || m.pending.value.addr != peer || !t.IsSubscribed(peer, id) then (m, t, [])
    else
      var p := m.pending.value;
      var (buffer, frames) := Taken(p.buffer, id);
      var (t1, log) := SendEach(t, peer, frames, outcomes);
      (m.(pending := if t1.FullyAttached(peer) then None
                     else Some(p.(buffer := buffer, replayed := p.replayed + |frames|))),
       t1, log)
  }

  /** Hold frames for the active host until it has enabled all its reports. */
  function ArmPending(m: Mgr, t: Le, now: int): (r: Mgr)
    ensures r == m.(pending := r.pending)
  {
    var host := m.ActiveHost();
    m.(pending := if !m.single || host.None? || t.FullyAttached(host.value) then None
                  else Some(Pending(host.value, EMPTY, now, 0)))
  }

  function PollPending(m: Mgr, now: int): Mgr {
    if m.pending.Some? && now - m.pending.value.since >= REPLAY_WINDOW then m.(pending := None) else m
  }

  // ---- Advertising -----------------------------------------------------------------------

  /** BlueZ's answers: whether an advertisement is accepted, and how many the adapter says are up. */
  datatype AdvAnswers = AdvAnswers(accepted: bool, instances: Option<nat>)

  predicate OnlyAdvertisingDiffers(m: Mgr, r: Mgr) {
    r == m.(adv := r.adv, advDiscoverable := r.advDiscoverable)
  }

  /** The two also differ in the window, the adapter's flag and the bindings at most. */
  predicate OnlyPairingDiffers(m: Mgr, r: Mgr) {
    OnlyAdvertisingDiffers(m.(bindings := r.bindings, pairing := r.pairing, pairable := r.pairable), r)
  }

  predicate WantsAdvertising(m: Mgr, connected: set<Address>) {
    if m.single then m.ActiveHost().Some? && m.ActiveHost().value !in connected
    else exists a :: a in m.bindings.Values && a !in connected
  }

  function SetAdvertising(m: Mgr, discoverable: bool, accepted: bool): (r: Mgr)
    ensures OnlyAdvertisingDiffers(m, r)
  {
    if accepted then m.(adv := true, advDiscoverable := discoverable) else m.(adv := false)
  }

  function ApplyAdvertising(m: Mgr, connected: set<Address>, answers: AdvAnswers): (r: Mgr)
    ensures OnlyAdvertisingDiffers(m, r)
  {
    if m.WindowOpen() then m
    else if WantsAdvertising(m, connected) then
      if !m.adv || m.advDiscoverable || answers.instances == Some(0) then SetAdvertising(m, false, answers.accepted)
      else m
    else m.(adv := false)
  }

  // ---- Pairing windows -------------------------------------------------------------------

  function SettleWindow(m: Mgr, connected: set<Address>, answers: AdvAnswers): (r: Mgr)
    ensures OnlyPairingDiffers(m, r) && r.bindings == m.bindings
  {
    if m.pairing.None? then m
    else ApplyAdvertising(m.(pairing := Some(m.pairing.value.(bound := true))), connected, answers)
  }

  function CloseWindow(m: Mgr, connected: set<Address>, answers: AdvAnswers, unpairableOk: bool): (r: Mgr)
    ensures OnlyPairingDiffers(m, r) && r.bindings == m.bindings && r.pairing == None
  {
    if m.pairing.None? then m
    else
      var closed := m.(pairing := None, pairable := if unpairableOk then false else m.pairable);
      if m.pairing.value.bound then closed else ApplyAdvertising(closed, connected, answers)
  }

  function OpenWindow(m: Mgr, slot: Slot, paired: set<Address>, pairableOk: bool, accepted: bool, now: int): (r: Mgr)
    ensures OnlyPairingDiffers(m, r) && r.bindings == m.bindings
  {
    if slot in m.bindings || !pairableOk then m
    else
      var visible := SetAdvertising(m.(pairable := true), true, accepted);
      if !accepted then visible
      else visible.(pairing := Some(Window(slot, now + PAIRING_WINDOW, paired, false)))
  }

  /** Forced re-pair: forget the slot's host and open a window for it. */
  function RepairSlot(m: Mgr, slot: Slot, paired: set<Address>, pairableOk: bool, accepted: bool, now: int): (r: Mgr)
    ensures OnlyPairingDiffers(m, r) && r.bindings == m.bindings - {slot}
  {
    if slot !in m.bindings && m.pairing.Some? && m.pairing.value.slot == slot then m
    else OpenWindow(m.(bindings := m.bindings - {slot}), slot, paired, pairableOk, accepted, now)
  }

  function Bind(m: Mgr, slot: Slot, addr: Address): Mgr {
    m.(bindings := m.bindings[slot := addr])
  }

  /** A device the window may bind: bonded, new since the window opened, and bound to no slot. */
  predicate Eligible(m: Mgr, w: Window, bonded: set<Address>, addr: Address) {
    addr !in w.prePaired && addr !in m.bindings.Values && addr in bonded
  }

  function FirstEligible(m: Mgr, w: Window, devices: seq<Address>, bonded: set<Address>): (r: Option<Address>)
    ensures r.None? ==> forall d :: d in devices ==> !Eligible(m, w, bonded, d)
    ensures r.Some? ==> exists i :: FirstAt(m, w, devices, bonded, i) && devices[i] == r.value
  {
    if devices == [] then None
    else if Eligible(m, w, bonded, devices[0]) then
      assert FirstAt(m, w, devices, bonded, 0);
      Some(devices[0])
    else
      var r := FirstEligible(m, w, devices[1..], bonded);
      assert r.Some? ==> exists i :: FirstAt(m, w, devices, bonded, i) && devices[i] == r.value by {
        if r.Some? {
          var i :| FirstAt(m, w, devices[1..], bonded, i) && devices[1..][i] == r.value;
          assert FirstAt(m, w, devices, bonded, i + 1);
        }
      }
      r
  }

  /** The device at `i` is eligible and none before it is. */
  predicate FirstAt(m: Mgr, w: Window, devices: seq<Address>, bonded: set<Address>, i: int) {
    0 <= i < |devices| && Eligible(m, w, bonded, devices[i])
    && forall j :: 0 <= j < i ==> !Eligible(m, w, bonded, devices[j])
  }

  /** What the window poll learns: the adapter's devices (if it answers), the bonded ones, and the links. */
  datatype WindowAnswers = WindowAnswers(
    devices: Option<seq<Address>>, bonded: set<Address>, links: set<Address>, adv: AdvAnswers, unpairableOk: bool)

  function PollWindow(m: Mgr, answers: WindowAnswers, now: int): (r: Mgr)
    ensures OnlyPairingDiffers(m, r)
  {
    if m.pairing.None? then m
    else
      var w := m.pairing.value;
      if now >= w.deadline then
        CloseWindow(m, ConnectedHosts(m.bindings, answers.links), answers.adv, answers.unpairableOk)
      else if w.bound || answers.devices.None? then m
      else
        var found := FirstEligible(m, w, answers.devices.value, answers.bonded);
        if found.None? then m
        else BindAndSettle(m, w.slot, found.value, answers.links, answers.adv)
  }

  function BindAndSettle(m: Mgr, slot: Slot, addr: Address, links: set<Address>, answers: AdvAnswers): (r: Mgr)
    ensures OnlyPairingDiffers(m, r) && r.bindings == m.bindings[slot := addr]
  {
    var m1 := Bind(m, slot, addr);
    SettleWindow(m1, ConnectedHosts(m1.bindings, links), answers)
  }

  // ---- Hosts that show up ----------------------------------------------------------------

  /** A host's first subscription: keep it, send it away, or bind it to the open window's slot. */
  function OnIncomingPeer(m: Mgr, t: Le, peer: Address, bonded: bool, links: set<Address>, answers: AdvAnswers,
                          now: int)
    : (r: (Mgr, Le, Log))
    ensures OnlyPairingDiffers(m.(evicted := r.0.evicted), r.0)
    ensures r.1 == t || (r.1 == PeerDropped(t, peer) && r.2 != [] && r.2[0].Told? && r.2[0].host == peer)
    ensures forall e :: e in r.2 ==> e.Told?
  {
    var slot := SlotOf(m.bindings, peer);
    if slot.Some? then
      if !m.Serves(slot.value) && m.pairing.None? && m.ActiveHostPresent(t, ConnectedHosts(m.bindings, links)) then
        (m.(evicted := m.evicted[peer := now]), PeerDropped(t, peer), [Told(peer, now, Incoming)])
      else (m, t, [])
    else if !m.WindowOpen() || !bonded then
      (m, PeerDropped(t, peer), [Told(peer, now, Unbound)])
    else
      (BindAndSettle(m, m.pairing.value.slot, peer, links, answers), t, [])
  }

  /** Once a second in single mode: send away connected hosts whose slot is not active. */
  function PollUninvited(m: Mgr, t: Le, connected: set<Address>, now: int): (r: (Mgr, Le, set<Address>))
    ensures r.0 == m.(evicted := r.0.evicted) && r.1 == t.(peers := t.peers - r.2)
    ensures forall a :: a in r.2 ==> exists slot :: slot in m.bindings && slot != m.active && m.bindings[slot] == a
    ensures forall a :: a in r.2 && a in m.evicted ==> now - m.evicted[a] >= EVICT_COOLDOWN
  {
    if !m.single || m.pairing.Some? || !m.ActiveHostPresent(t, connected) then (m, t, {})
    else
      var recent := map a | a in m.evicted && now - m.evicted[a] < EVICT_COOLDOWN :: m.evicted[a];
      var away := Uninvited(m, t, connected, recent);
      (m.(evicted := recent + (map a | a in away :: now)), t.(peers := t.peers - away), away)
  }

  function Uninvited(m: Mgr, t: Le, connected: set<Address>, recent: map<Address, int>): set<Address> {
    set slot | slot in m.bindings && slot != m.active
      && (m.bindings[slot] in connected || t.IsPeerConnected(m.bindings[slot]))
      && m.bindings[slot] !in recent :: m.bindings[slot]
  }

  // ---- Stuck hosts -----------------------------------------------------------------------

  /** The scan over the bound hosts, in slot order. */
  datatype Scan = Scan(
    stuck: map<Address, int>, kicked: map<Address, int>, helped: set<Address>,
    trigger: Option<Address>, othersSubscribed: bool, log: Log)

  predicate Sightings(log: Log) {
    forall e :: e in log ==> e.SawAway? || e.SawAttached?
  }

  function ScanHost(m: Mgr, t: Le, connected: set<Address>, now: int, s: Scan, slot: Slot): (r: Scan)
    ensures Sightings(s.log) ==> Sightings(r.log)
  {
    if slot !in m.bindings || !m.Serves(slot) then s
    else
      var a := m.bindings[slot];
      if a !in connected then
        s.(stuck := s.stuck - {a}, helped := s.helped - {a}, log := s.log + [SawAway(a)])
      else if t.IsPeerConnected(a) then
        s.(stuck := s.stuck - {a}, kicked := s.kicked - {a}, othersSubscribed := true, log := s.log + [SawAttached(a)])
      else if a in s.helped then s
      else
        var since := if a in s.stuck then s.stuck[a] else now;
        s.(stuck := s.stuck[a := since],
           trigger := if now - since >= STUCK_HOST_GRACE && s.trigger.None? then Some(a) else s.trigger)
  }

  function ScanHosts(m: Mgr, t: Le, connected: set<Address>, now: int, s: Scan, n: nat): (r: Scan)
    requires n <= 256
    ensures Sightings(s.log) ==> Sightings(r.log)
  {
    if n == 0 then s else ScanHost(m, t, connected, now, ScanHosts(m, t, connected, now, s, n - 1), n - 1)
  }

  function StartScan(m: Mgr, now: int): Scan {
    Scan(m.stuck, map a | a in m.kicked && now - m.kicked[a] < KICK_MEMORY :: m.kicked[a], m.helped, None, false, [])
  }

  predicate CoolingDown(m: Mgr, now: int) {
    m.lastReregister.Some? && now - m.lastReregister.value < REREGISTER_COOLDOWN
  }

  /** Disconnect a stuck host once; if that did not help and nobody else is attached, register the services again. */
  function PollStuckHosts(m: Mgr, t: Le, connected: set<Address>, now: int, reregisterOk: bool): (r: (Mgr, Le, Log))
    ensures r.0 ==
      m.(stuck := r.0.stuck, kicked := r.0.kicked, helped := r.0.helped, lastReregister := r.0.lastReregister)
    ensures r.1 == t || exists a :: Kicked(a, now) in r.2 && r.1 == PeerDropped(t, a)
    ensures forall e :: e in r.2 ==> e.SawAway? || e.SawAttached? || e.Kicked? || e.Reregistered?
  {
    var s := ScanHosts(m, t, connected, now, StartScan(m, now), 256);
    var scanned := m.(stuck := s.stuck, kicked := s.kicked, helped := s.helped);
    var (m1, t1, log) := Remedied(scanned, t, s.trigger, s.othersSubscribed, now, reregisterOk);
    (m1, t1, s.log + log)
  }

  /** The remedy for the host the scan came up with, if any. */
  function Remedied(m: Mgr, t: Le, trigger: Option<Address>, othersSubscribed: bool, now: int, reregisterOk: bool)
    : (r: (Mgr, Le, Log))
    ensures r.0 ==
      m.(stuck := r.0.stuck, kicked := r.0.kicked, helped := r.0.helped, lastReregister := r.0.lastReregister)
    ensures r.1 == t || exists a :: r.2 == [Kicked(a, now)] && r.1 == PeerDropped(t, a)
    ensures forall e :: e in r.2 ==> e.Kicked? || e.Reregistered?
  {
    if trigger.None? then (m, t, [])
    else
      var a := trigger.value;
      if a !in m.kicked then
        (m.(kicked := m.kicked[a := now], stuck := m.stuck - {a}), PeerDropped(t, a), [Kicked(a, now)])
      else if othersSubscribed then
        (m.(helped := m.helped + {a}, stuck := m.stuck - {a}), t, [])
      else if CoolingDown(m, now) || !reregisterOk then
        (m, t, [])
      else
        (m.(lastReregister := Some(now), stuck := map[], kicked := map[], helped := m.helped + m.bindings.Values),
         t, [Reregistered(a, now)])
  }

  // ---- Slot changes ----------------------------------------------------------------------

  datatype Waiting = Waiting(slot: Slot, frame: HidFrame, outcome: TrySend)

  function RouteAll(m: Mgr, t: Le, queue: seq<Waiting>): (r: (Mgr, Le, Log))
    ensures r.0 == m.(pending := r.0.pending)
    ensures forall e :: e in r.2 ==> e.Routed? || e.Given?
    decreases |queue|
  {
    if queue == [] then (m, t, [])
    else
      var q := queue[|queue| - 1];
      var (m1, t1, log) := RouteAll(m, t, queue[..|queue| - 1]);
      var (m2, t2, more) := RouteFrame(m1, t1, q.slot, q.frame, q.outcome);
      (m2, t2, log + more)
  }

  function ForgetHost(m: Mgr, addr: Address): Mgr {
    m.(stuck := m.stuck - {addr}, kicked := m.kicked - {addr}, helped := m.helped - {addr},
       evicted := m.evicted - {addr})
  }

  /** The channel switch: drain the queue, hold frames for the new host, advertise for it, disconnect the old one. */
  function OnSlotChange(m: Mgr, t: Le, slot: Slot, queue: seq<Waiting>, links: set<Address>, answers: AdvAnswers,
                        now: int)
    : (Mgr, Le, Log)
  {
    var old' := m.ActiveHost();
    var m0 := m.(active := slot);
    if !m.single then (m0, t, [])
    else
      var (m1, t1, log) := RouteAll(m0, t, queue);
      var m2 := ArmPending(m1, t1, now);
      var m3 := ApplyAdvertising(m2, ConnectedHosts(m2.bindings, links), answers);
      if old'.Some? && old' != m2.ActiveHost() then
        var forgotten := ForgetHost(m3, old'.value);
        (forgotten.(evicted := forgotten.evicted[old'.value := now]), PeerDropped(t1, old'.value),
         log + [Forgot(old'.value), Told(old'.value, now, Switch)])
      else (m3, t1, log)
  }

  // ---- The select loop -------------------------------------------------------------------

  datatype TickAnswers = TickAnswers(window: WindowAnswers, links: set<Address>, adv: AdvAnswers, reregisterOk: bool)

  datatype Turn =
    | FrameTurn(slot: Slot, frame: HidFrame, outcome: TrySend, at: int)
    | SwitchTurn(to: Slot, queue: seq<Waiting>, links: set<Address>, adv: AdvAnswers, at: int)
    | SubscribeTurn(peer: Address, id: byte, bonded: bool, links: set<Address>, adv: AdvAnswers,
                    outcomes: seq<TrySend>, at: int)
    | CloseTurn(peer: Address, id: byte, generation: nat, at: int)
    | OpenTurn(slot: Slot, paired: set<Address>, pairableOk: bool, accepted: bool, at: int)
    | RepairTurn(slot: Slot, paired: set<Address>, pairableOk: bool, accepted: bool, at: int)
    | TickTurn(answers: TickAnswers, at: int)

  /** The sweep goes through the bindings in slot order. */
  function ToldFrom(m: Mgr, away: set<Address>, now: int, n: nat): (log: Log)
    requires n <= 256
    ensures forall e :: e in log ==> e.Told? && e.host in away && e.at == now && e.why == Sweep
    ensures forall slot :: slot in m.bindings && slot < n && slot != m.active && m.bindings[slot] in away ==>
      Told(m.bindings[slot], now, Sweep) in log
  {
    if n == 0 then []
    else
      var slot := n - 1;
      ToldFrom(m, away, now, n - 1)
      + (if slot in m.bindings && slot != m.active && m.bindings[slot] in away
         then [Told(m.bindings[slot], now, Sweep)] else [])
  }

  function Tick(m: Mgr, t: Le, answers: TickAnswers, now: int): (Mgr, Le, Log) {
    var m1 := PollWindow(m, answers.window, now);
    var connected := ConnectedHosts(m1.bindings, answers.links);
    var (m2, t2, away) := PollUninvited(m1, t, connected, now);
    var m3 := ApplyAdvertising(m2, connected, answers.adv);
    var (m4, t4, log) := PollStuckHosts(m3, t2, connected, now, answers.reregisterOk);
    (PollPending(m4, now), t4, ToldFrom(m1, away, now, 256) + log)
  }

  function OnSubscribeTurn(m: Mgr, t: Le, turn: Turn): (Mgr, Le, Log)
    requires turn.SubscribeTurn?
  {
    var (t1, first) := Subscribed(t, turn.peer, turn.id);
    var (m2, t2, log) :=
      if first then OnIncomingPeer(m, t1, turn.peer, turn.bonded, turn.links, turn.adv, turn.at) else (m, t1, []);
    var (m3, t3, more) := OnSubscribed(m2, t2, turn.peer, turn.id, turn.outcomes);
    (m3, t3, log + more)
  }

  function TakeTurn(m: Mgr, t: Le, turn: Turn): (Mgr, Le, Log) {
    match turn
    case FrameTurn(slot, frame, outcome, _) => RouteFrame(m, t, slot, frame, outcome)
    case SwitchTurn(slot, queue, links, adv, at) => OnSlotChange(m, t, slot, queue, links, adv, at)
    case SubscribeTurn(_, _, _, _, _, _, _) => OnSubscribeTurn(m, t, turn)
    case CloseTurn(peer, id, generation, _) => (m, SubForgotten(t, peer, id, Some(generation)), [])
    case OpenTurn(slot, paired, pairableOk, accepted, at) =>
      (OpenWindow(m, slot, paired, pairableOk, accepted, at), t, [])
    case RepairTurn(slot, paired, pairableOk, accepted, at) =>
      (RepairSlot(m, slot, paired, pairableOk, accepted, at), t, [])
    case TickTurn(answers, at) => Tick(m, t, answers, at)
  }

  function Start(single: bool, bindings: Bindings, active: Slot): Mgr {
    Mgr(single, bindings, active, None, false, false, false, map[], map[], {}, None, None, map[])
  }

  /** Before the loop: advertise for whoever is expected and wait for the active host. */
  function Boot(single: bool, bindings: Bindings, active: Slot, links: set<Address>, answers: AdvAnswers,
                now: int): Mgr {
    var m := Start(single, bindings, active);
    ArmPending(ApplyAdvertising(m, ConnectedHosts(bindings, links), answers), NO_PEERS, now)
  }

  function RunTurns(m: Mgr, t: Le, turns: seq<Turn>): (Mgr, Le, Log) {
    if turns == [] then (m, t, [])
    else
      var (m1, t1, log) := RunTurns(m, t, turns[..|turns| - 1]);
      var (m2, t2, more) := TakeTurn(m1, t1, turns[|turns| - 1]);
      (m2, t2, log + more)
  }
}
