/**
 Which host has enabled which input report (src/bt/gatt.rs, the bookkeeping of `LeTransport`).

 Every subscription carries a generation. Its watcher reports the end of that generation at any
 later time, perhaps after the host has subscribed again, so a close message counts only if it
 names the generation that is stored.
*/
module Gatt {
  import opened Wrappers
  import opened HidReports
  import opened Replay

  type Address = nat

  const INPUT_REPORT_IDS: seq<byte> := [REPORT_ID_KEYBOARD, REPORT_ID_MOUSE, REPORT_ID_CONSUMER]

  /** Report id to the generation of its subscription, and the button byte last sent. */
  datatype Peer = Peer(subs: map<byte, nat>, lastButtons: bv8)

  datatype Le = Le(peers: map<Address, Peer>, nextGeneration: nat) {
    predicate IsSubscribed(peer: Address, id: byte) {
      peer in peers && id in peers[peer].subs
    }

    /** The generation of a live subscription. */
    function Generation(peer: Address, id: byte): Option<nat> {
      if IsSubscribed(peer, id) then Some(peers[peer].subs[id]) else None
    }

    /** The button byte of the last mouse report the peer took; none held for a peer without subscriptions. */
    function ButtonsSent(peer: Address): bv8 {
      if peer in peers then peers[peer].lastButtons else 0
    }

    predicate IsPeerConnected(peer: Address) {
      peer in peers && peers[peer].subs != map[]
    }

    predicate FullyAttached(peer: Address) {
      forall id :: id in INPUT_REPORT_IDS ==> IsSubscribed(peer, id)
    }
  }

  const NO_PEERS := Le(map[], 0)

  /** What the notification socket answered: taken at once, full (and then perhaps taken in time), or an error. */
  datatype TrySend = Accepted | WouldBlock(sentInTime: bool) | Broken

  function Subscribed(t: Le, peer: Address, id: byte): (Le, bool) {
    var entry := if peer in t.peers then t.peers[peer] else Peer(map[], 0);
    (Le(t.peers[peer := entry.(subs := entry.subs[id := t.nextGeneration])], t.nextGeneration + 1), peer !in t.peers)
  }

  /**
   Drop a subscription if the generation matches (any generation when none is given), and the peer with
   its last one.
  */
  function SubForgotten(t: Le, peer: Address, id: byte, generation: Option<nat>): Le {
    if !t.IsSubscribed(peer, id) || (generation.Some? && t.peers[peer].subs[id] != generation.value) then t
    else
      var entry := t.peers[peer];
      var left := entry.subs - {id};
      if left == map[] then t.(peers := t.peers - {peer})
      else t.(peers := t.peers[peer := entry.(subs := left)])
  }

  /** The send ends in an error, which ends the subscription; a full socket may swallow pure motion instead. */
  predicate Fails(t: Le, peer: Address, frame: HidFrame, outcome: TrySend) {
    t.IsSubscribed(peer, frame.ReportId())
    && match outcome
       case Accepted => false
       case WouldBlock(inTime) => !inTime && !IsMotionOnly(frame, t.peers[peer].lastButtons)
       case Broken => true
  }

  /** What became of a frame: taken, swallowed by a busy link, lost with its subscription, or never wanted. */
  datatype Sent = Delivered | Swallowed | Failed | Unwanted

  function SendResult(t: Le, peer: Address, frame: HidFrame, outcome: TrySend): (r: Sent)
    ensures r.Failed? <==> Fails(t, peer, frame, outcome)
    ensures r.Unwanted? <==> !t.IsSubscribed(peer, frame.ReportId())
    ensures r.Swallowed? ==> IsMotionOnly(frame, t.ButtonsSent(peer))
  {
    if !t.IsSubscribed(peer, frame.ReportId()) then Unwanted
    else if Fails(t, peer, frame, outcome) then Failed
    else if outcome.WouldBlock? && IsMotionOnly(frame, t.peers[peer].lastButtons) then Swallowed
    else Delivered
  }

  function SentTo(t: Le, peer: Address, frame: HidFrame, outcome: TrySend): Le {
    if !t.IsSubscribed(peer, frame.ReportId()) then t
    else if Fails(t, peer, frame, outcome) then SubForgotten(t, peer, frame.ReportId(), None)
    else t.(peers := t.peers[peer := t.peers[peer].(lastButtons := ButtonsAfter(frame, t.peers[peer].lastButtons))])
  }

  function PeerDropped(t: Le, peer: Address): Le {
    t.(peers := t.peers - {peer})
  }

  // ---- The object ------------------------------------------------------------------------

  class LeTransport {
    var peers: map<Address, Peer>
    var nextGeneration: nat

    function State(): Le
      reads this
    {
      Le(peers, nextGeneration)
    }

    constructor ()
      ensures State() == NO_PEERS
    {
      peers, nextGeneration := map[], 0;
    }

    /** A host enabled a report; `first` flags the first subscription of its attachment. */
    method Subscribe(peer: Address, id: byte) returns (first: bool)
      modifies this
      ensures (State(), first) == Subscribed(old(State()), peer, id)
    {
      first := peer !in peers;
      var generation := nextGeneration;
      nextGeneration := nextGeneration + 1;
      var entry := if first then Peer(map[], 0) else peers[peer];
      peers := peers[peer := entry.(subs := entry.subs[id := generation])];
    }

    method ForgetSub(peer: Address, id: byte, generation: Option<nat>)
      modifies this
      ensures State() == SubForgotten(old(State()), peer, id, generation)
    {
      if peer !in peers {
        return;
      }
      var entry := peers[peer];
      if id !in entry.subs || (generation.Some? && entry.subs[id] != generation.value) {
        return;
      }
      var left := entry.subs - {id};
      if left == map[] {
        peers := peers - {peer};
      } else {
        peers := peers[peer := entry.(subs := left)];
      }
    }

    method SendTo(peer: Address, frame: HidFrame, outcome: TrySend) returns (result: Sent)
      modifies this
      ensures State() == SentTo(old(State()), peer, frame, outcome)
      ensures result == SendResult(old(State()), peer, frame, outcome)
    {
      var id := frame.ReportId();
      if peer !in peers || id !in peers[peer].subs {
        return Unwanted;
      }
      var entry := peers[peer];
      match outcome {
        case Accepted => result := Delivered;
        case WouldBlock(inTime) =>
          if IsMotionOnly(frame, entry.lastButtons) {
            result := Swallowed;
          } else {
            result := if inTime then Delivered else Failed;
          }
        case Broken => result := Failed;
      }
      if result.Failed? {
        ForgetSub(peer, id, None);
      } else {
        peers := peers[peer := entry.(lastButtons := ButtonsAfter(frame, entry.lastButtons))];
      }
    }

    /** Whether the peer has notifications enabled on this input report. */
    predicate Subscribes(peer: Address, id: byte)
      reads this
      ensures Subscribes(peer, id) == State().IsSubscribed(peer, id)
    {
      peer in peers && id in peers[peer].subs
    }

    predicate Connects(peer: Address)
      reads this
      ensures Connects(peer) == State().IsPeerConnected(peer)
    {
      peer in peers && peers[peer].subs != map[]
    }

    method HasAllReports(peer: Address) returns (all: bool)
      ensures all == State().FullyAttached(peer)
    {
      all := true;
      for i := 0 to |INPUT_REPORT_IDS|
        invariant all <==> forall j :: 0 <= j < i ==> Subscribes(peer, INPUT_REPORT_IDS[j])
      {
        all := all && Subscribes(peer, INPUT_REPORT_IDS[i]);
      }
    }

    method DropPeer(peer: Address)
      modifies this
      ensures State() == PeerDropped(old(State()), peer)
    {
      peers := peers - {peer};
    }
  }

  // ---- Histories -------------------------------------------------------------------------

  datatype Event =
    | Subscribe(peer: Address, id: byte)
    | CloseMessage(peer: Address, id: byte, generation: nat)
    | Send(peer: Address, frame: HidFrame, outcome: TrySend)
    | Drop(peer: Address)

  function Apply(t: Le, e: Event): Le {
    match e
    case Subscribe(peer, id) => Subscribed(t, peer, id).0
    case CloseMessage(peer, id, generation) => SubForgotten(t, peer, id, Some(generation))
    case Send(peer, frame, outcome) => SentTo(t, peer, frame, outcome)
    case Drop(peer) => PeerDropped(t, peer)
  }

  function Run(events: seq<Event>): Le {
    if events == [] then NO_PEERS else Apply(Run(events[..|events| - 1]), events[|events| - 1])
  }

  /** How many subscriptions there have been: the generation of the next one. */
  function Count(events: seq<Event>): nat {
    if events == [] then 0
    else Count(events[..|events| - 1]) + (if events[|events| - 1].Subscribe? then 1 else 0)
  }

  /** The event ends this generation of the peer's subscription to the report. */
  predicate Ends(t: Le, e: Event, peer: Address, id: byte, generation: nat) {
    match e
    case Subscribe(_, _) => false
    case CloseMessage(p, i, g) => p == peer && i == id && g == generation
    case Send(p, frame, outcome) => p == peer && frame.ReportId() == id && Fails(t, p, frame, outcome)
    case Drop(p) => p == peer
  }

  /** Position `i` is the latest subscription of the peer to the report, and nothing has ended it since. */
  predicate LiveSince(events: seq<Event>, peer: Address, id: byte, i: nat) {
    i < |events| && events[i] == Subscribe(peer, id)
    && forall j: nat :: i < j < |events| ==> !Supersedes(events, j, peer, id, Count(events[..i]))
  }

  /** The event at `j` replaces or ends the given generation. */
  predicate Supersedes(events: seq<Event>, j: nat, peer: Address, id: byte, generation: nat)
    requires j < |events|
  {
    events[j] == Subscribe(peer, id) || Ends(Run(events[..j]), events[j], peer, id, generation)
  }

  lemma {:induction false} NextGenerationCounts(events: seq<Event>)
    ensures Run(events).nextGeneration == Count(events)
  {
    if events != [] {
      NextGenerationCounts(events[..|events| - 1]);
    }
  }

  lemma ForgetStep(t: Le, peer: Address, id: byte, generation: Option<nat>, p: Address, i: byte)
    ensures SubForgotten(t, peer, id, generation).Generation(p, i) ==
      if p == peer && i == id && (generation.None? || generation == t.Generation(p, i)) then None
      else t.Generation(p, i)
  {
    if t.IsSubscribed(peer, id) && t.IsSubscribed(p, i) && p == peer && i != id {
      assert i in t.peers[peer].subs - {id};
    }
  }

  /** What one event does to one subscription. */
  lemma ApplyStep(t: Le, e: Event, peer: Address, id: byte)
    ensures Apply(t, e).Generation(peer, id) ==
      if e == Subscribe(peer, id) then Some(t.nextGeneration)
      else if t.IsSubscribed(peer, id) && Ends(t, e, peer, id, t.Generation(peer, id).value) then None
      else t.Generation(peer, id)
  {
    match e
    case CloseMessage(p, i, g) => ForgetStep(t, p, i, Some(g), peer, id);
    case Send(p, frame, _) => ForgetStep(t, p, frame.ReportId(), None, peer, id);
    case Subscribe(_, _) =>
    case Drop(_) =>
  }

  lemma LiveSincePrefix(before: seq<Event>, last: Event, peer: Address, id: byte, i: nat)
    requires i < |before|
    ensures LiveSince(before + [last], peer, id, i) <==>
      LiveSince(before, peer, id, i) && last != Subscribe(peer, id)
      && !Ends(Run(before), last, peer, id, Count(before[..i]))
  {
    hide Run, Ends, Count;
    var events := before + [last];
    var n := |before|;
    assert events[..n] == before && events[..i] == before[..i];
    var generation := Count(before[..i]);
    forall j: nat | i < j < n
      ensures Supersedes(events, j, peer, id, generation) <==> Supersedes(before, j, peer, id, generation)
    {
      assert events[..j] == before[..j];
    }
    assert Supersedes(events, n, peer, id, generation) <==>
      last == Subscribe(peer, id) || Ends(Run(before), last, peer, id, generation);
  }

  lemma LiveAtEnd(before: seq<Event>, last: Event, peer: Address, id: byte)
    ensures LiveSince(before + [last], peer, id, |before|) <==> last == Subscribe(peer, id)
  {
    hide Ends, Count, Run;
  }

  /** The stored generation is that of the latest live subscription, if there is one. */
  ghost predicate Agrees(events: seq<Event>, peer: Address, id: byte) {
    && (Run(events).IsSubscribed(peer, id) ==> exists i: nat :: LiveSince(events, peer, id, i))
    && forall i: nat :: LiveSince(events, peer, id, i) ==>
         i < |events| && Run(events).Generation(peer, id) == Some(Count(events[..i]))
  }

  lemma AgreesStep(before: seq<Event>, last: Event, peer: Address, id: byte)
    requires Agrees(before, peer, id) && Run(before).nextGeneration == Count(before)
    requires Run(before + [last]) == Apply(Run(before), last)
    ensures Agrees(before + [last], peer, id)
  {
    hide Run, Ends, Count, Apply, LiveSince;
    var events := before + [last];
    var n := |before|;
    ApplyStep(Run(before), last, peer, id);
    LiveAtEnd(before, last, peer, id);
    assert events[..n] == before;
    forall i: nat | LiveSince(events, peer, id, i)
      ensures i < |events| && Run(events).Generation(peer, id) == Some(Count(events[..i]))
    {
      LiveInBounds(events, peer, id, i);
      if i < n {
        LiveSincePrefix(before, last, peer, id, i);
        assert events[..i] == before[..i];
      }
    }
    if Run(events).IsSubscribed(peer, id) && last != Subscribe(peer, id) {
      var i: nat :| LiveSince(before, peer, id, i);
      LiveSincePrefix(before, last, peer, id, i);
    }
  }

  lemma LiveInBounds(events: seq<Event>, peer: Address, id: byte, i: nat)
    requires LiveSince(events, peer, id, i)
    ensures i < |events|
  {
  }

  lemma {:induction false} SubscriptionsAgree(events: seq<Event>, peer: Address, id: byte)
    ensures Agrees(events, peer, id)
  {
    if events != [] {
      var before, last := events[..|events| - 1], events[|events| - 1];
      SubscriptionsAgree(before, peer, id);
      NextGenerationCounts(before);
      assert events == before + [last];
      AgreesStep(before, last, peer, id);
    }
  }

  /**
   A report is subscribed exactly when the latest subscription to it is still live, whatever
   came in between, and the stored generation is that subscription's.
  */
  lemma SubscribedExactlyWhenLatestIsLive(events: seq<Event>, peer: Address, id: byte)
    ensures Run(events).IsSubscribed(peer, id) <==> exists i: nat :: LiveSince(events, peer, id, i)
    ensures forall i: nat :: LiveSince(events, peer, id, i) ==>
      i < |events| && Run(events).Generation(peer, id) == Some(Count(events[..i]))
  {
    SubscriptionsAgree(events, peer, id);
    hide LiveSince, Run;
  }

  /** A close message for an older generation, however late, changes nothing. */
  lemma StaleCloseIsIgnored(events: seq<Event>, peer: Address, id: byte, i: nat, stale: nat)
    requires LiveSince(events, peer, id, i) && stale != Count(events[..i])
    ensures Apply(Run(events), CloseMessage(peer, id, stale)) == Run(events)
  {
    SubscribedExactlyWhenLatestIsLive(events, peer, id);
  }

  // ---- Attachment ------------------------------------------------------------------------

  /** No peer is remembered without a subscription. */
  predicate PeersAreSubscribed(t: Le) {
    forall p :: p in t.peers ==> t.peers[p].subs != map[]
  }

  lemma PeersStaySubscribed(t: Le, e: Event)
    requires PeersAreSubscribed(t)
    ensures PeersAreSubscribed(Apply(t, e))
  {
    if e.Subscribe? {
      var subs := Apply(t, e).peers[e.peer].subs;
      assert e.id in subs;
    }
  }

  lemma {:induction false} PeersAlwaysSubscribed(events: seq<Event>)
    ensures PeersAreSubscribed(Run(events))
  {
    if events != [] {
      PeersAlwaysSubscribed(events[..|events| - 1]);
      PeersStaySubscribed(Run(events[..|events| - 1]), events[|events| - 1]);
    }
  }

  /** A subscription is flagged as the first exactly when the peer had no live one: once per attachment. */
  lemma FirstOncePerAttachment(events: seq<Event>, peer: Address, id: byte)
    ensures Subscribed(Run(events), peer, id).1 <==>
      forall other: byte, i: nat :: !LiveSince(events, peer, other, i)
  {
    var t := Run(events);
    PeersAlwaysSubscribed(events);
    forall other: byte, i: nat | LiveSince(events, peer, other, i) ensures peer in t.peers {
      SubscribedExactlyWhenLatestIsLive(events, peer, other);
    }
    if peer in t.peers {
      var other :| other in t.peers[peer].subs;
      SubscribedExactlyWhenLatestIsLive(events, peer, other);
      var i: nat :| LiveSince(events, peer, other, i);
    }
  }
}