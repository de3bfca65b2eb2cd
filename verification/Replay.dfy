/**
 Frames held for a host between connections (src/bt/replay.rs): a bounded queue that keeps
 state-carrying reports, drops pure pointer motion, and evicts its oldest frame when full.
*/
module Replay {
  import opened HidReports

  const CAPACITY: nat := 64

  datatype PushOutcome = Queued | DroppedMotion | Evicted

  datatype Buffer = Buffer(frames: seq<HidFrame>, lastButtons: bv8, droppedMotion: nat, evicted: nat)

  const EMPTY := Buffer([], 0, 0, 0)

  /** A mouse report whose buttons repeat the last one's only moves the pointer (src/bt/gatt.rs). */
  predicate IsMotionOnly(frame: HidFrame, lastButtons: bv8) {
    frame.Mouse? && frame.buttons == lastButtons
  }

  function ButtonsAfter(frame: HidFrame, lastButtons: bv8): bv8 {
    if frame.Mouse? then frame.buttons else lastButtons
  }

  function Pushed(b: Buffer, frame: HidFrame): (Buffer, PushOutcome) {
    if IsMotionOnly(frame, b.lastButtons) then (b.(droppedMotion := b.droppedMotion + 1), DroppedMotion)
    else
      var full := |b.frames| >= CAPACITY;
      (Buffer((if full then b.frames[1..] else b.frames) + [frame], ButtonsAfter(frame, b.lastButtons),
              b.droppedMotion, if full then b.evicted + 1 else b.evicted),
       if full then Evicted else Queued)
  }

  /** The frames with this report id, in order. */
  function Of(frames: seq<HidFrame>, id: byte): (r: seq<HidFrame>)
    ensures |r| <= |frames|
    ensures forall f :: f in r <==> f in frames && f.ReportId() == id
  {
    if frames == [] then []
    else (if frames[0].ReportId() == id then [frames[0]] else []) + Of(frames[1..], id)
  }

  function Without(frames: seq<HidFrame>, id: byte): (r: seq<HidFrame>)
    ensures |r| + |Of(frames, id)| == |frames|
    ensures forall f :: f in r <==> f in frames && f.ReportId() != id
  {
    if frames == [] then [] else Unless(frames[0], id) + Without(frames[1..], id)
  }

  function Unless(f: HidFrame, id: byte): seq<HidFrame> {
    if f.ReportId() == id then [] else [f]
  }

  function Taken(b: Buffer, id: byte): (Buffer, seq<HidFrame>) {
    (b.(frames := Without(b.frames, id)), Of(b.frames, id))
  }

  // ---- The object ------------------------------------------------------------------------

  class ReplayBuffer {
    var frames: seq<HidFrame>
    var lastMouseButtons: bv8
    var droppedMotion: nat
    var evicted: nat

    function State(): Buffer
      reads this
    {
      Buffer(frames, lastMouseButtons, droppedMotion, evicted)
    }

    constructor ()
      ensures State() == EMPTY
    {
      frames, lastMouseButtons, droppedMotion, evicted := [], 0, 0, 0;
    }

    method Push(frame: HidFrame) returns (outcome: PushOutcome)
      modifies this
      ensures (State(), outcome) == Pushed(old(State()), frame)
    {
      if IsMotionOnly(frame, lastMouseButtons) {
        droppedMotion := droppedMotion + 1;
        return DroppedMotion;
      }
      if frame.Mouse? {
        lastMouseButtons := frame.buttons;
      }
      if |frames| >= CAPACITY {
        frames := frames[1..];
        evicted := evicted + 1;
        outcome := Evicted;
      } else {
        outcome := Queued;
      }
      frames := frames + [frame];
    }

    method Take(id: byte) returns (out: seq<HidFrame>)
      modifies this
      ensures (State(), out) == Taken(old(State()), id)
    {
      hide Of, Without;
      OfNone(id);
      out := [];
      var rest := [];
      assert frames[..0] == [];
      for i := 0 to |frames|
        invariant State() == old(State())
        invariant out == Of(frames[..i], id) && rest == Without(frames[..i], id)
      {
        OfSnoc(frames[..i], frames[i], id);
        WithoutSnoc(frames[..i], frames[i], id);
        assert frames[..i + 1] == frames[..i] + [frames[i]];
        if frames[i].ReportId() == id {
          out := out + [frames[i]];
        } else {
          rest := rest + [frames[i]];
        }
      }
      assert frames[..|frames|] == frames;
      frames := rest;
    }
  }

  // ---- Filters ---------------------------------------------------------------------------

  lemma OfNone(id: byte)
    ensures Of([], id) == [] && Without([], id) == []
  {
  }

  lemma {:induction false} OfSnoc(frames: seq<HidFrame>, f: HidFrame, id: byte)
    ensures Of(frames + [f], id) == Of(frames, id) + (if f.ReportId() == id then [f] else [])
  {
    if frames == [] {
      assert frames + [f] == [f] && [f][1..] == [];
    } else {
      assert (frames + [f])[1..] == frames[1..] + [f];
      OfSnoc(frames[1..], f, id);
    }
  }

  lemma {:induction false} WithoutSnoc(frames: seq<HidFrame>, f: HidFrame, id: byte)
    ensures Without(frames + [f], id) == Without(frames, id) + Unless(f, id)
  {
    if frames == [] {
      assert frames + [f] == [f] && [f][1..] == [];
      assert [] + Unless(f, id) == Unless(f, id) == Unless(f, id) + [];
    } else {
      assert (frames + [f])[1..] == frames[1..] + [f];
      WithoutSnoc(frames[1..], f, id);
      var rest := Without(frames[1..], id);
      assert Without(frames, id) == Unless(frames[0], id) + rest;
      assert Without(frames + [f], id) == Unless(frames[0], id) + (rest + Unless(f, id));
      hide Without, Of, Unless;
      Regroup(Unless(frames[0], id), rest, Unless(f, id));
    }
  }

  lemma Regroup<T>(a: seq<T>, b: seq<T>, c: seq<T>)
    ensures a + (b + c) == a + b + c
  {
  }

  /** Taking one report's frames leaves the other reports' frames as they were. */
  lemma {:induction false} OtherReportsUntouched(frames: seq<HidFrame>, id: byte, other: byte)
    ensures Of(Without(frames, id), other) == if other == id then [] else Of(frames, other)
  {
    if frames != [] {
      var rest := Without(frames[1..], id);
      OtherReportsUntouched(frames[1..], id, other);
      assert ([frames[0]] + rest)[1..] == rest && ([frames[0]] + rest)[0] == frames[0];
      assert [] + rest == rest;
      assert [] + Of(rest, other) == Of(rest, other);
    }
  }

  // ---- Any sequence of pushes and takes --------------------------------------------------

  datatype Op = Put(frame: HidFrame) | Fetch(id: byte)

  function Apply(b: Buffer, op: Op): (Buffer, seq<HidFrame>) {
    match op
    case Put(frame) => (Pushed(b, frame).0, [])
    case Fetch(id) => Taken(b, id)
  }

  /** The buffer after the operations, and everything taken out on the way. */
  function Run(ops: seq<Op>): (Buffer, seq<HidFrame>) {
    if ops == [] then (EMPTY, [])
    else
      var (b, taken) := Run(ops[..|ops| - 1]);
      var (b', more) := Apply(b, ops[|ops| - 1]);
      (b', taken + more)
  }

  /** The button byte of the last mouse report that was put in, kept or not; none held before the first. */
  function LatestButtons(ops: seq<Op>): bv8 {
    if ops == [] then 0
    else
      var op := ops[|ops| - 1];
      if op.Put? && op.frame.Mouse? then op.frame.buttons else LatestButtons(ops[..|ops| - 1])
  }

  predicate Keeps(op: Op, lastButtons: bv8) {
    op.Put? && !IsMotionOnly(op.frame, lastButtons)
  }

  /** The frames put in that are more than motion, in order. */
  function Kept(ops: seq<Op>): seq<HidFrame> {
    if ops == [] then []
    else
      var before := ops[..|ops| - 1];
      var op := ops[|ops| - 1];
      Kept(before) + (if Keeps(op, LatestButtons(before)) then [op.frame] else [])
  }

  /** The kept frames of one report since that report was last taken. */
  function KeptSince(ops: seq<Op>, id: byte): seq<HidFrame> {
    if ops == [] then []
    else
      var before := ops[..|ops| - 1];
      var op := ops[|ops| - 1];
      if op == Fetch(id) then []
      else KeptSince(before, id)
           + (if Keeps(op, LatestButtons(before)) && op.frame.ReportId() == id then [op.frame] else [])
  }

  function Puts(ops: seq<Op>): nat {
    if ops == [] then 0 else Puts(ops[..|ops| - 1]) + (if ops[|ops| - 1].Put? then 1 else 0)
  }

  predicate IsSuffix<T(==)>(a: seq<T>, b: seq<T>) {
    |a| <= |b| && a == b[|b| - |a|..]
  }

  function LastN<T>(s: seq<T>, n: nat): seq<T> {
    if |s| <= n then s else s[|s| - n..]
  }

  lemma {:induction false} ButtonsAreLatest(ops: seq<Op>)
    ensures Run(ops).0.lastButtons == LatestButtons(ops)
  {
    hide Of, Without;
    if ops != [] {
      ButtonsAreLatest(ops[..|ops| - 1]);
    }
  }

  /** Bounded, and nothing is unaccounted for: every frame put in was dropped, evicted, taken, or is still there. */
  lemma {:induction false} EveryFrameIsAccountedFor(ops: seq<Op>)
    ensures var (b, taken) := Run(ops);
      |b.frames| <= CAPACITY && Puts(ops) == b.droppedMotion + b.evicted + |taken| + |b.frames|
  {
    hide Of, Without;
    if ops != [] {
      EveryFrameIsAccountedFor(ops[..|ops| - 1]);
    }
  }

  /** Without takes the buffer is exactly the last 64 frames that are more than motion. */
  lemma {:induction false} HoldsTheLastFrames(ops: seq<Op>)
    requires forall op :: op in ops ==> op.Put?
    ensures Run(ops).0.frames == LastN(Kept(ops), CAPACITY)
  {
    hide Of, Without, LatestButtons;
    if ops != [] {
      var before, op := ops[..|ops| - 1], ops[|ops| - 1];
      assert op in ops && forall x :: x in before ==> x in ops;
      HoldsTheLastFrames(before);
      ButtonsAreLatest(before);
      LastNGrows(Kept(before), op.frame, CAPACITY);
      hide LastN;
    }
  }

  lemma LastNGrows<T>(s: seq<T>, x: T, n: nat)
    requires n > 0
    ensures var last := LastN(s, n); LastN(s + [x], n) == (if |last| >= n then last[1..] else last) + [x]
  {
  }

  lemma SuffixGrows<T>(a: seq<T>, b: seq<T>, tail: seq<T>)
    requires IsSuffix(a, b)
    ensures IsSuffix(a + tail, b + tail)
    ensures a != [] ==> IsSuffix(a[1..] + tail, b + tail)
  {
  }

  lemma NothingIsSuffix<T>()
    ensures IsSuffix<T>([], [])
  {
  }

  lemma OfTail(frames: seq<HidFrame>, id: byte)
    requires frames != []
    ensures Of(frames[1..], id) == Of(frames, id)
         || (Of(frames, id) != [] && Of(frames[1..], id) == Of(frames, id)[1..])
  {
  }

  /** A push appends the frame if it is kept, and otherwise loses at most the oldest frame. */
  lemma PushedOf(b: Buffer, frame: HidFrame, id: byte)
    requires !IsMotionOnly(frame, b.lastButtons)
    ensures var tail := if frame.ReportId() == id then [frame] else [];
      var after := Of(Pushed(b, frame).0.frames, id);
      after == Of(b.frames, id) + tail || (Of(b.frames, id) != [] && after == Of(b.frames, id)[1..] + tail)
  {
    if |b.frames| >= CAPACITY {
      OfSnoc(b.frames[1..], frame, id);
      OfTail(b.frames, id);
    } else {
      OfSnoc(b.frames, frame, id);
    }
    hide Of;
  }

  /**
   What is left of a report is a suffix of what was kept of it since its last take: eviction
   loses a report's frames oldest first, never a newer one before an older one.
  */
  lemma {:induction false} SurvivorsAreTheNewest(ops: seq<Op>, id: byte)
    ensures IsSuffix(Of(Run(ops).0.frames, id), KeptSince(ops, id))
  {
    hide Of, Without, LatestButtons, IsSuffix;
    NothingIsSuffix<HidFrame>();
    if ops == [] {
      OfNone(id);
    } else {
      var before, op := ops[..|ops| - 1], ops[|ops| - 1];
      var b := Run(before).0;
      SurvivorsAreTheNewest(before, id);
      ButtonsAreLatest(before);
      assert KeptSince(before, id) + [] == KeptSince(before, id);
      match op {
        case Fetch(other) => OtherReportsUntouched(b.frames, other, id);
        case Put(frame) =>
          if Keeps(op, b.lastButtons) {
            PushedOf(b, frame, id);
            SuffixGrows(Of(b.frames, id), KeptSince(before, id), if frame.ReportId() == id then [frame] else []);
          }
      }
    }
  }

  lemma {:induction false} NewestKeptMouse(ops: seq<Op>)
    ensures var kept := KeptSince(ops, REPORT_ID_MOUSE);
      kept != [] ==> kept[|kept| - 1].Mouse? && kept[|kept| - 1].buttons == LatestButtons(ops)
  {
    if ops != [] {
      NewestKeptMouse(ops[..|ops| - 1]);
    }
  }

  /** If any mouse frame survives, the last one carries the button state last put in. */
  lemma LastMouseFrameHasLatestButtons(ops: seq<Op>)
    ensures var mouse := Of(Run(ops).0.frames, REPORT_ID_MOUSE);
      mouse != [] ==> mouse[|mouse| - 1].Mouse? && mouse[|mouse| - 1].buttons == LatestButtons(ops)
  {
    SurvivorsAreTheNewest(ops, REPORT_ID_MOUSE);
    NewestKeptMouse(ops);
  }
}