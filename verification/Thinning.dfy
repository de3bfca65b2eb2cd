/**
 When a sequence of frames says no less than another: it leaves out only mouse frames whose
 buttons repeat those of the mouse frame before. What is left out moves the pointer and nothing
 else, so the same button bytes arrive in the same order.
*/
module Thinning {
  import opened HidReports
  import opened Replay

  /** The button byte after these frames, `before` being the byte they start from. */
  function LastButtons(frames: seq<HidFrame>, before: bv8): bv8 {
    if frames == [] then before
    else ButtonsAfter(frames[|frames| - 1], LastButtons(frames[..|frames| - 1], before))
  }

  /** `thin` is `full` without some frames that only move the pointer. */
  predicate Thins(thin: seq<HidFrame>, full: seq<HidFrame>, before: bv8)
    decreases |full|
  {
    if full == [] then thin == []
    else
      var rest, f := full[..|full| - 1], full[|full| - 1];
      (thin != [] && thin[|thin| - 1] == f && Thins(thin[..|thin| - 1], rest, before))
      || (IsMotionOnly(f, LastButtons(rest, before)) && Thins(thin, rest, before))
  }

  /** The button bytes in order, repeats removed. */
  function ButtonChanges(frames: seq<HidFrame>, before: bv8): seq<bv8> {
    if frames == [] then []
    else
      var rest, f := frames[..|frames| - 1], frames[|frames| - 1];
      ButtonChanges(rest, before) + (if f.Mouse? && f.buttons != LastButtons(rest, before) then [f.buttons] else [])
  }

  /** Every mouse frame changes the buttons. */
  predicate Lively(frames: seq<HidFrame>, before: bv8) {
    frames == [] ||
    var rest := frames[..|frames| - 1];
    Lively(rest, before) && !IsMotionOnly(frames[|frames| - 1], LastButtons(rest, before))
  }

  predicate NoMouse(frames: seq<HidFrame>) {
    forall f :: f in frames ==> !f.Mouse?
  }

  lemma Front(frames: seq<HidFrame>, f: HidFrame)
    ensures (frames + [f])[..|frames + [f]| - 1] == frames && (frames + [f])[|frames + [f]| - 1] == f
  {
  }

  lemma LastOfSnoc(frames: seq<HidFrame>, f: HidFrame, before: bv8)
    ensures LastButtons(frames + [f], before) == ButtonsAfter(f, LastButtons(frames, before))
    ensures Lively(frames + [f], before) <==> Lively(frames, before) && !IsMotionOnly(f, LastButtons(frames, before))
  {
    Front(frames, f);
  }

  /** A frame that is kept. */
  lemma ThinsKeeping(thin: seq<HidFrame>, full: seq<HidFrame>, f: HidFrame, before: bv8)
    requires Thins(thin, full, before)
    ensures Thins(thin + [f], full + [f], before)
  {
    Front(thin, f);
    Front(full, f);
  }

  /** A frame that is left out. */
  lemma ThinsSkipping(thin: seq<HidFrame>, full: seq<HidFrame>, f: HidFrame, before: bv8)
    requires Thins(thin, full, before) && IsMotionOnly(f, LastButtons(full, before))
    ensures Thins(thin, full + [f], before)
  {
    Front(full, f);
  }

  /** Leaving out motion keeps the buttons: the last byte, and every change in order. */
  lemma {:induction false} ThinningKeepsButtons(thin: seq<HidFrame>, full: seq<HidFrame>, before: bv8)
    requires Thins(thin, full, before)
    ensures LastButtons(thin, before) == LastButtons(full, before)
    ensures ButtonChanges(thin, before) == ButtonChanges(full, before)
    decreases |full|
  {
    if full != [] {
      var rest, f := full[..|full| - 1], full[|full| - 1];
      if thin != [] && thin[|thin| - 1] == f && Thins(thin[..|thin| - 1], rest, before) {
        ThinningKeepsButtons(thin[..|thin| - 1], rest, before);
      } else {
        ThinningKeepsButtons(thin, rest, before);
      }
    }
  }

  /** Where there are no mouse frames nothing is left out. */
  lemma {:induction false} ThinningKeepsKeys(thin: seq<HidFrame>, full: seq<HidFrame>, before: bv8)
    requires NoMouse(full)
    ensures Thins(thin, full, before) <==> thin == full
    decreases |full|
  {
    if full != [] {
      var rest, f := full[..|full| - 1], full[|full| - 1];
      assert f in full && forall x :: x in rest ==> x in full;
      if thin != [] {
        ThinningKeepsKeys(thin[..|thin| - 1], rest, before);
        assert thin == thin[..|thin| - 1] + [thin[|thin| - 1]] && full == rest + [f];
      }
    }
  }

  lemma {:induction false} KeysAreLively(frames: seq<HidFrame>, before: bv8)
    requires NoMouse(frames)
    ensures Lively(frames, before) && LastButtons(frames, before) == before
  {
    if frames != [] {
      var rest, f := frames[..|frames| - 1], frames[|frames| - 1];
      assert f in frames && forall x :: x in rest ==> x in frames;
      KeysAreLively(rest, before);
    }
  }
}
