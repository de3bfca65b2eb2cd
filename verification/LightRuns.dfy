/**
 The lamp over whole runs: the fade always ends and cannot be starved, dark means nobody was
 there, input always lights up, and a bind flashes exactly twice.
*/
module LightRuns {
  import opened Wrappers
  import opened Slots
  import opened Lighting

  /** What the lighting task sees: a slot, an event, an input event (through `Activity`), or its own timer. */
  datatype Happening =
    | SlotSet(slot: Slot, now: int)
    | Noted(event: LightEvent, now: int)
    | Input(now: int)
    | Timer(now: int)

  /** The lamp and the coalescer in front of it. */
  datatype Desk = Desk(lamp: Lamp, lastSent: int)

  function NewDesk(s: Settings, slot: Slot, start: int): Desk {
    Desk(NewLamp(s, slot, start), start - ACTIVITY_COALESCE)
  }

  predicate Pings(d: Desk, h: Happening) {
    h.Input? && h.now >= d.lastSent + ACTIVITY_COALESCE
  }

  function StepDesk(s: Settings, d: Desk, h: Happening): Desk {
    match h
    case SlotSet(slot, _) => d.(lamp := d.lamp.(slot := slot))
    case Noted(event, now) => d.(lamp := Happened(d.lamp, event, now))
    case Input(now) => if Pings(d, h) then Desk(Touched(s, d.lamp, now, now), now) else d
    case Timer(now) => d.(lamp := Ticked(d.lamp, now))
  }

  function RunDesk(s: Settings, d: Desk, run: seq<Happening>): Desk {
    if run == [] then d else StepDesk(s, RunDesk(s, d, run[..|run| - 1]), run[|run| - 1])
  }

  // ---- Timers are armed exactly when needed ----------------------------------------------

  predicate Armed(l: Lamp) {
    && (l.fadeTick.Some? <==> l.level != l.Goal())
    && (l.animTick.Some? <==> l.anim != Steady)
    && (l.dark ==> l.idleAt.None?)
  }

  lemma StepKeepsArmed(s: Settings, d: Desk, h: Happening)
    requires Armed(d.lamp)
    ensures Armed(StepDesk(s, d, h).lamp)
  {
  }

  /**
   The fade timer is armed exactly while the level is not at its goal, the animation timer exactly
   while there is an animation, and a dark lamp has no idle deadline.
  */
  lemma {:induction false} TimersAreArmedExactly(s: Settings, slot: Slot, start: int, run: seq<Happening>)
    ensures Armed(RunDesk(s, NewDesk(s, slot, start), run).lamp)
  {
    if run != [] {
      TimersAreArmedExactly(s, slot, start, run[..|run| - 1]);
      hide Armed, StepDesk;
      StepKeepsArmed(s, RunDesk(s, NewDesk(s, slot, start), run[..|run| - 1]), run[|run| - 1]);
    }
  }

  /** So no timer is left exactly when there is nothing left to move: no fade, no animation, no countdown. */
  lemma AsleepExactlyWhenSettled(s: Settings, slot: Slot, start: int, run: seq<Happening>)
    ensures var l := RunDesk(s, NewDesk(s, slot, start), run).lamp;
      NextTick(l).None? <==> l.level == l.Goal() && l.anim == Steady && l.idleAt.None?
  {
    hide RunDesk;
    TimersAreArmedExactly(s, slot, start, run);
  }

  // ---- Fades -----------------------------------------------------------------------------

  function CeilDiv(a: nat, b: nat): nat
    requires b > 0
  {
    (a + b - 1) / b
  }

  /** How many fade steps are left. */
  function StepsLeft(l: Lamp): nat {
    if l.dark then CeilDiv(l.level, FADE_OUT_STEP) else CeilDiv(255 - l.level, FADE_IN_STEP)
  }

  function MostSteps(dark: bool): nat {
    if dark then 24 else 7
  }

  lemma StepSizes()
    ensures FADE_OUT_STEP == 11 && FADE_IN_STEP == 41
  {
  }

  /**
   A full fade takes at most 24 steps down and 7 up; each step leaves one fewer; none are left exactly
   at the goal.
  */
  lemma FadeMakesProgress(l: Lamp)
    ensures StepsLeft(l) <= MostSteps(l.dark)
    ensures StepsLeft(l) == 0 <==> l.level == l.Goal()
    ensures l.level != l.Goal() ==> StepsLeft(l.(level := Stepped(l.level, l.dark))) == StepsLeft(l) - 1
  {
    StepSizes();
    if l.dark && l.level >= 11 {
      assert (l.level - 11 + 10) / 11 == (l.level + 10) / 11 - 1;
    } else if !l.dark && 255 - l.level >= 41 {
      assert (255 - l.level - 41 + 40) / 41 == (255 - l.level + 40) / 41 - 1;
    }
  }

  /** No event moves the level by more than one step, nor against the gate; only the timer moves it at all. */
  lemma LevelNeverJumps(s: Settings, d: Desk, h: Happening)
    ensures var (l, l1) := (d.lamp, StepDesk(s, d, h).lamp);
      (l1.level == l.level || (h.Timer? && l1.level == Stepped(l.level, l1.dark)))
      && (if l1.dark then l1.level <= l.level <= l1.level + FADE_OUT_STEP
          else l.level <= l1.level <= l.level + FADE_IN_STEP)
  {
    hide Animated;
    AnimationLeavesLevel(Faded(Idled(d.lamp, h.now), h.now), h.now);
  }

  lemma AnimationLeavesLevel(l: Lamp, now: int)
    ensures Animated(l, now) == l.(anim := Animated(l, now).anim, animTick := Animated(l, now).animTick)
  {
  }

  // ---- Every step served counts ----------------------------------------------------------

  /** How often the fade timer has fired. */
  function FadeSteps(s: Settings, d: Desk, run: seq<Happening>): nat {
    if run == [] then 0
    else
      var before, h := run[..|run| - 1], run[|run| - 1];
      FadeSteps(s, d, before) + (if h.Timer? && Due(RunDesk(s, d, before).lamp.fadeTick, h.now) then 1 else 0)
  }

  /** The gate keeps its direction throughout. */
  predicate GateStays(s: Settings, d: Desk, run: seq<Happening>) {
    run != [] ==> GateStays(s, d, run[..|run| - 1]) && RunDesk(s, d, run).lamp.dark == d.lamp.dark
  }

  lemma FadeStepCounts(s: Settings, d: Desk, h: Happening)
    requires Armed(d.lamp) && StepDesk(s, d, h).lamp.dark == d.lamp.dark
    ensures StepsLeft(StepDesk(s, d, h).lamp) + (if h.Timer? && Due(d.lamp.fadeTick, h.now) then 1 else 0)
         == StepsLeft(d.lamp)
  {
    var l, l1 := d.lamp, StepDesk(s, d, h).lamp;
    match h {
      case Timer(now) =>
        AnimationLeavesLevel(Faded(Idled(l, now), now), now);
        FadeMakesProgress(l);
        hide StepsLeft, Animated, Stepped;
        assert Idled(l, now) == l;
        StepsIgnoreTimers(Faded(l, now), l1);
        if Due(l.fadeTick, now) {
          StepsIgnoreTimers(l.(level := Stepped(l.level, l.dark)), l1);
        } else {
          StepsIgnoreTimers(l, l1);
        }
      case _ => StepsIgnoreTimers(l, l1);
    }
  }

  /**
   However late timers are served and however often pings start them again: while the gate keeps
   its direction, each time the fade timer fires leaves exactly one step fewer, and nothing else
   adds or takes away any.
  */
  lemma {:induction false} EveryFadeStepCounts(s: Settings, d: Desk, run: seq<Happening>)
    requires Armed(d.lamp) && GateStays(s, d, run)
    ensures StepsLeft(RunDesk(s, d, run).lamp) + FadeSteps(s, d, run) == StepsLeft(d.lamp)
    ensures Armed(RunDesk(s, d, run).lamp) && RunDesk(s, d, run).lamp.dark == d.lamp.dark
  {
    hide StepDesk, Armed, StepsLeft;
    if run != [] {
      EveryFadeStepCounts(s, d, run[..|run| - 1]);
      StepKeepsArmed(s, RunDesk(s, d, run[..|run| - 1]), run[|run| - 1]);
      FadeStepCounts(s, RunDesk(s, d, run[..|run| - 1]), run[|run| - 1]);
    }
  }

  // ---- Fades end in time -----------------------------------------------------------------

  /** Timers are served at most `late` after their deadline: nothing is handled later than that. */
  predicate Timely(l: Lamp, now: int, late: nat) {
    NextTick(l).Some? ==> now <= NextTick(l).value + late
  }

  predicate TimelyRun(s: Settings, d: Desk, run: seq<Happening>, late: nat) {
    run == [] ||
    var before := run[..|run| - 1];
    TimelyRun(s, d, before, late) && Timely(RunDesk(s, d, before).lamp, run[|run| - 1].now, late)
  }

  /** When the gate was last told where to go: by input, or by the idle deadline. */
  function GateSince(s: Settings, d: Desk, start: int, run: seq<Happening>): int {
    if run == [] then start
    else
      var before, h := run[..|run| - 1], run[|run| - 1];
      var d1 := RunDesk(s, d, before);
      if Pings(d1, h) || (h.Timer? && Due(d1.lamp.idleAt, h.now)) then h.now else GateSince(s, d, start, before)
  }

  /** The next fade step is armed for no later than an unbroken fade since then would need. */
  predicate OnSchedule(l: Lamp, since: int, late: nat) {
    l.fadeTick.Some? ==>
      l.fadeTick.value <= since + FADE_TICK + (FADE_TICK + late) * (MostSteps(l.dark) - StepsLeft(l))
  }

  lemma SyncIsOnSchedule(l: Lamp, now: int, late: nat)
    ensures OnSchedule(FadeSynced(l, now), now, late)
  {
    FadeMakesProgress(l);
    hide StepsLeft;
    assert StepsLeft(FadeSynced(l, now)) == StepsLeft(l) by { StepsIgnoreTimers(l, FadeSynced(l, now)); }
  }

  lemma StepsIgnoreTimers(l: Lamp, l1: Lamp)
    requires l1.level == l.level && l1.dark == l.dark
    ensures StepsLeft(l1) == StepsLeft(l)
  {
  }

  lemma FadedIsOnSchedule(l: Lamp, since: int, now: int, late: nat)
    requires OnSchedule(l, since, late) && (l.fadeTick.Some? ==> now <= l.fadeTick.value + late && l.level != l.Goal())
    ensures OnSchedule(Faded(l, now), since, late)
  {
    if Due(l.fadeTick, now) {
      var l1 := l.(level := Stepped(l.level, l.dark));
      FadeMakesProgress(l);
      hide StepsLeft, Stepped;
      StepsIgnoreTimers(l1, FadeSynced(l1, now));
      OneStepFurther(FADE_TICK + late, MostSteps(l.dark) - StepsLeft(l));
    }
  }

  lemma OneStepFurther(tick: int, steps: int)
    ensures tick * (steps + 1) == tick * steps + tick
  {
  }

  lemma OtherStepsKeepSchedule(l: Lamp, l1: Lamp, since: int, late: nat)
    requires OnSchedule(l, since, late) && l1.level == l.level && l1.dark == l.dark && l1.fadeTick == l.fadeTick
    ensures OnSchedule(l1, since, late)
  {
    hide StepsLeft;
    StepsIgnoreTimers(l, l1);
  }

  lemma LeastIsLeast(a: Option<int>, b: Option<int>, now: int)
    ensures (Least(a, b).Some? ==> now <= Least(a, b).value) <==>
      (a.Some? ==> now <= a.value) && (b.Some? ==> now <= b.value)
  {
  }

  lemma TimelyForAll(l: Lamp, now: int, late: nat)
    requires Timely(l, now, late)
    ensures l.fadeTick.Some? ==> now <= l.fadeTick.value + late
    ensures l.animTick.Some? ==> now <= l.animTick.value + late
    ensures l.idleAt.Some? ==> now <= l.idleAt.value + late
  {
    hide Least;
    LeastIsLeast(Least(l.animTick, l.fadeTick), l.idleAt, now - late);
    LeastIsLeast(l.animTick, l.fadeTick, now - late);
  }

  lemma TimerKeepsSchedule(l: Lamp, since: int, now: int, late: nat)
    requires Armed(l) && OnSchedule(l, since, late) && Timely(l, now, late)
    ensures OnSchedule(Ticked(l, now), if Due(l.idleAt, now) then now else since, late)
  {
    TimelyForAll(l, now, late);
    hide StepsLeft, NextTick, Least, MostSteps;
    var idled := Idled(l, now);
    var since1 := if Due(l.idleAt, now) then now else since;
    if Due(l.idleAt, now) {
      SyncIsOnSchedule(l.(dark := true, idleAt := None), now, late);
    }
    hide OnSchedule;
    FadedIsOnSchedule(idled, since1, now, late);
    AnimationLeavesLevel(Faded(idled, now), now);
    OtherStepsKeepSchedule(Faded(idled, now), Ticked(l, now), since1, late);
  }

  lemma {:induction false} RunStaysOnSchedule(s: Settings, slot: Slot, start: int, run: seq<Happening>, late: nat)
    requires TimelyRun(s, NewDesk(s, slot, start), run, late)
    ensures var d := NewDesk(s, slot, start); OnSchedule(RunDesk(s, d, run).lamp, GateSince(s, d, start, run), late)
  {
    hide Timely, Ticked, Touched;
    if run != [] {
      var before, h := run[..|run| - 1], run[|run| - 1];
      var d := NewDesk(s, slot, start);
      RunStaysOnSchedule(s, slot, start, before, late);
      TimersAreArmedExactly(s, slot, start, before);
      var d1 := RunDesk(s, d, before);
      ScheduleStep(s, d1, h, GateSince(s, d, start, before), late);
      hide OnSchedule, Armed, StepDesk;
    }
  }

  lemma ScheduleStep(s: Settings, d: Desk, h: Happening, since: int, late: nat)
    requires Armed(d.lamp) && OnSchedule(d.lamp, since, late) && Timely(d.lamp, h.now, late)
    ensures var since1 := if Pings(d, h) || (h.Timer? && Due(d.lamp.idleAt, h.now)) then h.now else since;
      OnSchedule(StepDesk(s, d, h).lamp, since1, late)
  {
    hide OnSchedule, Armed, Ticked, Timely;
    match h {
      case SlotSet(slot, _) => OtherStepsKeepSchedule(d.lamp, d.lamp.(slot := slot), since, late);
      case Noted(event, now) => OtherStepsKeepSchedule(d.lamp, Happened(d.lamp, event, now), since, late);
      case Input(now) => SyncIsOnSchedule(d.lamp.(dark := false, idleAt := After(now, s.idleTimeout)), now, late);
      case Timer(now) => TimerKeepsSchedule(d.lamp, since, now, late);
    }
  }

  /**
   With timers served at most `late` after their deadline, a fade in ends within 7 ticks and their
   lateness (7 * (40 ms + late)) of the ping that started it, a fade out within 24 of the deadline.
  */
  lemma FadesEndInTime(s: Settings, slot: Slot, start: int, run: seq<Happening>, now: int, late: nat)
    requires TimelyRun(s, NewDesk(s, slot, start), run, late)
    requires var d := NewDesk(s, slot, start); var l := RunDesk(s, d, run).lamp;
      Timely(l, now, late) && now > GateSince(s, d, start, run) + (FADE_TICK + late) * MostSteps(l.dark)
    ensures var l := RunDesk(s, NewDesk(s, slot, start), run).lamp; l.level == l.Goal()
  {
    hide RunDesk, GateSince, TimelyRun;
    var d := NewDesk(s, slot, start);
    var l := RunDesk(s, d, run).lamp;
    RunStaysOnSchedule(s, slot, start, run, late);
    TimersAreArmedExactly(s, slot, start, run);
    TimelyForAll(l, now, late);
    FadeMakesProgress(l);
    hide StepsLeft, NextTick, NewDesk;
    if l.level != l.Goal() {
      LastStepInTime(FADE_TICK + late, MostSteps(l.dark), StepsLeft(l));
    }
  }

  lemma LastStepInTime(tick: nat, most: nat, left: nat)
    requires 1 <= left <= most
    ensures tick + tick * (most - left) <= tick * most
  {
    assert tick * most == tick * (most - left) + tick * left;
    assert tick * left >= tick by { assert tick * left == tick + tick * (left - 1); }
  }

  // ---- Dark means nobody was there -------------------------------------------------------

  function LastInput(run: seq<Happening>): Option<int> {
    if run == [] then None
    else if run[|run| - 1].Input? then Some(run[|run| - 1].now)
    else LastInput(run[..|run| - 1])
  }

  predicate InTime(run: seq<Happening>, start: int) {
    run == [] ||
    var before, now := run[..|run| - 1], run[|run| - 1].now;
    InTime(before, start) && now >= ClockOf(before, start)
  }

  function ClockOf(run: seq<Happening>, start: int): int {
    if run == [] then start else run[|run| - 1].now
  }

  /** The idle countdown and the coalescer agree with the inputs so far. */
  predicate Watches(s: Settings, d: Desk, last: Option<int>, start: int, clock: int) {
    && start <= clock && (last.Some? ==> last.value <= clock && d.lastSent >= start)
    && (last.Some? ==> d.lastSent <= last.value < d.lastSent + ACTIVITY_COALESCE)
    && (last.None? ==> d.lastSent == start - ACTIVITY_COALESCE)
    && (s.idleTimeout.None? ==> !d.lamp.dark && d.lamp.idleAt.None?)
    && (s.idleTimeout.Some? && !d.lamp.dark ==>
          d.lamp.idleAt == Some((if last.Some? then d.lastSent else start) + s.idleTimeout.value))
    && (d.lamp.dark ==>
          s.idleTimeout.Some? && clock >= (if last.Some? then d.lastSent else start) + s.idleTimeout.value)
    && (d.lamp.dark ==> d.lamp.idleAt.None?)
  }

  predicate Patient(s: Settings) {
    s.idleTimeout.Some? ==> s.idleTimeout.value >= ACTIVITY_COALESCE
  }

  lemma WatchStep(s: Settings, d: Desk, last: Option<int>, start: int, clock: int, h: Happening)
    requires Watches(s, d, last, start, clock) && Patient(s) && h.now >= clock
    ensures Watches(s, StepDesk(s, d, h), if h.Input? then Some(h.now) else last, start, h.now)
    ensures h.Input? ==> !StepDesk(s, d, h).lamp.dark
  {
    hide Animated;
    AnimationLeavesLevel(Faded(Idled(d.lamp, h.now), h.now), h.now);
  }

  lemma {:induction false} RunWatches(s: Settings, slot: Slot, start: int, run: seq<Happening>)
    requires InTime(run, start) && Patient(s)
    ensures Watches(s, RunDesk(s, NewDesk(s, slot, start), run), LastInput(run), start, ClockOf(run, start))
  {
    if run != [] {
      var before := run[..|run| - 1];
      RunWatches(s, slot, start, before);
      hide Watches, StepDesk;
      WatchStep(s, RunDesk(s, NewDesk(s, slot, start), before), LastInput(before), start, ClockOf(before, start),
                run[|run| - 1]);
    }
  }

  /** The lamp is dark only if there was no input for the timeout, less the second the coalescer may hide. */
  lemma DarkMeansNobodyThere(s: Settings, slot: Slot, start: int, run: seq<Happening>)
    requires InTime(run, start) && Patient(s)
    requires RunDesk(s, NewDesk(s, slot, start), run).lamp.dark
    ensures s.idleTimeout.Some?
    ensures LastInput(run).Some? ==>
      ClockOf(run, start) - LastInput(run).value > s.idleTimeout.value - ACTIVITY_COALESCE
    ensures LastInput(run).None? ==> ClockOf(run, start) - start >= s.idleTimeout.value
  {
    RunWatches(s, slot, start, run);
    hide RunDesk, LastInput, InTime;
  }

  /** Any input lights the lamp at once: the coalescer never swallows the one that wakes it. */
  lemma InputAlwaysWakes(s: Settings, slot: Slot, start: int, run: seq<Happening>)
    requires InTime(run, start) && Patient(s) && run != [] && run[|run| - 1].Input?
    ensures !RunDesk(s, NewDesk(s, slot, start), run).lamp.dark
  {
    var before := run[..|run| - 1];
    RunWatches(s, slot, start, before);
    hide Watches, StepDesk;
    WatchStep(s, RunDesk(s, NewDesk(s, slot, start), before), LastInput(before), start, ClockOf(before, start),
                run[|run| - 1]);
  }

  /** Since when the gate stands where it is: for a lamp that is not dark, the last ping or the start. */
  lemma {:induction false} LitSinceLastPing(s: Settings, slot: Slot, start: int, run: seq<Happening>)
    requires InTime(run, start) && Patient(s)
    ensures var d := NewDesk(s, slot, start); var d1 := RunDesk(s, d, run);
      !d1.lamp.dark ==> GateSince(s, d, start, run) == if LastInput(run).Some? then d1.lastSent else start
  {
    if run != [] {
      var before, h := run[..|run| - 1], run[|run| - 1];
      var d := NewDesk(s, slot, start);
      LitSinceLastPing(s, slot, start, before);
      RunWatches(s, slot, start, before);
      var d1 := RunDesk(s, d, before);
      hide Animated, NewLamp;
      AnimationLeavesLevel(Faded(Idled(d1.lamp, h.now), h.now), h.now);
    }
  }

  lemma {:induction false} StillAtStart(s: Settings, slot: Slot, start: int, run: seq<Happening>)
    requires InTime(run, start) && Patient(s) && LastInput(run).None?
    ensures var l := RunDesk(s, NewDesk(s, slot, start), run).lamp; !l.dark ==> l.level == 255 && l.fadeTick.None?
  {
    if run != [] {
      StillAtStart(s, slot, start, run[..|run| - 1]);
      RunWatches(s, slot, start, run[..|run| - 1]);
      var l, h := RunDesk(s, NewDesk(s, slot, start), run[..|run| - 1]).lamp, run[|run| - 1];
      hide Animated, NewLamp;
      AnimationLeavesLevel(Faded(Idled(l, h.now), h.now), h.now);
    }
  }

  /**
   With timers at most 102.857 ms late, a ping that finds the lamp not dark finds it fully lit,
   although each ping starts the fade's timer again.
  */
  lemma PingsFindTheLampLit(s: Settings, slot: Slot, start: int, run: seq<Happening>, h: Happening, late: nat)
    requires 7 * (FADE_TICK + late) < ACTIVITY_COALESCE
    requires InTime(run + [h], start) && Patient(s) && TimelyRun(s, NewDesk(s, slot, start), run + [h], late)
    requires var d := RunDesk(s, NewDesk(s, slot, start), run); Pings(d, h) && !d.lamp.dark
    ensures RunDesk(s, NewDesk(s, slot, start), run).lamp.level == 255
  {
    assert (run + [h])[..|run|] == run;
    var d := NewDesk(s, slot, start);
    var d1 := RunDesk(s, d, run);
    LitSinceLastPing(s, slot, start, run);
    RunWatches(s, slot, start, run);
    hide Watches;
    if LastInput(run).Some? {
      hide RunDesk, GateSince, LastInput, Timely;
      FadesEndInTime(s, slot, start, run, h.now, late);
    } else {
      StillAtStart(s, slot, start, run);
    }
  }

  /** Right after a ping that started a fade in from black. */
  predicate JustWoken(d: Desk) {
    Armed(d.lamp) && d.lamp.level == 0 && !d.lamp.dark && d.lamp.anim == Steady
    && d.lamp.fadeTick == Some(d.lastSent + FADE_TICK)
    && (d.lamp.idleAt.Some? ==> d.lamp.idleAt.value >= d.lastSent + ACTIVITY_COALESCE)
  }

  lemma WakingTheBlackLamp(s: Settings, d: Desk, h: Happening)
    requires Armed(d.lamp) && d.lamp.dark && d.lamp.level == 0 && d.lamp.anim == Steady && Patient(s) && Pings(d, h)
    ensures JustWoken(StepDesk(s, d, h)) && StepDesk(s, d, h).lastSent == h.now
  {
  }

  /** Timers on time: the idle deadline at `from`, then one fade step after another. */
  function Darkening(from: int, n: nat): seq<Happening> {
    if n == 0 then [Timer(from)] else Darkening(from, n - 1) + [Timer(from + FADE_TICK * n)]
  }

  /** The lamp that went dark at `from` after `n` fade steps. */
  function Fading(slot: Slot, from: int, n: nat): Lamp
    requires n <= 24
  {
    Lamp(slot, Steady, None, if n == 24 then 0 else 255 - 11 * n, true, None,
         if n == 24 then None else Some(from + FADE_TICK * (n + 1)))
  }

  lemma FadingFurther(slot: Slot, from: int, n: nat)
    requires 0 < n <= 24
    ensures Ticked(Fading(slot, from, n - 1), from + FADE_TICK * n) == Fading(slot, from, n)
    ensures Timely(Fading(slot, from, n - 1), from + FADE_TICK * n, 0)
  {
    StepSizes();
  }

  lemma OneHappeningMore(s: Settings, d: Desk, before: seq<Happening>, h: Happening, start: int, late: nat)
    ensures var run := before + [h];
      RunDesk(s, d, run) == StepDesk(s, RunDesk(s, d, before), h)
      && (TimelyRun(s, d, run, late) <==>
            TimelyRun(s, d, before, late) && Timely(RunDesk(s, d, before).lamp, h.now, late))
      && (InTime(run, start) <==> InTime(before, start) && h.now >= ClockOf(before, start))
      && ClockOf(run, start) == h.now
  {
    assert (before + [h])[..|before|] == before;
    hide StepDesk, Timely;
  }

  /** The countdown of a new desk runs out. */
  lemma IdleLampTurnsDark(s: Settings, slot: Slot, start: int, late: nat)
    requires s.idleTimeout.Some? && Patient(s)
    ensures var d, from := NewDesk(s, slot, start), start + s.idleTimeout.value;
      var run := Darkening(from, 0);
      TimelyRun(s, d, run, late) && InTime(run, start) && ClockOf(run, start) == from
      && RunDesk(s, d, run) == d.(lamp := Fading(slot, from, 0))
  {
    var d, from := NewDesk(s, slot, start), start + s.idleTimeout.value;
    var run := Darkening(from, 0);
    assert run == [Timer(from)] && run[..|run| - 1] == [];
    assert RunDesk(s, d, []) == d && TimelyRun(s, d, [], late) && InTime([], start);
  }

  /** Nobody there: the countdown runs out and the lamp fades to black, with every timer on time. */
  lemma {:induction false} LampGoesDark(s: Settings, slot: Slot, start: int, n: nat, late: nat)
    requires s.idleTimeout.Some? && Patient(s) && n <= 24
    ensures var d, from := NewDesk(s, slot, start), start + s.idleTimeout.value;
      var run := Darkening(from, n);
      TimelyRun(s, d, run, late) && InTime(run, start) && ClockOf(run, start) == from + FADE_TICK * n
      && RunDesk(s, d, run) == d.(lamp := Fading(slot, from, n))
  {
    hide Fading, RunDesk, TimelyRun, InTime, ClockOf, NewDesk, Darkening, Patient;
    if n == 0 {
      IdleLampTurnsDark(s, slot, start, late);
    } else {
      LampGoesDark(s, slot, start, n - 1, late);
      DarkeningFurther(s, NewDesk(s, slot, start), slot, start + s.idleTimeout.value, start, n, late);
    }
  }

  /** One fade step more. */
  lemma DarkeningFurther(s: Settings, d: Desk, slot: Slot, from: int, start: int, n: nat, late: nat)
    requires 0 < n <= 24
    requires var before := Darkening(from, n - 1);
      TimelyRun(s, d, before, late) && InTime(before, start) && ClockOf(before, start) == from + FADE_TICK * (n - 1)
      && RunDesk(s, d, before) == d.(lamp := Fading(slot, from, n - 1))
    ensures var run := Darkening(from, n);
      TimelyRun(s, d, run, late) && InTime(run, start) && ClockOf(run, start) == from + FADE_TICK * n
      && RunDesk(s, d, run) == d.(lamp := Fading(slot, from, n))
  {
    var now := from + FADE_TICK * n;
    assert now >= from + FADE_TICK * (n - 1);
    OneHappeningMore(s, d, Darkening(from, n - 1), Timer(now), start, late);
    FadingFurther(slot, from, n);
    hide Ticked, Fading, RunDesk, TimelyRun, InTime, ClockOf, NextTick;
  }

  /** When the first input comes to the black lamp. */
  function WokenAt(s: Settings, start: int): int
    requires s.idleTimeout.Some?
  {
    start + s.idleTimeout.value + FADE_TICK * 24
  }

  /** From a new desk: the lamp goes dark, and then somebody comes. */
  function Waking(s: Settings, start: int): seq<Happening>
    requires s.idleTimeout.Some?
  {
    Darkening(start + s.idleTimeout.value, 24) + [Input(WokenAt(s, start))]
  }

  lemma WakingWakes(s: Settings, slot: Slot, start: int, late: nat)
    requires s.idleTimeout.Some? && Patient(s)
    ensures var d, run := NewDesk(s, slot, start), Waking(s, start);
      TimelyRun(s, d, run, late) && InTime(run, start) && ClockOf(run, start) == WokenAt(s, start)
      && JustWoken(RunDesk(s, d, run)) && RunDesk(s, d, run).lastSent == WokenAt(s, start)
  {
    var d, before, h := NewDesk(s, slot, start), Darkening(start + s.idleTimeout.value, 24), Input(WokenAt(s, start));
    LampGoesDark(s, slot, start, 24, late);
    WakingTheBlackLamp(s, RunDesk(s, d, before), h);
    assert (before + [h])[..|before|] == before;
    hide Darkening, JustWoken, StepDesk;
  }

  lemma {:induction false} RunInParts(s: Settings, d: Desk, a: seq<Happening>, b: seq<Happening>, late: nat)
    ensures RunDesk(s, d, a + b) == RunDesk(s, RunDesk(s, d, a), b)
    ensures TimelyRun(s, d, a + b, late) <==> TimelyRun(s, d, a, late) && TimelyRun(s, RunDesk(s, d, a), b, late)
    decreases |b|
  {
    hide StepDesk, Timely;
    if b == [] {
      assert a + b == a;
    } else {
      assert (a + b)[..|a + b| - 1] == a + b[..|b| - 1];
      RunInParts(s, d, a, b[..|b| - 1], late);
    }
  }

  lemma {:induction false} InTimeInParts(a: seq<Happening>, b: seq<Happening>, start: int)
    ensures InTime(a + b, start) <==> InTime(a, start) && InTime(b, ClockOf(a, start))
    decreases |b|
  {
    if b == [] {
      assert a + b == a;
    } else {
      assert (a + b)[..|a + b| - 1] == a + b[..|b| - 1];
      InTimeInParts(a, b[..|b| - 1], start);
    }
  }

  /** Timers in a row, each 102.858 ms late. */
  function SlowTimers(from: int, n: nat): seq<Happening> {
    if n == 0 then [] else SlowTimers(from, n - 1) + [Timer(from + 142_858 * n)]
  }

  lemma {:induction false} SlowFade(s: Settings, d: Desk, n: nat, late: nat)
    requires JustWoken(d) && n <= 6 && late >= 102_858
    ensures var run := SlowTimers(d.lastSent, n);
      TimelyRun(s, d, run, late)
      && RunDesk(s, d, run) ==
         d.(lamp := d.lamp.(level := 41 * n, fadeTick := Some(d.lastSent + 142_858 * n + FADE_TICK)))
  {
    if n > 0 {
      SlowFade(s, d, n - 1, late);
      var run := SlowTimers(d.lastSent, n);
      assert run[..|run| - 1] == SlowTimers(d.lastSent, n - 1);
      var l := RunDesk(s, d, run[..|run| - 1]).lamp;
      StepSizes();
      SlowStep(d, l, n);
    }
  }

  lemma SlowStep(d: Desk, l: Lamp, n: nat)
    requires JustWoken(d) && 0 < n <= 6
    requires l == d.lamp.(level := 41 * (n - 1), fadeTick := Some(d.lastSent + 142_858 * (n - 1) + FADE_TICK))
    ensures Ticked(l, d.lastSent + 142_858 * n) ==
      d.lamp.(level := 41 * n, fadeTick := Some(d.lastSent + 142_858 * n + FADE_TICK))
  {
    StepSizes();
  }

  lemma SlowTimersInterrupt(s: Settings, d: Desk, late: nat)
    requires JustWoken(d) && late >= 102_858
    ensures var run, h := SlowTimers(d.lastSent, 6), Input(d.lastSent + ACTIVITY_COALESCE);
      var d1 := RunDesk(s, d, run);
      TimelyRun(s, d, run + [h], late) && InTime(run + [h], d.lastSent)
      && Pings(d1, h) && !d1.lamp.dark && d1.lamp.level == 246
  {
    var run, h := SlowTimers(d.lastSent, 6), Input(d.lastSent + ACTIVITY_COALESCE);
    SlowFade(s, d, 6, late);
    SlowTimersInTime(d.lastSent, 6);
    OneHappeningMore(s, d, run, h, d.lastSent, late);
    hide RunDesk, TimelyRun, InTime, ClockOf, SlowTimers;
  }

  lemma {:induction false} SlowTimersInTime(from: int, n: nat)
    ensures InTime(SlowTimers(from, n), from) && ClockOf(SlowTimers(from, n), from) == from + 142_858 * n
  {
    if n > 0 {
      SlowTimersInTime(from, n - 1);
      assert SlowTimers(from, n)[..|SlowTimers(from, n)| - 1] == SlowTimers(from, n - 1);
    }
  }

  /**
   The bound is exact: with timers a microsecond later there is a run from a new desk, every event in
   time, after which a ping finds the lamp not dark and not fully lit either.
  */
  lemma LaterTimersLetPingsInterrupt(s: Settings, slot: Slot, start: int, late: nat)
    requires s.idleTimeout.Some? && Patient(s) && 7 * (FADE_TICK + late) >= ACTIVITY_COALESCE
    ensures var woken := WokenAt(s, start);
      var run, h := Waking(s, start) + SlowTimers(woken, 6), Input(woken + ACTIVITY_COALESCE);
      var d := RunDesk(s, NewDesk(s, slot, start), run);
      InTime(run + [h], start) && TimelyRun(s, NewDesk(s, slot, start), run + [h], late)
      && Pings(d, h) && !d.lamp.dark && d.lamp.level == 246
  {
    var d0, woken := NewDesk(s, slot, start), WokenAt(s, start);
    var before, after, h := Waking(s, start), SlowTimers(woken, 6), Input(woken + ACTIVITY_COALESCE);
    WakingWakes(s, slot, start, late);
    SlowTimersInterrupt(s, RunDesk(s, d0, before), late);
    hide RunDesk, TimelyRun, InTime, Waking, WokenAt, SlowTimers, JustWoken, NewDesk;
    RunInParts(s, d0, before, after, late);
    RunInParts(s, d0, before, after + [h], late);
    InTimeInParts(before, after + [h], start);
    assert before + after + [h] == before + (after + [h]);
  }

  // ---- Starving --------------------------------------------------------------------------

  predicate NoPing(s: Settings, d: Desk, run: seq<Happening>) {
    run != [] ==> NoPing(s, d, run[..|run| - 1]) && !Pings(RunDesk(s, d, run[..|run| - 1]), run[|run| - 1])
  }

  lemma {:induction false} TimerWaitsForItsTurn(s: Settings, d: Desk, run: seq<Happening>)
    requires Armed(d.lamp) && NoPing(s, d, run) && GateStays(s, d, run) && FadeSteps(s, d, run) == 0
    ensures var d1 := RunDesk(s, d, run);
      d1.lamp.fadeTick == d.lamp.fadeTick && d1.lastSent == d.lastSent && Armed(d1.lamp)
  {
    if run != [] {
      var before, h := run[..|run| - 1], run[|run| - 1];
      TimerWaitsForItsTurn(s, d, before);
      StepKeepsArmed(s, RunDesk(s, d, before), h);
      hide Animated;
      AnimationLeavesLevel(Faded(Idled(RunDesk(s, d, before).lamp, h.now), h.now), h.now);
    }
  }

  /**
   With timers less than 960 ms late, pings cannot starve the fade in: between a ping that leaves
   the lamp fading in and the next one, at least one step is taken, so seven pings see it through.
  */
  lemma PingsCannotStarveTheFade(s: Settings, d: Desk, run: seq<Happening>, h: Happening, late: nat)
    requires late < ACTIVITY_COALESCE - FADE_TICK
    requires Armed(d.lamp) && d.lamp.fadeTick == Some(d.lastSent + FADE_TICK)
    requires GateStays(s, d, run) && NoPing(s, d, run) && Pings(RunDesk(s, d, run), h)
    requires Timely(RunDesk(s, d, run).lamp, h.now, late)
    ensures StepsLeft(RunDesk(s, d, run).lamp) < StepsLeft(d.lamp)
  {
    EveryFadeStepCounts(s, d, run);
    hide RunDesk, StepsLeft, GateStays, NoPing, FadeSteps, Armed;
    if FadeSteps(s, d, run) == 0 {
      TimerWaitsForItsTurn(s, d, run);
      TimelyForAll(RunDesk(s, d, run).lamp, h.now, late);
    }
  }

  /** Input once a second, for `n` seconds. */
  function Typing(from: int, n: nat): seq<Happening> {
    if n == 0 then [] else Typing(from, n - 1) + [Input(from + ACTIVITY_COALESCE * n)]
  }

  lemma {:induction false} TypingStarves(s: Settings, d: Desk, n: nat, late: nat)
    requires late >= ACTIVITY_COALESCE - FADE_TICK && Patient(s) && JustWoken(d)
    ensures var run := Typing(d.lastSent, n); var d1 := RunDesk(s, d, run);
      TimelyRun(s, d, run, late) && JustWoken(d1) && d1.lastSent == d.lastSent + ACTIVITY_COALESCE * n
      && InTime(run, d.lastSent) && ClockOf(run, d.lastSent) == d1.lastSent
  {
    if n > 0 {
      TypingStarves(s, d, n - 1, late);
      var run := Typing(d.lastSent, n);
      assert run[..|run| - 1] == Typing(d.lastSent, n - 1);
      WokenAgain(s, RunDesk(s, d, run[..|run| - 1]), late);
      hide JustWoken, StepDesk, Timely;
    }
  }

  /**
   From 960 ms on they can: there is a run from a new desk, every event in time, that ends with `n`
   pings a second apart to a lamp that should be fading in, and the lamp is still black.
  */
  lemma LaterTimersLetPingsStarve(s: Settings, slot: Slot, start: int, n: nat, late: nat)
    requires s.idleTimeout.Some? && Patient(s) && late >= ACTIVITY_COALESCE - FADE_TICK
    ensures var run := Waking(s, start) + Typing(WokenAt(s, start), n);
      var d := RunDesk(s, NewDesk(s, slot, start), run);
      InTime(run, start) && TimelyRun(s, NewDesk(s, slot, start), run, late)
      && d.lastSent == WokenAt(s, start) + ACTIVITY_COALESCE * n && !d.lamp.dark && d.lamp.level == 0
  {
    var d0, before := NewDesk(s, slot, start), Waking(s, start);
    WakingWakes(s, slot, start, late);
    TypingStarves(s, RunDesk(s, d0, before), n, late);
    hide RunDesk, TimelyRun, InTime, Waking, WokenAt, Typing, NewDesk;
    RunInParts(s, d0, before, Typing(WokenAt(s, start), n), late);
    InTimeInParts(before, Typing(WokenAt(s, start), n), start);
  }

  lemma WokenAgain(s: Settings, d: Desk, late: nat)
    requires late >= ACTIVITY_COALESCE - FADE_TICK && Patient(s) && JustWoken(d)
    ensures var h := Input(d.lastSent + ACTIVITY_COALESCE);
      Timely(d.lamp, h.now, late) && JustWoken(StepDesk(s, d, h)) && StepDesk(s, d, h).lastSent == h.now
  {
  }

  // ---- Animations ------------------------------------------------------------------------

  /** How often the animation timer has fired. */
  function Beats(s: Settings, d: Desk, run: seq<Happening>): nat {
    if run == [] then 0
    else
      var before, h := run[..|run| - 1], run[|run| - 1];
      Beats(s, d, before) + (if h.Timer? && Due(RunDesk(s, d, before).lamp.animTick, h.now) then 1 else 0)
  }

  /** The animation `k` beats after a bind at `start`: lit, off, lit, off, then the slot's color for good. */
  function FlashAt(k: nat, start: int): (Anim, Option<int>) {
    if k < 4 then (Flashing(3 - k, k % 2 == 0), Some(start + FLASH * (k + 1))) else (Steady, None)
  }

  function BlinkAt(k: nat, start: int): (Anim, Option<int>) {
    (Pairing(k % 2 == 0), Some(start + BLINK * (k + 1)))
  }

  predicate NothingNoted(run: seq<Happening>) {
    forall h :: h in run ==> !h.Noted?
  }

  lemma BeatStep(s: Settings, d: Desk, h: Happening)
    requires !h.Noted?
    ensures var (l, l1) := (d.lamp, StepDesk(s, d, h).lamp);
      (l1.anim, l1.animTick) ==
      if h.Timer? && Due(l.animTick, h.now) then (Animated(l, h.now).anim, Animated(l, h.now).animTick)
      else (l.anim, l.animTick)
  {
  }

  lemma NextFlash(l: Lamp, k: nat, start: int, now: int)
    requires (l.anim, l.animTick) == FlashAt(k, start) && Due(l.animTick, now)
    ensures (Animated(l, now).anim, Animated(l, now).animTick) == FlashAt(k + 1, start)
  {
  }

  lemma NextBlink(l: Lamp, k: nat, start: int, now: int)
    requires (l.anim, l.animTick) == BlinkAt(k, start) && Due(l.animTick, now)
    ensures (Animated(l, now).anim, Animated(l, now).animTick) == BlinkAt(k + 1, start)
  {
  }

  /** Whatever else happens (switches, input, fades), a bind shows its color exactly twice, 180 ms apart, and ends. */
  lemma {:induction false} BindFlashesTwice(s: Settings, d: Desk, start: int, run: seq<Happening>)
    requires NothingNoted(run)
    ensures var d0 := d.(lamp := Happened(d.lamp, Bound, start));
      var l := RunDesk(s, d0, run).lamp;
      (l.anim, l.animTick) == FlashAt(Beats(s, d0, run), start)
  {
    var d0 := d.(lamp := Happened(d.lamp, Bound, start));
    if run != [] {
      var before, h := run[..|run| - 1], run[|run| - 1];
      assert h in run && forall x :: x in before ==> x in run;
      BindFlashesTwice(s, d, start, before);
      var k := Beats(s, d0, before);
      BeatStep(s, RunDesk(s, d0, before), h);
      hide StepDesk, Happened;
      if h.Timer? && Due(RunDesk(s, d0, before).lamp.animTick, h.now) {
        NextFlash(RunDesk(s, d0, before).lamp, k, start, h.now);
      }
      hide FlashAt, Animated;
    }
  }

  /** An open window blinks at 1 Hz on a schedule that never drifts, whatever else happens. */
  lemma {:induction false} WindowBlinksSteadily(s: Settings, d: Desk, start: int, run: seq<Happening>)
    requires NothingNoted(run)
    ensures var d0 := d.(lamp := Happened(d.lamp, PairingOpen, start));
      var l := RunDesk(s, d0, run).lamp;
      (l.anim, l.animTick) == BlinkAt(Beats(s, d0, run), start)
  {
    var d0 := d.(lamp := Happened(d.lamp, PairingOpen, start));
    if run != [] {
      var before, h := run[..|run| - 1], run[|run| - 1];
      assert h in run && forall x :: x in before ==> x in run;
      WindowBlinksSteadily(s, d, start, before);
      var k := Beats(s, d0, before);
      BeatStep(s, RunDesk(s, d0, before), h);
      hide StepDesk, Happened;
      if h.Timer? && Due(RunDesk(s, d0, before).lamp.animTick, h.now) {
        NextBlink(RunDesk(s, d0, before).lamp, k, start, h.now);
      }
      hide BlinkAt, Animated;
    }
  }

  /**
   At full level the frame is the animation's own; at level 0 it is black whatever runs behind;
   brightness never changes.
  */
  lemma GateMasksTheAnimation(s: Settings, l: Lamp)
    ensures l.level == 255 ==> Shown(s, l) == Rendered(s, l)
    ensures l.level == 0 ==> Shown(s, l).color == OFF
    ensures Shown(s, l).brightness == s.SlotBrightness(l.slot)
  {
    DimIsAFade(Rendered(s, l).color, l.level, 255);
    hide Dim, Settings.SlotColor;
  }

  /** With nobody away, a bind shows its own color, off, its color, off, and then the slot's color again. */
  lemma BindShowsItsColor(s: Settings, d: Desk, start: int, run: seq<Happening>)
    requires NothingNoted(run)
    ensures var d0 := d.(lamp := Happened(d.lamp, Bound, start));
      var l, k := RunDesk(s, d0, run).lamp, Beats(s, d0, run);
      l.level == 255 ==>
        Shown(s, l).color == if k == 0 || k == 2 then s.boundColor
                             else if k == 1 || k == 3 then OFF
                             else s.SlotColor(l.slot)
  {
    BindFlashesTwice(s, d, start, run);
    GateMasksTheAnimation(s, RunDesk(s, d.(lamp := Happened(d.lamp, Bound, start)), run).lamp);
    hide RunDesk, Beats, Dim, Settings.SlotColor;
  }

  /** And an open window its own color and off by turns. */
  lemma WindowShowsItsColor(s: Settings, d: Desk, start: int, run: seq<Happening>)
    requires NothingNoted(run)
    ensures var d0 := d.(lamp := Happened(d.lamp, PairingOpen, start));
      var l, k := RunDesk(s, d0, run).lamp, Beats(s, d0, run);
      l.level == 255 ==> Shown(s, l).color == if k % 2 == 0 then s.pairingColor else OFF
  {
    WindowBlinksSteadily(s, d, start, run);
    GateMasksTheAnimation(s, RunDesk(s, d.(lamp := Happened(d.lamp, PairingOpen, start)), run).lamp);
    hide RunDesk, Beats, Dim, Settings.SlotColor;
  }

  /** A window that closes ends its blinking and nothing else; a lamp without animation shows the slot's color. */
  lemma ClosingEndsTheBlinking(s: Settings, l: Lamp, now: int)
    ensures var closed := Happened(l, PairingClosed, now);
      !closed.anim.Pairing? && (!l.anim.Pairing? ==> closed == l)
      && (l.anim.Pairing? && l.level == 255 ==> Shown(s, closed).color == s.SlotColor(l.slot))
  {
    GateMasksTheAnimation(s, Happened(l, PairingClosed, now));
    hide Dim, Settings.SlotColor;
  }

  /** The hub has its color, a slot its own if it has one, and the others take the palette in order from slot 2 on. */
  lemma SlotsTakeThePalette(s: Settings, slot: Slot)
    ensures s.SlotColor(LOCAL_SLOT) == s.localColor
    ensures slot != LOCAL_SLOT && slot in s.colors ==> s.SlotColor(slot) == s.colors[slot]
    ensures slot >= 2 && slot !in s.colors ==>
      (s.palette == [] ==> s.SlotColor(slot) == s.localColor)
      && (slot - 2 < |s.palette| ==> s.SlotColor(slot) == s.palette[slot - 2])
  {
    if slot >= 2 && slot !in s.colors && s.palette != [] {
      FromThePalette(s, slot);
      SmallRemainder(slot - 2, |s.palette|);
    }
    assert slot >= 2 && slot !in s.colors && s.palette == [] ==> s.SlotColor(slot) == s.localColor;
    hide Settings.SlotColor;
  }

  lemma FromThePalette(s: Settings, slot: Slot)
    requires slot >= 2 && slot !in s.colors && s.palette != []
    ensures s.SlotColor(slot) == s.palette[(slot - 2) % |s.palette|]
  {
  }

  lemma SmallRemainder(a: nat, n: nat)
    requires n > 0
    ensures a < n ==> a % n == a
  {
  }

  /** Likewise a slot has its own brightness if it has one. */
  lemma SlotsHaveTheirBrightness(s: Settings, l: Lamp)
    ensures Shown(s, l).brightness ==
      if l.slot in s.brightnesses then s.brightnesses[l.slot] else s.brightness
  {
    GateMasksTheAnimation(s, l);
    hide Shown;
  }

  /** Past its end the palette starts over. */
  lemma ThePaletteRepeats(s: Settings, slot: Slot)
    requires slot - 2 >= |s.palette| > 0 && slot !in s.colors && slot - |s.palette| !in s.colors
    ensures s.SlotColor(slot) == s.SlotColor(slot - |s.palette|)
  {
    OneRoundLess(slot - 2, |s.palette|);
  }

  lemma OneRoundLess(a: nat, n: nat)
    requires a >= n > 0
    ensures a % n == (a - n) % n
  {
    SameRemainder(n, a / n - 1, a % n, (a - n) / n, (a - n) % n);
  }

  lemma SameRemainder(n: nat, q: int, r: nat, p: int, t: nat)
    requires r < n && t < n && q * n + r == p * n + t
    ensures r == t
  {
    NoMultipleBetween(n, q - p, t - r, q * n, p * n);
  }

  lemma NoMultipleBetween(n: int, d: int, rest: int, whole: int, part: int)
    requires -n < rest < n && rest == whole - part && whole - part == d * n
    ensures rest == 0
  {
    MultiplesAreFar(n, d);
  }

  lemma MultiplesAreFar(n: int, d: int)
    requires n > 0
    ensures d >= 1 ==> d * n >= n
    ensures d <= -1 ==> d * n <= -n
  {
    if d >= 1 {
      assert d * n == n + (d - 1) * n;
    } else if d <= -1 {
      assert d * n == -n + (d + 1) * n;
    }
  }
}
