/** Properties of the session state machine across several operations: the invariant
    every operation keeps, the pause/resume round trip, the two ways the 600 ms gap
    escapes pause and stop, the dead end a resume leads into, and the schedule of a
    whole uninterrupted session, ticks included. */
module SessionLemmas {
  import opened Phases
  import opened Countdown
  import opened SessionSpec

  /** Handles are never reused, and the session is only paused while it runs. */
  ghost predicate Valid(s: Session)
  {
    (s.paused ==> s.running) &&
    (forall h :: h in s.timers ==> h < s.nextHandle) &&
    (s.phaseTimeout.Some? ==> s.phaseTimeout.value < s.nextHandle) &&
    (s.intervalTimer.Some? ==> s.intervalTimer.value < s.nextHandle)
  }

  lemma InitialValid(ui: Display)
    ensures Valid(Initial(ui))
  {
  }

  /** Every operation and every timer callback keeps `Valid`. */
  lemma StartValid(s: Session, st: Settings, count: int)
    requires Valid(s)
    ensures Valid(Start(s, st, count))
  {
  }

  lemma PauseValid(s: Session)
    requires Valid(s)
    ensures Valid(Pause(s))
  {
  }

  lemma ResumeValid(s: Session)
    requires Valid(s)
    ensures Valid(Resume(s))
  {
  }

  lemma StopValid(s: Session)
    requires Valid(s)
    ensures Valid(Stop(s))
  {
  }

  lemma KeyDownValid(s: Session, code: string, st: Settings, count: int)
    requires Valid(s)
    ensures Valid(KeyDown(s, code, st, count))
  {
    StartValid(s, st, count);
    PauseValid(s);
    ResumeValid(s);
  }

  lemma FireValid(s: Session, h: nat, st: Settings)
    requires Valid(s)
    ensures Valid(Fire(s, h, st))
  {
    if h in s.timers {
      match s.timers[h]
      case Interval =>
      case PhaseEnd(phases, index, _) =>
        assert Valid(EndTimer(s, h));
      case ResumeEnd(_) =>
        assert Valid(EndTimer(s, h));
      case CycleGap(_) =>
        assert Valid(s.(timers := s.timers - {h}));
    }
  }

  /** Starting twice in a row is the same as starting once. */
  lemma StartIdempotent(s: Session, st: Settings, count: int)
    ensures Start(Start(s, st, count), st, count) == Start(s, st, count)
  {
  }

  /** Pausing and resuming keeps the phase, the remaining time and the cycles, and the
      phase goes on for exactly the time it had left. */
  lemma PauseResumeRoundTrip(s: Session)
    requires s.running && !s.paused
    ensures var r := Resume(Pause(s));
      r.running && !r.paused &&
      r.currentPhase == s.currentPhase && r.remaining == s.remaining && r.cyclesLeft == s.cyclesLeft &&
      Live(r, r.phaseTimeout) && r.timers[r.phaseTimeout.value] == ResumeEnd(s.remaining) &&
      r.ui.transitionMs == s.remaining
  {
  }

  // ---- any sequence of operations ---------------------------------------------

  /** One thing that can happen to the page: a button click, a key press, or the
      browser running the callback of timer `h`. */
  datatype Op =
    | StartButton(count: int)
    | PauseButton
    | ResetButton
    | Key(code: string, count: int)
    | TimerFires(h: nat)

  /** The effect of one operation, with the duration inputs holding `st` at that moment:
      the start button starts unless running, the pause button pauses or resumes, the
      reset button stops, a key goes to the keydown listener, and a timer runs its callback. */
  function Apply(s: Session, op: Op, st: Settings): (r: Session)
    ensures op.StartButton? && !s.running ==> r.running && !r.paused && r.cyclesLeft == Max(1, op.count)
    ensures op.StartButton? && s.running ==> r == s
    ensures op.PauseButton? && s.running && !s.paused ==> r.paused && r.remaining == s.remaining
    ensures op.PauseButton? && s.running && s.paused ==> !r.paused && r.remaining == s.remaining
    ensures op.ResetButton? ==> !r.running && !r.paused && r.ui.phaseText == "Ready"
    ensures op.Key? && op.code != "Space" ==> r == s
    ensures op.TimerFires? && op.h !in s.timers ==> r == s
  {
    match op
    case StartButton(count) => StartClick(s, st, count)
    case PauseButton => PauseClick(s)
    case ResetButton => Stop(s)
    case Key(code, count) => KeyDown(s, code, st, count)
    case TimerFires(h) => Fire(s, h, st)
  }

  /** The operations of `steps`, in order, each paired with what the duration inputs
      hold when it happens: the sliders may move between any two operations. */
  function ApplyAll(s: Session, steps: seq<(Op, Settings)>): (r: Session)
  {
    if steps == [] then s
    else
      var last := steps[|steps| - 1];
      Apply(ApplyAll(s, steps[..|steps| - 1]), last.0, last.1)
  }

  lemma ApplyValid(s: Session, op: Op, st: Settings)
    requires Valid(s)
    ensures Valid(Apply(s, op, st))
  {
    match op
    case StartButton(count) => StartValid(s, st, count);
    case PauseButton => PauseValid(s); ResumeValid(s);
    case ResetButton => StopValid(s);
    case Key(code, count) => KeyDownValid(s, code, st, count);
    case TimerFires(h) => FireValid(s, h, st);
  }

  /** Every state the page can reach satisfies `Valid`: in particular every pending
      handle is below the next one, so the handles a new timer gets are fresh. */
  lemma {:induction false} ReachableValid(ui: Display, steps: seq<(Op, Settings)>)
    ensures Valid(ApplyAll(Initial(ui), steps))
  {
    if steps == [] {
      InitialValid(ui);
    } else {
      var last := steps[|steps| - 1];
      ReachableValid(ui, steps[..|steps| - 1]);
      ApplyValid(ApplyAll(Initial(ui), steps[..|steps| - 1]), last.0, last.1);
    }
  }

  /** The phase list a pending timer walks through: a phase timer's list, otherwise none. */
  function TimerPhases(t: Timer): (r: seq<Phase>)
    ensures t.PhaseEnd? ==> r == t.phases
  {
    if t.PhaseEnd? then t.phases else []
  }

  /** No hold is under way, and no pending phase timer belongs to a list with a hold. */
  ghost predicate NoHold(s: Session)
  {
    s.currentPhase != Some(Hold) &&
    forall h :: h in s.timers ==> Hold !in Names(TimerPhases(s.timers[h]))
  }

  lemma EnterPhaseNoHold(s: Session, phases: seq<Phase>, index: nat)
    requires index < |phases| && NoHold(s) && Hold !in Names(phases)
    ensures EnterPhase(s, phases, index).currentPhase != Some(Hold)
    ensures var r := EnterPhase(s, phases, index);
      forall h :: h in r.timers ==> Hold !in Names(TimerPhases(r.timers[h]))
  {
    assert Names(phases)[index] == phases[index].name;
    assert Names([]) == [];
  }

  lemma RunCycleNoHold(s: Session, st: Settings)
    requires NoHold(s) && st.hold <= 0
    ensures NoHold(RunCycle(s, st))
  {
    if s.cyclesLeft > 0 {
      EnterPhaseNoHold(s, GetPhases(st), 0);
    }
  }

  /** Removing pending timers, and changing nothing but the timers and the display,
      keeps `NoHold`. */
  lemma FewerTimersNoHold(s: Session, r: Session)
    requires NoHold(s) && r.currentPhase == s.currentPhase
    requires forall h :: h in r.timers ==> h in s.timers && r.timers[h] == s.timers[h]
    ensures NoHold(r)
  {
  }

  lemma CompleteCycleNoHold(s: Session)
    requires NoHold(s)
    ensures NoHold(CompleteCycle(s))
  {
    assert Names([]) == [];
  }

  lemma PhaseEndNoHold(s: Session, h: nat, st: Settings)
    requires NoHold(s) && h in s.timers && s.timers[h].PhaseEnd?
    ensures NoHold(Fire(s, h, st))
  {
    var t := s.timers[h];
    var e := EndTimer(s, h);
    FewerTimersNoHold(s, e);
    assert Hold !in Names(t.phases) by {
      assert TimerPhases(t) == t.phases;
    }
    if t.index + 1 < |t.phases| {
      EnterPhaseNoHold(e, t.phases, t.index + 1);
    } else {
      CompleteCycleNoHold(e);
    }
  }

  lemma ResumeEndNoHold(s: Session, h: nat, st: Settings)
    requires NoHold(s) && st.hold <= 0 && h in s.timers && s.timers[h].ResumeEnd?
    ensures NoHold(Fire(s, h, st))
  {
    var e := EndTimer(s, h);
    FewerTimersNoHold(s, e);
    RunCycleNoHold(e, st);
  }

  lemma CycleGapNoHold(s: Session, h: nat, st: Settings)
    requires NoHold(s) && st.hold <= 0 && h in s.timers && s.timers[h].CycleGap?
    ensures NoHold(Fire(s, h, st))
  {
    var e := s.(timers := s.timers - {h});
    FewerTimersNoHold(s, e);
    RunCycleNoHold(e, st);
  }

  lemma FireNoHold(s: Session, h: nat, st: Settings)
    requires NoHold(s) && st.hold <= 0
    ensures NoHold(Fire(s, h, st))
  {
    if h in s.timers {
      match s.timers[h]
      case Interval =>
      case PhaseEnd(_, _, _) => PhaseEndNoHold(s, h, st);
      case ResumeEnd(_) => ResumeEndNoHold(s, h, st);
      case CycleGap(_) => CycleGapNoHold(s, h, st);
    }
  }

  lemma ApplyNoHold(s: Session, op: Op, st: Settings)
    requires NoHold(s) && st.hold <= 0
    ensures NoHold(Apply(s, op, st))
  {
    match op
    case StartButton(count) =>
      if !s.running {
        RunCycleNoHold(s.(running := true, paused := false, cyclesLeft := Max(1, count),
                          ui := s.ui.(startDisabled := true, pauseDisabled := false, resetDisabled := false)), st);
      }
    case PauseButton =>
    case ResetButton =>
    case Key(code, count) =>
      if code == "Space" && !s.running {
        RunCycleNoHold(s.(running := true, paused := false, cyclesLeft := Max(1, count),
                          ui := s.ui.(startDisabled := true, pauseDisabled := false, resetDisabled := false)), st);
      }
    case TimerFires(h) => FireNoHold(s, h, st);
  }

  /** While the hold input stays at zero or below, the page never enters hold, whatever
      is clicked, pressed or fired, in whatever order, and however the other two
      inputs move. */
  lemma {:induction false} NoHoldWhenZero(ui: Display, steps: seq<(Op, Settings)>)
    requires forall k :: 0 <= k < |steps| ==> steps[k].1.hold <= 0
    ensures ApplyAll(Initial(ui), steps).currentPhase != Some(Hold)
    ensures NoHold(ApplyAll(Initial(ui), steps))
  {
    if steps != [] {
      var prefix, last := steps[..|steps| - 1], steps[|steps| - 1];
      assert forall k :: 0 <= k < |prefix| ==> prefix[k] == steps[k];
      NoHoldWhenZero(ui, prefix);
      ApplyNoHold(ApplyAll(Initial(ui), prefix), last.0, last.1);
    }
  }

  /** The resumed phase's timer starts a cycle when it fires on a session that is no
      longer running: a timer orphaned by a resume during the gap, fired after a stop,
      enters inhale on the stopped session. */
  lemma OrphanedResumeEndStartsCycle(s: Session, h: nat, st: Settings)
    requires h in s.timers && s.timers[h].ResumeEnd? && !s.running && s.cyclesLeft > 0
    ensures var r := Fire(s, h, st);
      !r.running && r.currentPhase == Some(Inhale) && Live(r, r.phaseTimeout) &&
      r.timers[r.phaseTimeout.value] == PhaseEnd(GetPhases(st), 0, st.inhale * MS_PER_SECOND)
  {
  }

  // ---- an uninterrupted session ----------------------------------------------

  /** The session is in phase `i` of `phases`, as `runPhasesSequentially` left it,
      after any number of ticks: the only pending timers are its tick and its timer
      for the whole phase, the two newest handles. */
  ghost predicate InPhase(s: Session, phases: seq<Phase>, i: nat)
  {
    i < |phases| && s.running && !s.paused && s.nextHandle >= 2 &&
    s.currentPhase == Some(phases[i].name) &&
    s.intervalTimer == Some(s.nextHandle - 2) && s.phaseTimeout == Some(s.nextHandle - 1) &&
    s.timers == map[s.nextHandle - 2 := Interval,
                    s.nextHandle - 1 := PhaseEnd(phases, i, phases[i].seconds * MS_PER_SECOND)]
  }

  /** The session waits out the 600 ms between cycles: the gap timer, the newest
      handle, is the only pending timer. */
  ghost predicate InGap(s: Session, phases: seq<Phase>)
  {
    |phases| > 0 && s.currentPhase == Some(phases[|phases| - 1].name) &&
    s.running && !s.paused && s.nextHandle >= 1 && s.timers == map[s.nextHandle - 1 := CycleGap(GAP_MS)] &&
    s.phaseTimeout != Some(s.nextHandle - 1) && s.intervalTimer != Some(s.nextHandle - 1)
  }

  /** What the browser does next in a session that nobody pauses or stops: the tick
      held in `intervalTimer` fires, or the timer created last does (the phase timer
      or the gap). Any interleaving of the two is allowed. */
  datatype Event = TickFires | LatestFires

  function FireLatest(s: Session, st: Settings): (r: Session)
  {
    if s.nextHandle == 0 then s else Fire(s, s.nextHandle - 1, st)
  }

  function Step(s: Session, e: Event, st: Settings): (r: Session)
  {
    match e
    case TickFires => if s.intervalTimer.Some? then Fire(s, s.intervalTimer.value, st) else s
    case LatestFires => FireLatest(s, st)
  }

  /** The events of `es`, in order, with the duration inputs left at `st`. */
  function Run(s: Session, st: Settings, es: seq<Event>): (r: Session)
  {
    if es == [] then s else Step(Run(s, st, es[..|es| - 1]), es[|es| - 1], st)
  }

  /** How many of the events move the session on. */
  function LatestCount(es: seq<Event>): (n: nat)
    ensures n <= |es|
  {
    if es == [] then 0 else LatestCount(es[..|es| - 1]) + (if es[|es| - 1] == LatestFires then 1 else 0)
  }

  /** A tick in a phase takes 100 ms off the time left and leaves the phase as it is. */
  lemma TickInPhase(s: Session, phases: seq<Phase>, i: nat, st: Settings)
    requires InPhase(s, phases, i)
    ensures var r := Step(s, TickFires, st);
      InPhase(r, phases, i) && r.cyclesLeft == s.cyclesLeft &&
      r.remaining == TickDown(s.remaining) && r.ui.countdown == CeilSeconds(r.remaining)
  {
  }

  /** During the gap the tick held in `intervalTimer` was cancelled: nothing happens. */
  lemma TickInGap(s: Session, phases: seq<Phase>, st: Settings)
    requires InGap(s, phases)
    ensures Step(s, TickFires, st) == s
  {
  }

  /** Entering a phase of a running session that has no timer pending puts it in that phase. */
  lemma EnterPhaseInPhase(e: Session, phases: seq<Phase>, j: nat)
    requires j < |phases| && e.running && !e.paused && e.timers == map[]
    ensures InPhase(EnterPhase(e, phases, j), phases, j)
  {
    var r := EnterPhase(e, phases, j);
    assert r.timers == map[e.nextHandle := Interval, e.nextHandle + 1 := PhaseEnd(phases, j, r.remaining)];
  }

  /** The phase timer of phase `i` fires: the tick is cancelled and the next phase, or
      the end of the cycle, follows. */
  lemma FirePhaseEnd(s: Session, phases: seq<Phase>, i: nat, st: Settings)
    requires InPhase(s, phases, i)
    ensures var e := EndTimer(s, s.nextHandle - 1);
      e.timers == map[] && e.running && !e.paused && e.cyclesLeft == s.cyclesLeft &&
      FireLatest(s, st) == RunPhases(e, phases, i + 1)
  {
    var h := s.nextHandle - 1;
    assert s.timers[h] == PhaseEnd(phases, i, phases[i].seconds * MS_PER_SECOND);
    assert (s.timers - {h}) - {h - 1} == map[];
  }

  lemma StepWithinCycle(s: Session, phases: seq<Phase>, i: nat, st: Settings)
    requires InPhase(s, phases, i) && i + 1 < |phases|
    ensures InPhase(FireLatest(s, st), phases, i + 1)
    ensures FireLatest(s, st).cyclesLeft == s.cyclesLeft
    ensures FireLatest(s, st).remaining == phases[i + 1].seconds * MS_PER_SECOND
    ensures FireLatest(s, st).ui.countdown == CeilSeconds(phases[i + 1].seconds * MS_PER_SECOND)
  {
    FirePhaseEnd(s, phases, i, st);
    EnterPhaseInPhase(EndTimer(s, s.nextHandle - 1), phases, i + 1);
  }

  lemma StepEndOfCycle(s: Session, phases: seq<Phase>, st: Settings)
    requires |phases| > 0 && InPhase(s, phases, |phases| - 1)
    ensures InGap(FireLatest(s, st), phases)
    ensures FireLatest(s, st).cyclesLeft == s.cyclesLeft - 1
    ensures FireLatest(s, st).currentPhase == s.currentPhase
    ensures FireLatest(s, st).ui.countdown == 0
  {
    FirePhaseEnd(s, phases, |phases| - 1, st);
  }

  lemma StepGap(s: Session, phases: seq<Phase>, st: Settings)
    requires InGap(s, phases)
    ensures s.cyclesLeft > 0 ==> InPhase(FireLatest(s, st), GetPhases(st), 0)
    ensures s.cyclesLeft <= 0 ==> Finished(FireLatest(s, st))
    ensures FireLatest(s, st).cyclesLeft == s.cyclesLeft
  {
    assert (s.timers - {s.nextHandle - 1}) == map[];
  }

  /** Starting an idle session with no timer pending puts it in the first phase. */
  lemma StartInPhase(s0: Session, st: Settings, count: int)
    requires !s0.running && s0.timers == map[]
    ensures InPhase(Start(s0, st, count), GetPhases(st), 0)
    ensures Start(s0, st, count).cyclesLeft == Max(1, count)
  {
    var begun := s0.(running := true, paused := false, cyclesLeft := Max(1, count),
                     ui := s0.ui.(startDisabled := true, pauseDisabled := false, resetDisabled := false));
    assert Start(s0, st, count) == EnterPhase(begun, GetPhases(st), 0);
    EnterPhaseInPhase(begun, GetPhases(st), 0);
  }

  /** The number of phase-advancing firings one cycle takes: one per phase, and one
      for the gap. */
  function CycleLength(st: Settings): (r: nat)
  {
    |GetPhases(st)| + 1
  }

  /** Where cycle `c` (counting from 0) of `n` stands at position `i`: in phase `i`, or,
      for `i == |phases|`, in the gap after the cycle. */
  ghost predicate Scheduled(s: Session, phases: seq<Phase>, n: int, c: nat, i: nat)
  {
    if i < |phases| then InPhase(s, phases, i) && s.cyclesLeft == n - c
    else InGap(s, phases) && s.cyclesLeft == n - c - 1
  }

  /** The session is over: not running, no phase, "Done" shown and no timer pending. */
  ghost predicate Finished(s: Session)
  {
    !s.running && !s.paused && s.currentPhase == None && s.ui.phaseText == "Done" && s.timers == map[]
  }

  lemma TickStep(s: Session, phases: seq<Phase>, st: Settings, n: int, c: nat, i: nat)
    requires Scheduled(s, phases, n, c, i)
    ensures Scheduled(Step(s, TickFires, st), phases, n, c, i)
  {
    if i < |phases| {
      TickInPhase(s, phases, i, st);
    } else {
      TickInGap(s, phases, st);
    }
  }

  lemma LatestStep(s: Session, phases: seq<Phase>, st: Settings, n: int, c: nat, i: nat)
    requires phases == GetPhases(st) && i <= |phases| && Scheduled(s, phases, n, c, i)
    requires i < |phases| || c + 1 < n
    ensures i < |phases| ==> Scheduled(Step(s, LatestFires, st), phases, n, c, i + 1)
    ensures i == |phases| ==> Scheduled(Step(s, LatestFires, st), phases, n, c + 1, 0)
  {
    if i + 1 < |phases| {
      StepWithinCycle(s, phases, i, st);
    } else if i + 1 == |phases| {
      StepEndOfCycle(s, phases, st);
    } else {
      StepGap(s, phases, st);
    }
  }

  lemma MulStep(c: nat, len: nat)
    requires c > 0
    ensures (c - 1) * len + len == c * len
  {
  }

  lemma ZeroProduct(c: nat, len: nat)
    requires len > 0 && c * len == 0
    ensures c == 0
  {
  }

  /** From the first phase of a cycle with `n` cycles to go, through any interleaving of
      ticks and phase-advancing firings: once `c * (|phases| + 1) + i` of the latter have
      happened, cycle `c` (counting from 0) is in phase `i`, or, for `i == |phases|`, in
      the gap after it. */
  lemma {:induction false} RunSchedule(start: Session, phases: seq<Phase>, st: Settings, n: int,
                                       es: seq<Event>, c: nat, i: nat)
    requires phases == GetPhases(st)
    requires InPhase(start, phases, 0) && start.cyclesLeft == n
    requires c < n && i <= |phases| && LatestCount(es) == c * (|phases| + 1) + i
    ensures Scheduled(Run(start, st, es), phases, n, c, i)
    decreases |es|
  {
    if es == [] {
      ZeroProduct(c, |phases| + 1);
    } else {
      var prefix, e := es[..|es| - 1], es[|es| - 1];
      var prev := Run(start, st, prefix);
      if e == TickFires {
        RunSchedule(start, phases, st, n, prefix, c, i);
        TickStep(prev, phases, st, n, c, i);
      } else if i > 0 {
        RunSchedule(start, phases, st, n, prefix, c, i - 1);
        LatestStep(prev, phases, st, n, c, i - 1);
      } else {
        MulStep(c, |phases| + 1);
        RunSchedule(start, phases, st, n, prefix, c - 1, |phases|);
        LatestStep(prev, phases, st, n, c - 1, |phases|);
      }
    }
  }

  lemma PositiveProduct(n: int, len: nat)
    requires n >= 1 && len >= 1
    ensures n * len >= 1 && (n - 1) * len + len - 1 == n * len - 1
  {
  }

  /** Once `n * (|phases| + 1)` phase-advancing firings have happened, interleaved with
      any ticks, the session is over, and further events change nothing. */
  lemma {:induction false} RunFinishes(start: Session, phases: seq<Phase>, st: Settings, n: int, es: seq<Event>)
    requires phases == GetPhases(st)
    requires InPhase(start, phases, 0) && start.cyclesLeft == n && n >= 1
    requires LatestCount(es) >= n * (|phases| + 1)
    ensures Finished(Run(start, st, es)) && Run(start, st, es).cyclesLeft == 0
    decreases |es|
  {
    PositiveProduct(n, |phases| + 1);
    var prefix, e := es[..|es| - 1], es[|es| - 1];
    var prev := Run(start, st, prefix);
    if LatestCount(prefix) >= n * (|phases| + 1) {
      RunFinishes(start, phases, st, n, prefix);
    } else {
      RunSchedule(start, phases, st, n, prefix, n - 1, |phases|);
      StepGap(prev, phases, st);
    }
  }

  /** The whole schedule of a session that nobody pauses or stops, with its ticks
      interleaved in any way: once `c * CycleLength(st) + i` phase-advancing firings
      have happened, cycle `c` (counting from 0) is in phase `i` of the cycle's phase
      list, or, for `i == |GetPhases(st)|`, in the gap after it, and the cycles still to
      go are counted down once per completed cycle. */
  lemma SessionSchedule(s0: Session, st: Settings, count: int, es: seq<Event>, c: nat, i: nat)
    requires !s0.running && s0.timers == map[]
    requires c < Max(1, count) && i <= |GetPhases(st)| && LatestCount(es) == c * CycleLength(st) + i
    ensures var s := Run(Start(s0, st, count), st, es);
      (i < |GetPhases(st)| ==> InPhase(s, GetPhases(st), i) && s.cyclesLeft == Max(1, count) - c) &&
      (i == |GetPhases(st)| ==> InGap(s, GetPhases(st)) && s.cyclesLeft == Max(1, count) - c - 1)
  {
    StartInPhase(s0, st, count);
    RunSchedule(Start(s0, st, count), GetPhases(st), st, Max(1, count), es, c, i);
  }

  /** The session ends after its last cycle and gap, whatever the ticks did: not
      running, no phase, "Done" shown, no cycle left and no timer pending. */
  lemma SessionFinishes(s0: Session, st: Settings, count: int, es: seq<Event>)
    requires !s0.running && s0.timers == map[]
    requires LatestCount(es) >= Max(1, count) * CycleLength(st)
    ensures var s := Run(Start(s0, st, count), st, es);
      !s.running && !s.paused && s.currentPhase == None && s.ui.phaseText == "Done" &&
      s.cyclesLeft == 0 && s.timers == map[]
  {
    StartInPhase(s0, st, count);
    RunFinishes(Start(s0, st, count), GetPhases(st), st, Max(1, count), es);
  }

  // ---- how the source departs from an orderly pause, resume and stop ---------

  /** After a pause and resume in a phase, with any ticks before the pause, the resumed
      phase ends but the session goes no further: the resumed phase's end runs
      `runCycle` only when the session is not running, so the session stays running
      with no timer pending, and nothing will ever fire again. */
  lemma ResumeDoesNotAdvance(s: Session, phases: seq<Phase>, i: nat, st: Settings)
    requires InPhase(s, phases, i)
    ensures var r := Resume(Pause(s));
      Live(r, r.phaseTimeout) &&
      var f := Fire(r, r.phaseTimeout.value, st);
      f.running && !f.paused && f.timers == map[] &&
      f.currentPhase == s.currentPhase && f.cyclesLeft == s.cyclesLeft && f.ui.countdown == 0 &&
      forall h :: Fire(f, h, st) == f
  {
    var p := Pause(s);
    assert p.timers == map[];
    var r := Resume(p);
    var f := Fire(r, r.phaseTimeout.value, st);
    assert EndTimer(r, r.phaseTimeout.value).timers == map[];
  }

  /** Pausing during the gap does not stop the next cycle: the gap timer is not
      cancelled, and when it fires the next cycle's inhale starts with its tick and
      phase timer pending while the session still counts as paused. */
  lemma PauseDuringGapStartsNextCycle(s: Session, phases: seq<Phase>, st: Settings)
    requires InGap(s, phases) && s.cyclesLeft > 0
    ensures var p := Pause(s);
      p.paused && s.nextHandle - 1 in p.timers &&
      var g := Fire(p, s.nextHandle - 1, st);
      g.running && g.paused && g.currentPhase == Some(Inhale) &&
      Live(g, g.phaseTimeout) && Live(g, g.intervalTimer) &&
      g.timers[g.phaseTimeout.value] == PhaseEnd(GetPhases(st), 0, st.inhale * MS_PER_SECOND)
  {
  }

  /** Stopping during the gap does not stop the next cycle either: the gap timer
      fires after the stop and starts inhale on a session that is not running. */
  lemma StopDuringGapStartsNextCycle(s: Session, phases: seq<Phase>, st: Settings)
    requires InGap(s, phases) && s.cyclesLeft > 0
    ensures var p := Stop(s);
      s.nextHandle - 1 in p.timers &&
      var g := Fire(p, s.nextHandle - 1, st);
      !g.running && g.currentPhase == Some(Inhale) && Live(g, g.phaseTimeout) && Live(g, g.intervalTimer)
  {
  }

  /** Stopping during the last gap still ends in "Done" once the gap timer fires. */
  lemma StopDuringLastGapShowsDone(s: Session, phases: seq<Phase>, st: Settings)
    requires InGap(s, phases) && s.cyclesLeft <= 0
    ensures var p := Stop(s);
      p.ui.phaseText == "Ready" && s.nextHandle - 1 in p.timers &&
      Fire(p, s.nextHandle - 1, st).ui.phaseText == "Done"
  {
  }
}
