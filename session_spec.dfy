/** The session state machine of script.js as functions on a state value.
    A `Session` holds the module-level variables of the script (`running`, `paused`,
    `currentPhase`, `remaining`, `cyclesLeft`, and the last handles stored in
    `phaseTimeout` and `intervalTimer`), the browser's table of pending timers, and
    the page elements the script writes to. Each function here is one operation of the
    script; the class in module Sequencer performs them in place. */
module SessionSpec {
  import opened Phases
  import opened Countdown

  datatype Option<T> = None | Some(value: T)

  /** Delay of the pause between cycles, in milliseconds. */
  const GAP_MS := 600

  /** What a pending timer does when it fires: the callback the script handed to
      `setInterval` or `setTimeout`, with what that callback captured. */
  datatype Timer =
    | Interval                                          // the 100 ms countdown tick
    | PhaseEnd(phases: seq<Phase>, index: nat, ms: int) // end of phases[index] in runPhasesSequentially
    | ResumeEnd(ms: int)                                // end of a resumed phase in resumePhase
    | CycleGap(ms: int)                                 // the wait of GAP_MS before the next runCycle

  /** The page elements the script writes: the phase label, the countdown (kept as the
      whole seconds last written to it; the element shows `FormatCountdown` of that
      number), the ring's transition duration and the three buttons. */
  datatype Display = Display(
    phaseText: string,
    countdown: int,
    transitionMs: int,
    startDisabled: bool,
    pauseDisabled: bool,
    resetDisabled: bool,
    pauseText: string)

  datatype Session = Session(
    running: bool,
    paused: bool,
    currentPhase: Option<PhaseName>,
    remaining: int,
    cyclesLeft: int,
    phaseTimeout: Option<nat>,
    intervalTimer: Option<nat>,
    timers: map<nat, Timer>,
    nextHandle: nat,
    ui: Display)

  /** The text the countdown element shows. */
  function CountdownText(d: Display): (r: string)
  {
    FormatCountdown(d.countdown)
  }

  function Max(a: int, b: int): (r: int) { if a < b then b else a }

  /** The page before any operation: the script's initial variable values and
      whatever the markup shows. */
  function Initial(ui: Display): (r: Session)
    ensures !r.running && !r.paused && r.currentPhase == None
    ensures r.remaining == 0 && r.cyclesLeft == 0 && r.timers == map[]
  {
    Session(false, false, None, 0, 0, None, None, map[], 1, ui)
  }

  // ---- timers -------------------------------------------------------------

  /** The timer a handle refers to is still pending. */
  predicate Live(s: Session, h: Option<nat>)
  {
    h.Some? && h.value in s.timers
  }

  /** `clearTimeout(h)` / `clearInterval(h)`: a null or already finished handle is ignored. */
  function Cancel(timers: map<nat, Timer>, h: Option<nat>): (r: map<nat, Timer>)
    ensures h.Some? ==> h.value !in r
    ensures h.Some? ==> r == timers - {h.value}
    ensures h.None? ==> r == timers
  {
    if h.Some? then timers - {h.value} else timers
  }

  /** `setInterval` / `setTimeout`: registers the callback under the next handle. */
  function SetTimer(s: Session, t: Timer): (r: Session)
    ensures r.timers == s.timers[s.nextHandle := t] && r.nextHandle == s.nextHandle + 1
    ensures r == s.(timers := r.timers, nextHandle := r.nextHandle)
  {
    s.(timers := s.timers[s.nextHandle := t], nextHandle := s.nextHandle + 1)
  }

  // ---- phases and cycles ----------------------------------------------------

  /** `runPhasesSequentially(phases, index)` for an index inside the list: shows the
      phase, sets the ring's transition to the whole phase, and starts the tick and
      the phase timer for `seconds * 1000` ms. */
  function EnterPhase(s: Session, phases: seq<Phase>, index: nat): (r: Session)
    requires index < |phases|
    ensures r.currentPhase == Some(phases[index].name)
    ensures r.remaining == phases[index].seconds * MS_PER_SECOND
    ensures r.ui.phaseText == PhaseLabel(phases[index].name)
    ensures r.ui.countdown == CeilSeconds(r.remaining)
    ensures r.ui.transitionMs == r.remaining
    ensures r.intervalTimer == Some(s.nextHandle) && r.phaseTimeout == Some(s.nextHandle + 1)
    ensures r.nextHandle == s.nextHandle + 2
    ensures r.timers == s.timers[s.nextHandle := Interval][s.nextHandle + 1 := PhaseEnd(phases, index, r.remaining)]
    ensures r.running == s.running && r.paused == s.paused && r.cyclesLeft == s.cyclesLeft
    ensures r.ui == s.ui.(phaseText := r.ui.phaseText, countdown := r.ui.countdown, transitionMs := r.ui.transitionMs)
  {
    var p := phases[index];
    var ms := p.seconds * MS_PER_SECOND;
    var tick, timeout := s.nextHandle, s.nextHandle + 1;
    s.(currentPhase := Some(p.name), remaining := ms,
       ui := s.ui.(phaseText := PhaseLabel(p.name), countdown := CeilSeconds(ms),
                   transitionMs := ms),
       intervalTimer := Some(tick), phaseTimeout := Some(timeout),
       timers := s.timers[tick := Interval][timeout := PhaseEnd(phases, index, ms)],
       nextHandle := s.nextHandle + 2)
  }

  /** The promise chain of a cycle resolving: one cycle fewer, and the next
      `runCycle` is scheduled 600 ms later. */
  function CompleteCycle(s: Session): (r: Session)
    ensures r.cyclesLeft == s.cyclesLeft - 1
    ensures r.timers == s.timers[s.nextHandle := CycleGap(GAP_MS)] && r.nextHandle == s.nextHandle + 1
    ensures r.running == s.running && r.paused == s.paused && r.currentPhase == s.currentPhase
    ensures r.remaining == s.remaining && r.ui == s.ui
  {
    SetTimer(s.(cyclesLeft := s.cyclesLeft - 1), CycleGap(GAP_MS))
  }

  /** `runPhasesSequentially(phases, index)`: the next phase, or the end of the cycle. */
  function RunPhases(s: Session, phases: seq<Phase>, index: nat): (r: Session)
    ensures index < |phases| ==> r == EnterPhase(s, phases, index)
    ensures index >= |phases| ==> r == CompleteCycle(s)
  {
    if index >= |phases| then CompleteCycle(s) else EnterPhase(s, phases, index)
  }

  /** `finishSession`: the session is over; no timer is cancelled. */
  function Finish(s: Session): (r: Session)
    ensures !r.running && !r.paused && r.currentPhase == None
    ensures r.ui.phaseText == "Done" && !r.ui.startDisabled && r.ui.pauseDisabled && r.ui.resetDisabled
    ensures r.timers == s.timers && r.cyclesLeft == s.cyclesLeft && r.remaining == s.remaining
  {
    s.(running := false, paused := false, currentPhase := None,
       ui := s.ui.(startDisabled := false, pauseDisabled := true, resetDisabled := true, phaseText := "Done"))
  }

  /** `runCycle`: finish when no cycle is left, otherwise build the phase list from the
      current settings and enter its first phase, inhale. */
  function RunCycle(s: Session, st: Settings): (r: Session)
    ensures s.cyclesLeft <= 0 ==> r == Finish(s)
    ensures s.cyclesLeft > 0 ==> r == EnterPhase(s, GetPhases(st), 0)
    ensures s.cyclesLeft > 0 ==> r.currentPhase == Some(Inhale) && r.remaining == st.inhale * MS_PER_SECOND
  {
    if s.cyclesLeft <= 0 then Finish(s) else EnterPhase(s, GetPhases(st), 0)
  }

  // ---- public operations ------------------------------------------------------

  /** `startSession`: ignored while running; otherwise running, not paused, at least
      one cycle to go, and the first cycle begins with inhale. */
  function Start(s: Session, st: Settings, count: int): (r: Session)
    ensures s.running ==> r == s
    ensures !s.running ==> r.running && !r.paused && r.cyclesLeft == Max(1, count) && r.cyclesLeft >= 1
    ensures !s.running ==> r.currentPhase == Some(Inhale) && r.remaining == st.inhale * MS_PER_SECOND
    ensures !s.running ==> Live(r, r.phaseTimeout) && Live(r, r.intervalTimer)
    ensures !s.running ==> r.timers[r.phaseTimeout.value] == PhaseEnd(GetPhases(st), 0, r.remaining)
    ensures !s.running ==> r.ui.startDisabled && !r.ui.pauseDisabled && !r.ui.resetDisabled
    ensures !s.running ==> r.intervalTimer == Some(s.nextHandle) && r.phaseTimeout == Some(s.nextHandle + 1)
    ensures !s.running ==> r.nextHandle == s.nextHandle + 2
    ensures !s.running ==>
      r.timers == s.timers[s.nextHandle := Interval][s.nextHandle + 1 := PhaseEnd(GetPhases(st), 0, r.remaining)]
  {
    if s.running then s
    else
      var begun := s.(running := true, paused := false, cyclesLeft := Max(1, count),
                      ui := s.ui.(startDisabled := true, pauseDisabled := false, resetDisabled := false));
      RunCycle(begun, st)
  }

  /** `pauseSession`: acts only when running and not paused; it cancels the handles
      held in the two globals and keeps the phase, the remaining time and the cycles. */
  function Pause(s: Session): (r: Session)
    ensures !(s.running && !s.paused) ==> r == s
    ensures s.running && !s.paused ==> r.running && r.paused
    ensures s.running && !s.paused ==> !Live(r, r.phaseTimeout) && !Live(r, r.intervalTimer)
    ensures s.running && !s.paused ==> r.ui.pauseText == "Resume" && r.ui.startDisabled
    ensures r.remaining == s.remaining && r.currentPhase == s.currentPhase && r.cyclesLeft == s.cyclesLeft
    ensures r.phaseTimeout == s.phaseTimeout && r.intervalTimer == s.intervalTimer
    ensures s.running && !s.paused ==> r.timers == Cancel(Cancel(s.timers, s.phaseTimeout), s.intervalTimer)
    ensures forall h :: h in r.timers ==> h in s.timers && r.timers[h] == s.timers[h]
  {
    if !s.running || s.paused then s
    else
      s.(paused := true,
         timers := Cancel(Cancel(s.timers, s.phaseTimeout), s.intervalTimer),
         ui := s.ui.(pauseText := "Resume", startDisabled := true))
  }

  /** `resumePhase(currentPhase, remaining)`: the ring's transition is set to the time
      still to go, and a new tick and a timer for exactly that time are started. */
  function ResumePhase(s: Session, ms: int): (r: Session)
    ensures r.intervalTimer == Some(s.nextHandle) && r.phaseTimeout == Some(s.nextHandle + 1)
    ensures r.timers == s.timers[s.nextHandle := Interval][s.nextHandle + 1 := ResumeEnd(ms)]
    ensures r.nextHandle == s.nextHandle + 2 && r.ui.transitionMs == ms
    ensures r.running == s.running && r.paused == s.paused && r.currentPhase == s.currentPhase
    ensures r.remaining == s.remaining && r.cyclesLeft == s.cyclesLeft
  {
    var ticking := SetTimer(s.(ui := s.ui.(transitionMs := ms)), Interval).(intervalTimer := Some(s.nextHandle));
    SetTimer(ticking, ResumeEnd(ms)).(phaseTimeout := Some(s.nextHandle + 1))
  }

  /** `resumeSession`: acts only when running and paused; the phase goes on for exactly
      the preserved remaining time. */
  function Resume(s: Session): (r: Session)
    ensures !(s.running && s.paused) ==> r == s
    ensures s.running && s.paused ==> r.running && !r.paused && r.ui.pauseText == "Pause"
    ensures s.running && s.paused ==> Live(r, r.phaseTimeout) && Live(r, r.intervalTimer)
    ensures s.running && s.paused ==> r.timers[r.phaseTimeout.value] == ResumeEnd(s.remaining)
    ensures s.running && s.paused ==> r.timers[r.intervalTimer.value] == Interval
    ensures s.running && s.paused ==> r.ui.transitionMs == s.remaining
    ensures r.remaining == s.remaining && r.currentPhase == s.currentPhase && r.cyclesLeft == s.cyclesLeft
    ensures s.running && s.paused ==>
      r.intervalTimer == Some(s.nextHandle) && r.phaseTimeout == Some(s.nextHandle + 1)
    ensures s.running && s.paused ==>
      r.timers == s.timers[s.nextHandle := Interval][s.nextHandle + 1 := ResumeEnd(s.remaining)]
    ensures s.running && s.paused ==>
      r.nextHandle == s.nextHandle + 2 && r.ui == s.ui.(pauseText := "Pause", transitionMs := s.remaining)
  {
    if !s.running || !s.paused then s
    else ResumePhase(s.(paused := false, ui := s.ui.(pauseText := "Pause")), s.remaining)
  }

  /** `stopSession`: from any state, not running, not paused, the two held handles
      cancelled, countdown "00" and label "Ready". */
  function Stop(s: Session): (r: Session)
    ensures !r.running && !r.paused
    ensures !Live(r, r.phaseTimeout) && !Live(r, r.intervalTimer)
    ensures r.ui.countdown == 0 && r.ui.phaseText == "Ready" && r.ui.pauseText == "Pause"
    ensures !r.ui.startDisabled && r.ui.pauseDisabled && r.ui.resetDisabled
    ensures r.currentPhase == s.currentPhase && r.remaining == s.remaining && r.cyclesLeft == s.cyclesLeft
    ensures r.timers == Cancel(Cancel(s.timers, s.phaseTimeout), s.intervalTimer)
    ensures forall h :: h in r.timers ==> h in s.timers && r.timers[h] == s.timers[h]
  {
    s.(running := false, paused := false,
       timers := Cancel(Cancel(s.timers, s.phaseTimeout), s.intervalTimer),
       ui := s.ui.(startDisabled := false, pauseDisabled := true, pauseText := "Pause",
                   resetDisabled := true, phaseText := "Ready", countdown := 0))
  }

  /** The keydown listener: Space starts when not running, else pauses when not
      paused, else resumes; any other key does nothing. */
  function KeyDown(s: Session, code: string, st: Settings, count: int): (r: Session)
    ensures code != "Space" ==> r == s
    ensures code == "Space" && !s.running ==> r == Start(s, st, count)
    ensures code == "Space" && s.running && !s.paused ==> r == Pause(s)
    ensures code == "Space" && s.running && s.paused ==> r == Resume(s)
  {
    if code != "Space" then s
    else if !s.running then Start(s, st, count)
    else if !s.paused then Pause(s)
    else Resume(s)
  }

  /** The start button's click handler. */
  function StartClick(s: Session, st: Settings, count: int): (r: Session)
    ensures r == Start(s, st, count)
  {
    if !s.running then Start(s, st, count) else s
  }

  /** The pause button's click handler: pause unless paused, else resume. */
  function PauseClick(s: Session): (r: Session)
    ensures !s.paused ==> r == Pause(s)
    ensures s.paused ==> r == Resume(s)
  {
    if !s.paused then Pause(s) else Resume(s)
  }

  // ---- timer callbacks --------------------------------------------------------

  /** The tick: 100 ms less, never below zero, and the countdown shows the seconds
      still to go, rounded up. */
  function Tick(s: Session): (r: Session)
    ensures r.remaining >= 0 && r.remaining == TickDown(s.remaining)
    ensures r.ui.countdown == CeilSeconds(r.remaining)
    ensures r == s.(remaining := r.remaining, ui := s.ui.(countdown := r.ui.countdown))
  {
    var rem := TickDown(s.remaining);
    s.(remaining := rem, ui := s.ui.(countdown := CeilSeconds(rem)))
  }

  /** The common start of both phase-end callbacks: the timer is spent, the interval
      held in the global is cancelled and the countdown shows "00". */
  function EndTimer(s: Session, h: nat): (r: Session)
    ensures h !in r.timers && !Live(r, r.intervalTimer)
    ensures r.timers == Cancel(s.timers - {h}, s.intervalTimer)
    ensures r.ui.countdown == 0
    ensures r == s.(timers := r.timers, ui := s.ui.(countdown := 0))
  {
    s.(timers := Cancel(s.timers - {h}, s.intervalTimer), ui := s.ui.(countdown := 0))
  }

  /** The browser runs the callback of pending timer `h`; `st` is what the duration
      inputs hold at that moment. A cancelled or spent handle does nothing. Promise
      continuations run before any other timer, so they are part of the same step. */
  function Fire(s: Session, h: nat, st: Settings): (r: Session)
    ensures h !in s.timers ==> r == s
    ensures h in s.timers && s.timers[h].Interval? ==> r == Tick(s) && r.timers == s.timers
    ensures h in s.timers && s.timers[h].PhaseEnd? ==>
      r == RunPhases(EndTimer(s, h), s.timers[h].phases, s.timers[h].index + 1)
    ensures h in s.timers && s.timers[h].ResumeEnd? && (s.running || s.cyclesLeft <= 0) ==> r == EndTimer(s, h)
    ensures h in s.timers && s.timers[h].ResumeEnd? && !s.running && s.cyclesLeft > 0 ==>
      r == RunCycle(EndTimer(s, h), st) && r.currentPhase == Some(Inhale) && !r.running
    ensures h in s.timers && s.timers[h].CycleGap? ==> r == RunCycle(s.(timers := s.timers - {h}), st)
    ensures h in s.timers && s.timers[h].CycleGap? && s.cyclesLeft <= 0 ==>
      !r.running && !r.paused && r.currentPhase == None && r.ui.phaseText == "Done" && h !in r.timers
    ensures h in s.timers && s.timers[h].CycleGap? && s.cyclesLeft > 0 ==>
      r.currentPhase == Some(Inhale) && r.running == s.running && r.paused == s.paused
  {
    if h !in s.timers then s
    else
      match s.timers[h]
      case Interval => Tick(s)
      case PhaseEnd(phases, index, _) => RunPhases(EndTimer(s, h), phases, index + 1)
      case ResumeEnd(_) =>
        var ended := EndTimer(s, h);
        if ended.cyclesLeft > 0 && !ended.running then RunCycle(ended, st) else ended
      case CycleGap(_) => RunCycle(s.(timers := s.timers - {h}), st)
  }
}
