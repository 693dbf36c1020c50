/** The breathing-session sequencer of script.js as an object whose fields are the
    script's module-level variables. Each method does in place what the script's
    function of the same name does, and its contract ties the new state to the
    corresponding function of module SessionSpec, whose properties are proved there
    and in module SessionLemmas. The browser's timer table is part of the object: the
    script's `setTimeout`/`setInterval` calls add to it, `clearTimeout`/`clearInterval`
    remove from it, and `Fire` is the browser running one pending callback. */
module Sequencer {
  import opened Phases
  import opened Countdown
  import opened SessionSpec

  class PhaseSequencer {
    // the script's state
    var running: bool
    var paused: bool
    var currentPhase: Option<PhaseName>
    var remaining: int
    var phaseTimeout: Option<nat>
    var intervalTimer: Option<nat>
    var cyclesLeft: int
    // the browser's pending timers and the next handle it will give out
    var timers: map<nat, Timer>
    var nextHandle: nat
    // the page elements the script writes to
    var ui: Display

    /** The whole state as a value. */
    function State(): (r: SessionSpec.Session)
      reads this
    {
      SessionSpec.Session(running, paused, currentPhase, remaining, cyclesLeft,
                          phaseTimeout, intervalTimer, timers, nextHandle, ui)
    }

    /** The page as loaded: `ui` is what the markup shows. */
    constructor (ui: Display)
      ensures State() == Initial(ui)
    {
      running, paused, currentPhase, remaining := false, false, None, 0;
      phaseTimeout, intervalTimer, cyclesLeft := None, None, 0;
      timers, nextHandle := map[], 1;
      this.ui := ui;
    }

    // ---- timers ---------------------------------------------------------------

    method SetTimer(t: Timer) returns (h: nat)
      modifies this
      ensures h == old(nextHandle)
      ensures State() == SessionSpec.SetTimer(old(State()), t)
    {
      h := nextHandle;
      timers := timers[h := t];
      nextHandle := nextHandle + 1;
    }

    method ClearTimer(h: Option<nat>)
      modifies this
      ensures State() == old(State()).(timers := Cancel(old(timers), h))
    {
      if h.Some? {
        timers := timers - {h.value};
      }
    }

    // ---- phases and cycles ------------------------------------------------------

    /** `runPhasesSequentially(phases, index)` up to the point where it waits. */
    method RunPhasesSequentially(phases: seq<Phase>, index: nat)
      modifies this
      ensures State() == RunPhases(old(State()), phases, index)
    {
      if index >= |phases| {
        // the chain resolves into runCycle's continuation
        cyclesLeft := cyclesLeft - 1;
        var gap := SetTimer(CycleGap(GAP_MS));
        return;
      }
      var p := phases[index];
      currentPhase := Some(p.name);
      var ms := p.seconds * MS_PER_SECOND;
      remaining := ms;
      ui := ui.(phaseText := PhaseLabel(p.name), countdown := CeilSeconds(remaining));
      ui := ui.(transitionMs := ms);
      var tick := SetTimer(Interval);
      intervalTimer := Some(tick);
      var timeout := SetTimer(PhaseEnd(phases, index, ms));
      phaseTimeout := Some(timeout);
    }

    method RunCycle(st: Settings)
      modifies this
      ensures State() == SessionSpec.RunCycle(old(State()), st)
    {
      if cyclesLeft <= 0 {
        FinishSession();
        return;
      }
      var phases := GetPhases(st);
      RunPhasesSequentially(phases, 0);
    }

    method FinishSession()
      modifies this
      ensures State() == Finish(old(State()))
      ensures !running && !paused && currentPhase == None
    {
      running := false;
      paused := false;
      currentPhase := None;
      ui := ui.(startDisabled := false, pauseDisabled := true, resetDisabled := true);
      ui := ui.(phaseText := "Done");
    }

    // ---- public operations --------------------------------------------------------

    method StartSession(st: Settings, count: int)
      modifies this
      ensures State() == Start(old(State()), st, count)
      ensures old(running) ==> State() == old(State())
      ensures !old(running) ==> running && !paused && cyclesLeft == Max(1, count) && currentPhase == Some(Inhale)
    {
      if running {
        return;
      }
      running := true;
      paused := false;
      ui := ui.(startDisabled := true, pauseDisabled := false, resetDisabled := false);
      cyclesLeft := Max(1, count);
      RunCycle(st);
    }

    method PauseSession()
      modifies this
      ensures State() == Pause(old(State()))
      ensures old(!running || paused) ==> State() == old(State())
      ensures old(running && !paused) ==> paused && !Live(State(), phaseTimeout) && !Live(State(), intervalTimer)
      ensures remaining == old(remaining) && currentPhase == old(currentPhase) && cyclesLeft == old(cyclesLeft)
    {
      if !running || paused {
        return;
      }
      paused := true;
      ClearTimer(phaseTimeout);
      ClearTimer(intervalTimer);
      ui := ui.(pauseText := "Resume", startDisabled := true);
    }

    /** `resumePhase(currentPhase, remaining)`; the phase name it is given is unused. */
    method ResumePhase(msRemaining: int)
      modifies this
      ensures State() == SessionSpec.ResumePhase(old(State()), msRemaining)
    {
      ui := ui.(transitionMs := msRemaining);
      var tick := SetTimer(Interval);
      intervalTimer := Some(tick);
      var timeout := SetTimer(ResumeEnd(msRemaining));
      phaseTimeout := Some(timeout);
    }

    method ResumeSession()
      modifies this
      ensures State() == Resume(old(State()))
      ensures old(!running || !paused) ==> State() == old(State())
      ensures old(running && paused) ==>
                !paused && Live(State(), phaseTimeout) && timers[phaseTimeout.value] == ResumeEnd(old(remaining))
      ensures remaining == old(remaining) && currentPhase == old(currentPhase) && cyclesLeft == old(cyclesLeft)
    {
      if !running || !paused {
        return;
      }
      paused := false;
      ui := ui.(pauseText := "Pause");
      ResumePhase(remaining);
    }

    method StopSession()
      modifies this
      ensures State() == Stop(old(State()))
      ensures !running && !paused && !Live(State(), phaseTimeout) && !Live(State(), intervalTimer)
      ensures CountdownText(ui) == "00"
    {
      running := false;
      paused := false;
      ClearTimer(phaseTimeout);
      ClearTimer(intervalTimer);
      ui := ui.(startDisabled := false, pauseDisabled := true, pauseText := "Pause",
                resetDisabled := true, phaseText := "Ready", countdown := 0);
      ZeroCountdownText();
    }

    /** The keydown listener. */
    method KeyDown(code: string, st: Settings, count: int)
      modifies this
      ensures State() == SessionSpec.KeyDown(old(State()), code, st, count)
    {
      if code == "Space" {
        if !running {
          StartSession(st, count);
        } else if !paused {
          PauseSession();
        } else {
          ResumeSession();
        }
      }
    }

    /** `startBtnHandler`. */
    method StartClick(st: Settings, count: int)
      modifies this
      ensures State() == SessionSpec.StartClick(old(State()), st, count)
    {
      if !running {
        StartSession(st, count);
      }
    }

    /** `pauseBtnHandler`. */
    method PauseClick()
      modifies this
      ensures State() == SessionSpec.PauseClick(old(State()))
    {
      if !paused {
        PauseSession();
      } else {
        ResumeSession();
      }
    }

    // ---- timer callbacks ------------------------------------------------------------

    /** The interval callback shared by `runPhasesSequentially` and `resumePhase`. */
    method OnTick()
      modifies this
      ensures State() == Tick(old(State()))
      ensures remaining >= 0
    {
      remaining := remaining - TICK_MS;
      if remaining < 0 {
        remaining := 0;
      }
      ui := ui.(countdown := CeilSeconds(remaining));
    }

    /** The browser runs the callback of timer `h`, with the duration inputs holding `st`. */
    method Fire(h: nat, st: Settings)
      modifies this
      ensures State() == SessionSpec.Fire(old(State()), h, st)
    {
      if h !in timers {
        return;
      }
      match timers[h]
      case Interval =>
        OnTick();
      case PhaseEnd(phases, index, _) =>
        timers := timers - {h};
        ClearTimer(intervalTimer);
        ui := ui.(countdown := 0);
        RunPhasesSequentially(phases, index + 1);
      case ResumeEnd(_) =>
        timers := timers - {h};
        ClearTimer(intervalTimer);
        ui := ui.(countdown := 0);
        if cyclesLeft > 0 && !running {
          RunCycle(st);
        }
      case CycleGap(_) =>
        timers := timers - {h};
        RunCycle(st);
    }
  }
}
