# Breathing-session phase sequencer in Dafny

A model of the core of a guided breathing timer, `script.js`. A session runs a
number of cycles. Each cycle is inhale, then hold (only when its duration is
positive), then exhale. A countdown ticks every 100 ms, and the session can be
paused, resumed and stopped. The model is split into four parts:

- `phases.dfy` (module `Phases`) builds one cycle's phase list from the three
  duration inputs (`getPhases`) and makes the phase label.
- `countdown.dfy` (module `Countdown`) holds the countdown arithmetic. A tick
  takes 100 ms off, floored at 0. The display shows `ceil(remaining / 1000)` as
  text that is left-padded with `0` to two characters.
- `session_spec.dfy` (module `SessionSpec`) defines the session state machine as
  functions on a `Session` value. That value holds:
  - the script's globals: `running`, `paused`, `currentPhase`, `remaining`,
    `cyclesLeft`, and the handles held in `phaseTimeout` and `intervalTimer`;
  - the browser's table of pending timers;
  - the page elements the script writes to.
- `session_lemmas.dfy` (module `SessionLemmas`) proves properties across
  operations:
  - the invariant every operation keeps;
  - the pause/resume round trip;
  - the full schedule of an uninterrupted session;
  - the ways the 600 ms gap between cycles and a resume depart from an orderly
    session.
- `sequencer.dfy` (module `Sequencer`) holds the class `PhaseSequencer`. Its
  fields are the script's globals. Each method does in place what the script's
  function does, and is proved to produce exactly the state the matching
  `SessionSpec` function describes.

Timers are modelled as the browser keeps them. `setTimeout` and `setInterval`
register a callback under the next handle, which in every reachable state is
above every pending one (`ReachableValid`). `clearTimeout` and `clearInterval`
remove a handle; a spent or null handle is ignored. The event
`Fire(h, settings)` runs the callback of one pending timer. No clock is
modelled, so the timers may fire in any order. Each `Timer` value records what
its closure captured: the phase list and index of a phase timer, and the delay
a phase or resumed phase was scheduled for. A promise continuation runs before
any other timer can fire, so it is folded into the callback that resolves it.

The model keeps the code's behaviour even where it departs from what a
breathing timer evidently means to do: a stop that halts the session, a pause
that holds it, a finish that clears it, and a resume that carries the phase on
into the rest of the cycle. Specifically:

- `stopSession` does not clear `currentPhase`.
- `finishSession` cancels no timer.
- The session finishes only when the 600 ms gap timer after the last cycle
  fires. It does not finish immediately after the last exhale.
- Neither pause nor stop cancels the gap timer. When the gap timer fires after
  a pause, the next cycle starts while the session still counts as paused
  (`PauseDuringGapStartsNextCycle`). When it fires after a stop, the next cycle
  starts on a stopped session (`StopDuringGapStartsNextCycle`).
- A resume does not carry the resumed phase on into the rest of the cycle. The
  resumed phase's end calls `runCycle` only when `running` is false. When
  nothing else interrupts the phase, `running` is still true at that point, so
  the session stays running with nothing pending (`ResumeDoesNotAdvance`).
- The resumed phase's timer can still start a cycle along another path. For
  example: pause and resume during the gap, let the gap fire, then stop. The
  orphaned timer then fires on a stopped session and enters inhale
  (`OrphanedResumeEndStartsCycle`).

## Model

| member | source | states |
|---|---|---|
| Phases.GetPhases | script.js:44-53 | the list is inhale, then hold exactly when hold > 0, then exhale; its length is 3 or 2; each phase carries its input's seconds; hold is among the names iff hold > 0 |
| Phases.GetPhasesDurations | script.js:49-51 | every phase of a cycle lasts what the input of the same name says |
| Phases.PhaseLabel | script.js:127 | the label is the phase name with its first character upper-cased and the rest unchanged |
| Phases.PhaseLabels | script.js:126-128 | the three labels are "Inhale", "Hold" and "Exhale" |
| Countdown.CeilSeconds | script.js:103 | the displayed seconds r satisfy (r-1)*1000 < ms <= r*1000, i.e. `Math.ceil(ms/1000)`, also for negative ms; non-negative for non-negative ms |
| Countdown.TickDown | script.js:100-104 | a tick leaves the remaining time never negative: 100 ms less when at least 100 were left, else 0 |
| Countdown.AfterTicksClosedForm | script.js:100-104 | after k ticks a non-negative phase time is max(0, ms - 100k) |
| Countdown.TickDisplayStep | script.js:100-104 | for a non-negative time left, a tick never increases the displayed seconds and lowers them by at most one |
| Countdown.FourSecondPhase | script.js:91-104 | a 4000 ms phase shows ceil((4000-100k)/1000) after k ticks, from 4 down to 0 at the 40th tick |
| Countdown.NatToDecimal | script.js:132 | `String(n)` of a non-negative integer is all digits and has one digit exactly when n < 10 |
| Countdown.IntToDecimal | script.js:132 | `String(n)` is the digits of n, preceded by '-' for negative n |
| Countdown.DecimalRoundTrip | script.js:132 | reading back the digits of n gives n, with no leading zero from 10 on |
| Countdown.PadStart | script.js:132 | `padStart` gives length max(width, \|s\|), ends with s, and everything before s is the fill character |
| Countdown.FormatCountdown | script.js:131-133 | the countdown text `String(sec).padStart(2, '0')` has at least two characters and never fewer than `String(sec)`; it is `String(sec)` itself from two characters on, and all digits for a non-negative count |
| Countdown.FormatCountdownReadsBack | script.js:131-133 | the countdown text of a non-negative count is at least two digits, exactly two below 100, and reads back as the count |
| Countdown.FormatCountdownExamples | script.js:131-133 | 4 shows as "04", 0 as "00", 12 as "12" |
| SessionSpec.Initial | script.js:34-40 | the page starts not running, not paused, with no phase, no cycles and no pending timer |
| SessionSpec.EnterPhase | script.js:89-110 | entering phase i sets `currentPhase` to its name and `remaining` to seconds*1000; it shows the label and `ceil(remaining/1000)` and sets the transition to the whole phase; it registers a tick and a phase timer for exactly that time under handles `nextHandle` and `nextHandle + 1`; the buttons, the pause text, `running`, `paused` and `cyclesLeft` are unchanged |
| SessionSpec.CompleteCycle | script.js:79-83 | when a cycle's chain resolves, one cycle fewer remains and a gap timer recording the 600 ms delay (`GAP_MS`) is registered under the next handle; every other pending timer is kept |
| SessionSpec.RunPhases | script.js:86-88 | the next phase is entered while the index is inside the list; otherwise the cycle completes |
| SessionSpec.Finish | script.js:135-145 | not running, not paused, no phase, label "Done", start enabled and pause/reset disabled; timers and cycles untouched |
| SessionSpec.RunCycle | script.js:73-84 | with `cyclesLeft <= 0` the session finishes; otherwise the current settings' first phase, inhale, starts for inhale*1000 ms |
| SessionSpec.Start | script.js:62-71 | no change when running; otherwise running, not paused, `cyclesLeft = max(1, count) >= 1`, inhale under way; the timer table is the old one plus exactly a tick and inhale's phase timer under handles `nextHandle` and `nextHandle + 1`, so every timer pending before the start stays pending |
| SessionSpec.Pause | script.js:148-156 | no change unless running and not paused; otherwise paused, and the timer table is the old one minus exactly the two held handles; phase, remaining time and cycles kept |
| SessionSpec.ResumePhase | script.js:171-187 | the transition is set to the time left; a new tick and a timer for exactly that time are registered under handles `nextHandle` and `nextHandle + 1` |
| SessionSpec.Resume | script.js:158-169 | no change unless running and paused; otherwise not paused, "Pause" shown and the transition set to the preserved remaining time; the timer table is the old one plus exactly a tick and a timer for that time under handles `nextHandle` and `nextHandle + 1`, so a pending gap timer survives; the other page elements, phase, remaining time and cycles kept |
| SessionSpec.Stop | script.js:189-201 | from any state: not running, not paused, the timer table is the old one minus exactly the two held handles (so a pending gap timer survives), countdown 0, label "Ready", start enabled; phase, remaining time and cycles kept |
| SessionSpec.KeyDown | script.js:218-225 | Space starts when not running, pauses when running and not paused, and resumes when paused; other keys change nothing |
| SessionSpec.StartClick | script.js:209-211 | the start button's handler is exactly `startSession` |
| SessionSpec.PauseClick | script.js:212-215 | the pause button pauses when not paused and resumes when paused |
| SessionSpec.Tick | script.js:100-104 | a tick leaves `remaining` at TickDown of it (never negative) and the countdown at its rounded-up seconds; nothing else changes |
| SessionSpec.EndTimer | script.js:106-108 | a phase end spends its timer, removes exactly that timer and the interval held in the global from the table, and shows 0; nothing else changes |
| SessionSpec.Fire | script.js:100-110 | a cancelled or spent handle does nothing; a tick is `Tick`; a phase end runs the next index of its list; a resumed phase's end (script.js:176-185) calls `runCycle` only when not running and cycles are left, and otherwise only ends the timer; the gap timer (script.js:82) is spent and runs `runCycle` once: with no cycle left it finishes (not running, not paused, no phase, "Done"), with cycles left it starts inhale whatever `running` and `paused` say |
| SessionLemmas.InitialValid | script.js:34-40 | the initial page satisfies the session invariant |
| SessionLemmas.StartValid | script.js:62-71 | start keeps the invariant: paused only while running, and every handle below the next one |
| SessionLemmas.PauseValid | script.js:148-156 | pause keeps the invariant |
| SessionLemmas.ResumeValid | script.js:158-187 | resume keeps the invariant |
| SessionLemmas.StopValid | script.js:189-201 | stop keeps the invariant |
| SessionLemmas.KeyDownValid | script.js:218-225 | the Space toggle keeps the invariant |
| SessionLemmas.FireValid | script.js:100-110 | every timer callback keeps the invariant |
| SessionLemmas.Apply | script.js:205-225 | the listeners: the start button starts unless running (and else changes nothing), the pause button pauses a running session and resumes a paused one, keeping the time left, the reset button stops (not running, not paused, "Ready"), a key other than Space changes nothing, and a spent timer handle does nothing |
| SessionLemmas.ApplyValid | script.js:205-225 | every click, key press and timer firing keeps the invariant |
| SessionLemmas.ReachableValid | script.js:34-40 | every state reachable from the loaded page by any sequence of operations, with the duration inputs changing freely between them, satisfies the invariant, so every pending handle is below the next one |
| SessionLemmas.StartIdempotent | script.js:62-63 | starting twice is the same as starting once |
| SessionLemmas.PauseResumeRoundTrip | script.js:148-185 | pause then resume keeps phase, remaining time and cycles; the new phase timer is for exactly the preserved time and the transition is set to it |
| SessionLemmas.EnterPhaseInPhase | script.js:89-110 | entering a phase of a running session with no timer pending leaves only that phase's tick and timer pending |
| SessionLemmas.FirePhaseEnd | script.js:106-110 | a phase timer firing, after any number of ticks, cancels the tick and hands over to the next index of the same list |
| SessionLemmas.StepWithinCycle | script.js:106-110 | the end of a phase that is not the last enters the next phase of the same cycle, for its whole duration, with the same cycles left |
| SessionLemmas.StepEndOfCycle | script.js:79-83 | the end of a cycle's last phase leaves only the gap timer pending, with one cycle fewer and countdown 0 |
| SessionLemmas.StepGap | script.js:73-78 | the gap timer firing starts the next cycle's first phase when cycles are left, and otherwise finishes with "Done" and no timer pending |
| SessionLemmas.StartInPhase | script.js:62-71 | starting an idle session with no pending timer enters the first phase with `max(1, count)` cycles to go |
| SessionLemmas.TickInPhase | script.js:100-104 | a tick during a phase takes 100 ms off the time left (floored at 0), shows its rounded-up seconds, and leaves the phase, its timers and the cycles as they are |
| SessionLemmas.TickInGap | script.js:106-108 | during the gap the interval was cleared, so a tick changes nothing |
| SessionLemmas.RunSchedule | script.js:73-110 | from a cycle's first phase, through any interleaving of ticks and phase-advancing firings, after c*(L+1)+i of the latter cycle c is in phase i, or in the gap after it, with n-c (or n-c-1) cycles left |
| SessionLemmas.RunFinishes | script.js:73-77 | from a cycle's first phase with n cycles to go, after n*(L+1) phase-advancing firings and any ticks the session is finished with 0 cycles left, and stays so |
| SessionLemmas.SessionSchedule | script.js:62-110 | in an uninterrupted session, with ticks interleaved in any way, after c*(L+1)+i phase-advancing firings cycle c is in phase i of the phase list (or in the gap after it), with the cycles counted down once per cycle |
| SessionLemmas.SessionFinishes | script.js:73-77 | once all cycles and the last gap have fired, whatever ticks came between, the session is not running, has no phase, shows "Done", has 0 cycles left and no timer pending |
| SessionLemmas.NoHoldWhenZero | script.js:50 | while the hold input stays at 0 or below, no sequence of clicks, key presses and timer firings ever enters hold, however the inhale and exhale inputs move, and no pending phase timer walks a list that contains hold |
| SessionLemmas.ResumeDoesNotAdvance | script.js:164-168 | after a pause in a phase (after any number of ticks), a resume and the resumed phase's end, the session is still running with no timer pending, and no firing changes it again |
| SessionLemmas.PauseDuringGapStartsNextCycle | script.js:82 | a pause during the gap leaves the gap timer pending; when it fires, inhale starts with its timers live while still paused |
| SessionLemmas.StopDuringGapStartsNextCycle | script.js:189-201 | a stop during the gap leaves the gap timer pending; when it fires, inhale starts on a stopped session |
| SessionLemmas.StopDuringLastGapShowsDone | script.js:135-145 | a stop during the last gap shows "Ready", and the gap timer then replaces it with "Done" |
| SessionLemmas.OrphanedResumeEndStartsCycle | script.js:181-185 | a resumed phase's timer that fires when the session is not running but has cycles left starts inhale on the stopped session, with its phase timer pending |
| Sequencer.PhaseSequencer.constructor | script.js:34-40 | the object starts in the initial state |
| Sequencer.PhaseSequencer.SetTimer | script.js:100 | registers a timer under the next handle, which it returns |
| Sequencer.PhaseSequencer.ClearTimer | script.js:151-152 | removes the handle if any; nothing else changes |
| Sequencer.PhaseSequencer.RunPhasesSequentially | script.js:86-111 | the new state is `RunPhases` of the old |
| Sequencer.PhaseSequencer.RunCycle | script.js:73-84 | the new state is `RunCycle` of the old |
| Sequencer.PhaseSequencer.FinishSession | script.js:135-145 | the new state is `Finish` of the old: not running, not paused, no phase |
| Sequencer.PhaseSequencer.StartSession | script.js:62-71 | the new state is `Start` of the old: no change when running, else running with `max(1, count)` cycles and inhale under way |
| Sequencer.PhaseSequencer.PauseSession | script.js:148-156 | the new state is `Pause` of the old: no change in the wrong state, else paused with both held timers cancelled; phase, remaining time and cycles kept |
| Sequencer.PhaseSequencer.ResumePhase | script.js:171-187 | the new state is `ResumePhase` of the old |
| Sequencer.PhaseSequencer.ResumeSession | script.js:158-169 | the new state is `Resume` of the old: no change in the wrong state, else unpaused with a phase timer for exactly the old remaining time |
| Sequencer.PhaseSequencer.StopSession | script.js:189-201 | the new state is `Stop` of the old: not running, not paused, no held timer live, countdown text "00" |
| Sequencer.PhaseSequencer.KeyDown | script.js:218-225 | the new state is `KeyDown` of the old |
| Sequencer.PhaseSequencer.StartClick | script.js:209-211 | the new state is `StartClick` of the old |
| Sequencer.PhaseSequencer.PauseClick | script.js:212-215 | the new state is `PauseClick` of the old |
| Sequencer.PhaseSequencer.OnTick | script.js:100-104 | the new state is `Tick` of the old, and `remaining` is never negative |
| Sequencer.PhaseSequencer.Fire | script.js:106-110 | the new state is `Fire` of the old: the callback of one pending timer has run |

## Left out

- DOM lookups, `updateOutputs` and the input listeners (script.js:3-30) are page
  wiring. The duration inputs and the cycle count come in as a `Settings` value
  and an integer parameter.
- `parseInt` of the input strings and NaN (script.js:45-47, 69) are not
  modelled. Settings are integers, so `Math.max(1, NaN)` cannot arise.
- The ring animation is not modelled. `applyRingTransform` edits classes and
  forces a reflow (script.js:114-124). `setRingTransition` builds a CSS string,
  including the float `ms/6` (script.js:57-59). Only the transition duration in
  ms is recorded (`Display.transitionMs`).
- Wall-clock time is not modelled. Pending timers may fire in any order, a
  superset of the browser's due-time order. So the model does not say that 40
  ticks happen before a 4-second phase ends.
- The countdown element is kept as the whole seconds last written to it. Its
  text is `CountdownText`. `stopSession` writes the literal "00", which is the
  text of 0 (`FormatCountdownExamples`).
- `e.preventDefault()` on the Space key (script.js:220) is not modelled.
- The buttons' `disabled` flags are recorded but not enforced. The click handler
  methods can be called in states where the browser would not deliver a click.
- `toUpperCase` is modelled for ASCII lower-case letters only. That covers the
  three phase names.
