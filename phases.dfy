/** The phases of one breathing cycle and how a cycle's phase list is built
    from the configured durations (`getPhases` in script.js). */
module Phases {

  datatype PhaseName = Inhale | Hold | Exhale

  /** One timed segment of a cycle: its name and its configured length in whole seconds. */
  datatype Phase = Phase(name: PhaseName, seconds: int)

  /** The values of the three duration inputs, already read as integers. */
  datatype Settings = Settings(inhale: int, hold: int, exhale: int)

  /** The lower-case name the source stores in `currentPhase`. */
  function NameText(p: PhaseName): (r: string)
    ensures |r| >= 4
  {
    match p
    case Inhale => "inhale"
    case Hold => "hold"
    case Exhale => "exhale"
  }

  /** ASCII upper-casing of one character, as `toUpperCase` does for the names used here. */
  function UpperChar(c: char): (r: char)
    ensures 'a' <= c <= 'z' ==> 'A' <= r <= 'Z' && r as int == c as int - 32
    ensures !('a' <= c <= 'z') ==> r == c
  {
    if 'a' <= c <= 'z' then (c as int - 32) as char else c
  }

  /** The text of the phase label: the name with its first letter upper-cased. */
  function PhaseLabel(p: PhaseName): (r: string)
    ensures |r| == |NameText(p)|
    ensures r[0] == UpperChar(NameText(p)[0]) && r[1..] == NameText(p)[1..]
  {
    var t := NameText(p);
    [UpperChar(t[0])] + t[1..]
  }

  /** The names of a phase list, in order. */
  function Names(phases: seq<Phase>): (r: seq<PhaseName>)
    ensures |r| == |phases|
    ensures forall i :: 0 <= i < |phases| ==> r[i] == phases[i].name
  {
    if phases == [] then [] else [phases[0].name] + Names(phases[1..])
  }

  /** One cycle: inhale, then hold only when its duration is positive, then exhale. */
  function GetPhases(st: Settings): (r: seq<Phase>)
    ensures |r| == if st.hold > 0 then 3 else 2
    ensures r[0] == Phase(Inhale, st.inhale)
    ensures r[|r| - 1] == Phase(Exhale, st.exhale)
    ensures st.hold > 0 ==> r[1] == Phase(Hold, st.hold)
    ensures Hold in Names(r) <==> st.hold > 0
  {
    var first := [Phase(Inhale, st.inhale)];
    var middle := if st.hold > 0 then [Phase(Hold, st.hold)] else [];
    first + middle + [Phase(Exhale, st.exhale)]
  }

  /** Every phase of a cycle takes its duration from the input of the same name. */
  lemma GetPhasesDurations(st: Settings, i: nat)
    requires i < |GetPhases(st)|
    ensures var p := GetPhases(st)[i];
      p.seconds == match p.name
                   case Inhale => st.inhale
                   case Hold => st.hold
                   case Exhale => st.exhale
  {
  }

  lemma PhaseLabels()
    ensures PhaseLabel(Inhale) == "Inhale"
    ensures PhaseLabel(Hold) == "Hold"
    ensures PhaseLabel(Exhale) == "Exhale"
  {
  }
}
