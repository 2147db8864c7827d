/** manipulators/claw/Claw.kt: the hatch-panel claw's double solenoid behind a
    change-only `state` setter. */
module Claw {
  import opened Actuators

  datatype ClawState = Clamped | Released

  /** `ClawState.position`. */
  function Position(s: ClawState): (v: SolenoidValue)
    ensures s == Clamped <==> v == Reverse
    ensures s == Released <==> v == Forward
  {
    match s
    case Clamped => Reverse
    case Released => Forward
  }

  /** The claw starts CLAMPED, with nothing written. */
  function Initial(): (c: Latched<ClawState>)
    ensures c.state == Clamped && |c.writes| == 0
  {
    Actuators.Initial(Clamped)
  }

  /** The `state` setter. */
  function SetState(c: Latched<ClawState>, v: ClawState): (r: Latched<ClawState>)
    ensures r.state == v
    ensures c.state == v ==> r == c
    ensures c.state != v ==> r.writes == c.writes + [Position(v)]
  {
    Assign(c, v, Position)
  }

  /** `default()`: clamp. */
  function Default(c: Latched<ClawState>): (r: Latched<ClawState>)
    ensures r.state == Clamped
    ensures |r.writes| <= |c.writes| + 1
  {
    SetState(c, Clamped)
  }

  /** Releasing and re-clamping from the start writes forward then reverse, and the
      claw ends as it began. */
  lemma ReleaseThenDefault()
    ensures Default(SetState(Initial(), Released)) == Latched(Clamped, [Forward, Reverse])
  {
  }

  /** Over any sequence of assignments the solenoid is written once per real change. */
  lemma WritesCountChanges(vs: seq<ClawState>)
    ensures |AssignAll(Initial(), vs, Position).writes| == Changes(Clamped, vs)
    ensures Tracks(AssignAll(Initial(), vs, Position), Position)
  {
    AssignAllWrites(Initial(), vs, Position);
  }
}
