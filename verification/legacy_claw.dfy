/** claw/Claw.kt (the earlier snapshot): the claw's solenoid behind a private
    change-only setter, driven through `clamp` and `release`. */
module LegacyClaw {
  import opened Actuators

  datatype ClawState = Clamped | Released

  /** `ClawState.position`. */
  function Position(s: ClawState): (v: SolenoidValue)
    ensures s == Clamped <==> v == Reverse
    ensures s == Released <==> v == Forward
  {
    match s
    case Clamped => Reverse
    case Released => Forward
  }

  /** The claw and its limit switch, read directly (not inverted) as `hasHatchPanel`. */
  datatype LegacyClaw = LegacyClaw(jaw: Latched<ClawState>, hasHatchPanel: bool)

  /** The claw starts CLAMPED, with nothing written. */
  function Initial(switchReading: bool): (c: LegacyClaw)
    ensures c.jaw.state == Clamped && |c.jaw.writes| == 0
    ensures c.hasHatchPanel == switchReading
  {
    LegacyClaw(Actuators.Initial(Clamped), switchReading)
  }

  /** `clamp()`. */
  function Clamp(c: LegacyClaw): (r: LegacyClaw)
    ensures r.jaw.state == Clamped && r.hasHatchPanel == c.hasHatchPanel
    ensures c.jaw.state == Clamped ==> r == c
    ensures c.jaw.state == Released ==> r.jaw.writes == c.jaw.writes + [Reverse]
  {
    c.(jaw := Assign(c.jaw, Clamped, Position))
  }

  /** `release()`. */
  function Release(c: LegacyClaw): (r: LegacyClaw)
    ensures r.jaw.state == Released && r.hasHatchPanel == c.hasHatchPanel
    ensures c.jaw.state == Released ==> r == c
    ensures c.jaw.state == Clamped ==> r.jaw.writes == c.jaw.writes + [Forward]
  {
    c.(jaw := Assign(c.jaw, Released, Position))
  }

  /** `default()` is `clamp()`. */
  function Default(c: LegacyClaw): (r: LegacyClaw)
    ensures r.jaw.state == Clamped
    ensures r.jaw.writes == c.jaw.writes || r.jaw.writes == c.jaw.writes + [Reverse]
  {
    Clamp(c)
  }

  /** Repeating an operation writes nothing more, and from a clamped claw a release
      followed by a clamp comes back to the clamped state at the cost of two writes. */
  lemma RepeatsWriteNothing(c: LegacyClaw)
    ensures Clamp(Clamp(c)) == Clamp(c)
    ensures Release(Release(c)) == Release(c)
    ensures c.jaw.state == Clamped ==>
      Clamp(Release(c)).jaw.state == Clamped && Clamp(Release(c)).jaw.writes == c.jaw.writes + [Forward, Reverse]
  {
  }

  /** The last value written always belongs to the current state. */
  lemma OperationsKeepTracking(c: LegacyClaw)
    requires Tracks(c.jaw, Position)
    ensures Tracks(Clamp(c).jaw, Position) && Tracks(Release(c).jaw, Position)
  {
  }
}
