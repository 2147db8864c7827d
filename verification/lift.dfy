/** lift/Lift.kt: the lift's target states with their heights and game-piece offsets,
    the state chosen for LOW / MIDDLE / HIGH by the held game piece, and the bottom
    limit switch whose interrupt zeroes the encoder on a rising edge of its input line. The two offsets,
    `HATCH_PANEL_OFFSET` and `CARGO_OFFSET`, are parameters. */
module Lift {
  import opened Wrappers
  import Manipulators

  datatype LiftState = HatchLow | HatchMiddle | HatchHigh | CargoLow | CargoMiddle | CargoHigh | CargoShip

  /** The constructor arguments of each state: height (feet) and game piece. */
  function Height(s: LiftState): real {
    match s
    case HatchLow => 1.583
    case HatchMiddle => 3.917
    case HatchHigh => 6.250
    case CargoLow => 2.292
    case CargoMiddle => 4.625
    case CargoHigh => 7.225
    case CargoShip => 3.417
  }

  function Piece(s: LiftState): (p: Option<Manipulators.GamePiece>)
    ensures p == Some(Manipulators.HatchPanel) <==> s in {HatchLow, HatchMiddle, HatchHigh}
    ensures p.Some?
  {
    match s
    case HatchLow | HatchMiddle | HatchHigh => Some(Manipulators.HatchPanel)
    case _ => Some(Manipulators.Cargo)
  }

  datatype Offsets = Offsets(hatchPanel: real, cargo: real)

  /** `LiftState.position`: height less the offset of the state's game piece. */
  function Position(s: LiftState, o: Offsets): (p: real)
    ensures Piece(s) == Some(Manipulators.HatchPanel) ==> p == Height(s) - o.hatchPanel
    ensures Piece(s) == Some(Manipulators.Cargo) ==> p == Height(s) - o.cargo
  {
    Height(s) - match Piece(s)
      case Some(HatchPanel) => o.hatchPanel
      case Some(Cargo) => o.cargo
      case None => 0.0
  }

  /** Whatever the offsets, the levels of one game piece keep their height order. */
  lemma LevelsOrdered(o: Offsets)
    ensures Position(HatchLow, o) < Position(HatchMiddle, o) < Position(HatchHigh, o)
    ensures Position(CargoLow, o) < Position(CargoShip, o) < Position(CargoMiddle, o) < Position(CargoHigh, o)
  {
  }

  /** `BOTTOM` and `TOP`. */
  const Bottom: LiftState := HatchLow
  const Top: LiftState := CargoHigh

  /** `LOW`, `MIDDLE`, `HIGH`: the hatch variant exactly when a hatch panel is held. */
  function Low(hasHatchPanel: bool): (s: LiftState)
    ensures Piece(s) == Some(Manipulators.HatchPanel) <==> hasHatchPanel
  {
    if hasHatchPanel then HatchLow else CargoLow
  }

  function Middle(hasHatchPanel: bool): (s: LiftState)
    ensures Piece(s) == Some(Manipulators.HatchPanel) <==> hasHatchPanel
  {
    if hasHatchPanel then HatchMiddle else CargoMiddle
  }

  function High(hasHatchPanel: bool): (s: LiftState)
    ensures Piece(s) == Some(Manipulators.HatchPanel) <==> hasHatchPanel
  {
    if hasHatchPanel then HatchHigh else CargoHigh
  }

  /** The selected levels rise in order for either game piece, and the highest
      selectable level is `TOP` when no hatch panel is held. */
  lemma SelectionOrdered(hasHatchPanel: bool, o: Offsets)
    ensures Position(Low(hasHatchPanel), o) < Position(Middle(hasHatchPanel), o) < Position(High(hasHatchPanel), o)
    ensures !hasHatchPanel ==> High(hasHatchPanel) == Top
    ensures hasHatchPanel ==> Low(hasHatchPanel) == Bottom
  {
  }

  /** The lift's encoder position and the last reading of the bottom switch (`atBottom`,
      true while the switch is pressed). */
  datatype Lift = Lift(position: real, atBottom: bool)

  /** What happens to the lift: the encoder moves, or the bottom switch is read. */
  datatype Event = Moved(position: real) | BottomSwitch(pressed: bool)

  /** The level of the switch's input line. `invert()` only flips what `get()` reports;
      the interrupt edges are configured on the line itself, which reads high while the
      switch is open (hence the inversion to get `atBottom`). */
  function RawLevel(pressed: bool): (high: bool)
    ensures high <==> !pressed
  {
    !pressed
  }

  /** `setUpSourceEdge(true, false)`: the interrupt fires on a rising edge of the line
      and not on a falling one. */
  predicate RisingEdge(wasPressed: bool, pressed: bool) {
    !RawLevel(wasPressed) && RawLevel(pressed)
  }

  /** One event. The interrupt's handler sets the encoder position to zero; it fires as
      the line rises, that is as the lift leaves the bottom switch. */
  function Step(l: Lift, e: Event): (r: Lift)
    ensures e.Moved? ==> r == l.(position := e.position)
    ensures e.BottomSwitch? ==> r.atBottom == e.pressed
    ensures e.BottomSwitch? && RisingEdge(l.atBottom, e.pressed) ==> r.position == 0.0
    ensures e.BottomSwitch? && !RisingEdge(l.atBottom, e.pressed) ==> r.position == l.position
  {
    match e
    case Moved(p) => l.(position := p)
    case BottomSwitch(pressed) =>
      if RisingEdge(l.atBottom, pressed) then Lift(0.0, pressed) else l.(atBottom := pressed)
  }

  function Run(l: Lift, es: seq<Event>): Lift
    decreases |es|
  {
    if |es| == 0 then l else Run(Step(l, es[0]), es[1..])
  }

  /** Without a release of the switch the encoder is never zeroed: switch readings alone
      leave the position as it was, and a lift at the bottom stays there. */
  lemma {:induction false} HeldSwitchDoesNotRezero(l: Lift, es: seq<Event>)
    requires forall i :: 0 <= i < |es| ==> es[i] != BottomSwitch(false)
    ensures l.atBottom ==> Run(l, es).atBottom
    ensures (forall i :: 0 <= i < |es| ==> es[i].BottomSwitch?) ==> Run(l, es).position == l.position
    decreases |es|
  {
    if |es| > 0 {
      HeldSwitchDoesNotRezero(Step(l, es[0]), es[1..]);
      if forall i :: 0 <= i < |es| ==> es[i].BottomSwitch? {
        assert es[0].BottomSwitch?;
        assert forall i :: 0 <= i < |es[1..]| ==> es[1..][i].BottomSwitch? by {
          forall i | 0 <= i < |es[1..]| ensures es[1..][i].BottomSwitch? {
            assert es[1..][i] == es[i + 1];
          }
        }
      }
    }
  }

  /** Pressing the switch never zeroes the encoder; leaving it does, whatever the
      encoder read. */
  lemma PressKeepsReleaseZeroes(l: Lift)
    ensures Step(l, BottomSwitch(true)) == l.(atBottom := true)
    ensures l.atBottom ==> Step(l, BottomSwitch(false)) == Lift(0.0, false)
    ensures !l.atBottom ==> Step(l, BottomSwitch(false)) == l
  {
  }
}
