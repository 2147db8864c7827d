/** manipulators/GamePiece.kt: the game-piece sensors of the later snapshot. The hatch
    panel switch and the conveyor switch are read directly; `hasCargo` is a latch that
    the conveyor interrupt raises. */
module GamePieceSensors {
  import opened Wrappers

  /** The file's own `GamePiece` enum. */
  datatype Piece = Cargo | HatchPanel

  /** The object's state: the two (already inverted) switch readings and `hasCargo`. */
  datatype Sensors = Sensors(hasHatchPanel: bool, hasCargoInConveyor: bool, hasCargo: bool)

  function Initial(hasHatchPanel: bool, hasCargoInConveyor: bool): (s: Sensors)
    ensures !s.hasCargo
    ensures s.hasHatchPanel == hasHatchPanel && s.hasCargoInConveyor == hasCargoInConveyor
  {
    Sensors(hasHatchPanel, hasCargoInConveyor, false)
  }

  /** `currentGamePiece`: a hatch panel first, then cargo, else nothing. */
  function CurrentGamePiece(s: Sensors): (r: Option<Piece>)
    ensures r == Some(HatchPanel) <==> s.hasHatchPanel
    ensures r == Some(Cargo) <==> !s.hasHatchPanel && s.hasCargo
    ensures r == None <==> !s.hasHatchPanel && !s.hasCargo
  {
    if s.hasHatchPanel then Some(HatchPanel)
    else if s.hasCargo then Some(Cargo)
    else None
  }

  /** What can happen to the object: the switches change, the conveyor interrupt
      fires, or (from the bucket) the latch is cleared. */
  datatype Event =
    | Switches(hasHatchPanel: bool, hasCargoInConveyor: bool)
    | ConveyorInterrupt
    | ClearCargo

  function Step(s: Sensors, e: Event): (r: Sensors)
    ensures e.Switches? ==> r == s.(hasHatchPanel := e.hasHatchPanel, hasCargoInConveyor := e.hasCargoInConveyor)
    ensures e.ConveyorInterrupt? ==> r == s.(hasCargo := true)
    ensures e.ClearCargo? ==> r == s.(hasCargo := false)
  {
    match e
    case Switches(h, c) => s.(hasHatchPanel := h, hasCargoInConveyor := c)
    case ConveyorInterrupt => s.(hasCargo := true)
    case ClearCargo => s.(hasCargo := false)
  }

  function Run(s: Sensors, es: seq<Event>): Sensors
    decreases |es|
  {
    if |es| == 0 then s else Run(Step(s, es[0]), es[1..])
  }

  /** Within this file only the interrupt touches `hasCargo`, and it only raises it: with
      no outside clear, the latch is set after a run exactly when it was set before or
      the interrupt fired at least once. */
  lemma {:induction false} HasCargoLatches(s: Sensors, es: seq<Event>)
    requires forall i :: 0 <= i < |es| ==> !es[i].ClearCargo?
    ensures Run(s, es).hasCargo <==> s.hasCargo || exists i :: 0 <= i < |es| && es[i].ConveyorInterrupt?
    decreases |es|
  {
    if |es| > 0 {
      HasCargoLatches(Step(s, es[0]), es[1..]);
      if exists i :: 0 <= i < |es[1..]| && es[1..][i].ConveyorInterrupt? {
        var i :| 0 <= i < |es[1..]| && es[1..][i].ConveyorInterrupt?;
        assert es[i + 1].ConveyorInterrupt?;
      }
      if exists i :: 0 <= i < |es| && es[i].ConveyorInterrupt? {
        var i :| 0 <= i < |es| && es[i].ConveyorInterrupt?;
        if i > 0 {
          assert es[1..][i - 1].ConveyorInterrupt?;
        }
      }
    }
  }

  /** The interrupt is unconditional: whatever the switches say, it sets the latch. */
  lemma InterruptAlwaysLatches(s: Sensors)
    ensures Step(s, ConveyorInterrupt).hasCargo
    ensures CurrentGamePiece(Step(s, ConveyorInterrupt)).Some?
  {
  }
}
