/** manipulators/Manipulators.kt: the game piece currently held (by sensor and latch),
    the conveyor interrupt that latches cargo and closes the bucket, and the compressor
    switch. */
module Manipulators {
  import opened Wrappers
  import Bucket

  datatype GamePiece = Cargo | HatchPanel

  /** What the compressor was last told. */
  datatype CompressorCommand = NotCommanded | Start | Stop

  /** The object's state: the two (already inverted) switch readings, the cargo latch,
      and the compressor flag with the compressor's last command. */
  datatype Manipulators = Manipulators(
    hasHatchPanel: bool, hasCargoInConveyor: bool,
    hasCargo: bool,
    compressorEnabled: bool, compressor: CompressorCommand)

  /** `hasCargo` starts false and `compressorEnabled` true; the initializer does not call
      the setter, so the compressor is not commanded. */
  function Initial(hasHatchPanel: bool, hasCargoInConveyor: bool): (m: Manipulators)
    ensures !m.hasCargo && m.compressorEnabled && m.compressor == NotCommanded
    ensures m.hasHatchPanel == hasHatchPanel && m.hasCargoInConveyor == hasCargoInConveyor
  {
    Manipulators(hasHatchPanel, hasCargoInConveyor, false, true, NotCommanded)
  }

  /** `currentGamePiece`: a hatch panel first, then cargo, else nothing. */
  function CurrentGamePiece(m: Manipulators): (r: Option<GamePiece>)
    ensures r == Some(HatchPanel) <==> m.hasHatchPanel
    ensures r == Some(Cargo) <==> !m.hasHatchPanel && m.hasCargo
    ensures r == None <==> !m.hasHatchPanel && !m.hasCargo
  {
    if m.hasHatchPanel then Some(HatchPanel)
    else if m.hasCargo then Some(Cargo)
    else None
  }

  /** The `compressorEnabled` setter: store the flag, start or stop the compressor. */
  function SetCompressorEnabled(m: Manipulators, value: bool): (r: Manipulators)
    ensures r.compressorEnabled == value
    ensures r.compressor == (if value then Start else Stop)
    ensures r.(compressorEnabled := m.compressorEnabled, compressor := m.compressor) == m
  {
    m.(compressorEnabled := value, compressor := if value then Start else Stop)
  }

  /** The state the interrupt handler touches: this object and the bucket. */
  datatype Mechanism = Mechanism(manipulators: Manipulators, bucket: Bucket.BucketSubsystem)

  /** The conveyor switch interrupt, as one event. It acts only when the robot is
      enabled and the conveyor is running: then the cargo latch is set and the bucket
      is closed (through its setter). Otherwise nothing changes. */
  function ConveyorInterrupt(w: Mechanism, robotEnabled: bool, conveyorRunning: bool): (r: Mechanism)
    ensures !(robotEnabled && conveyorRunning) ==> r == w
    ensures robotEnabled && conveyorRunning ==>
      r.manipulators == w.manipulators.(hasCargo := true)
      && r.bucket == Bucket.SetState(w.bucket, Bucket.Closed)
  {
    if robotEnabled && conveyorRunning then
      Mechanism(w.manipulators.(hasCargo := true), Bucket.SetState(w.bucket, Bucket.Closed))
    else w
  }

  /** After a firing interrupt the robot holds a game piece and the bucket is closed;
      a hatch panel still takes priority over the cargo. */
  lemma InterruptOutcome(w: Mechanism, robotEnabled: bool, conveyorRunning: bool)
    requires robotEnabled && conveyorRunning
    ensures var r := ConveyorInterrupt(w, robotEnabled, conveyorRunning);
      r.bucket.bucket.state == Bucket.Closed
      && CurrentGamePiece(r.manipulators) == (if w.manipulators.hasHatchPanel then Some(HatchPanel) else Some(Cargo))
  {
  }

  /** The bucket only ever clears the sensors object's latch, never this object's: the
      interrupt's latch survives any bucket assignment. */
  lemma BucketLeavesLatchAlone(w: Mechanism, v: Bucket.BucketState)
    requires w.manipulators.hasCargo
    ensures var r := w.(bucket := Bucket.SetState(w.bucket, v)); r.manipulators.hasCargo
  {
  }
}
