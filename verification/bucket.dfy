/** manipulators/bucket/Bucket.kt: the cargo bucket's double solenoid behind a
    change-only `state` setter. Opening the bucket clears the `hasCargo` latch of the
    game-piece sensors object. */
module Bucket {
  import opened Actuators
  import GamePieceSensors

  datatype BucketState = Open | Closed

  /** `BucketState.position`. */
  function Position(s: BucketState): (v: SolenoidValue)
    ensures s == Open <==> v == Reverse
    ensures s == Closed <==> v == Forward
  {
    match s
    case Open => Reverse
    case Closed => Forward
  }

  /** The bucket together with the sensors object whose latch it clears. */
  datatype BucketSubsystem = BucketSubsystem(bucket: Latched<BucketState>, sensors: GamePieceSensors.Sensors)

  /** The bucket starts OPEN; the initializer does not go through the setter. */
  function Initial(sensors: GamePieceSensors.Sensors): (b: BucketSubsystem)
    ensures b.bucket.state == Open && |b.bucket.writes| == 0
    ensures b.sensors == sensors
  {
    BucketSubsystem(Actuators.Initial(Open), sensors)
  }

  /** The `state` setter. */
  function SetState(b: BucketSubsystem, v: BucketState): (r: BucketSubsystem)
    ensures r.bucket.state == v
    ensures b.bucket.state == v ==> r == b
    ensures b.bucket.state != v ==> r.bucket.writes == b.bucket.writes + [Position(v)]
    ensures b.bucket.state != v && v == Open ==> r.sensors == b.sensors.(hasCargo := false)
    ensures v == Closed ==> r.sensors == b.sensors
  {
    if b.bucket.state == v then b
    else
      var sensors := if v == Open then GamePieceSensors.Step(b.sensors, GamePieceSensors.ClearCargo) else b.sensors;
      BucketSubsystem(Assign(b.bucket, v, Position), sensors)
  }

  /** `default()`: close the bucket. */
  function Default(b: BucketSubsystem): (r: BucketSubsystem)
    ensures r.bucket.state == Closed && r.sensors == b.sensors
  {
    SetState(b, Closed)
  }

  /** Opening the bucket always leaves `hasCargo` false, whether or not the setter wrote. */
  lemma OpenMeansNoCargo(b: BucketSubsystem)
    requires b.bucket.state == Open ==> !b.sensors.hasCargo
    ensures !SetState(b, Open).sensors.hasCargo
  {
  }

  /** From the initial state, a default close followed by an open writes forward then reverse. */
  lemma CloseThenOpenWrites(sensors: GamePieceSensors.Sensors)
    ensures SetState(Default(Initial(sensors)), Open).bucket.writes == [Forward, Reverse]
  {
  }

  /** The solenoid always holds the current state's value, once it has been written. */
  lemma SetStateTracks(b: BucketSubsystem, v: BucketState)
    requires Tracks(b.bucket, Position)
    ensures Tracks(SetState(b, v).bucket, Position)
  {
  }
}
