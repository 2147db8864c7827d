/** cargoholder/Bucket.kt (the earlier snapshot): a bucket state with `holdBall` and
    `releaseBall`. As written, the setter selects a solenoid value for the new state
    but never passes it to the solenoid, so nothing is ever written; the operations
    below use the change-only setter the other subsystems have, which is evidently what
    was meant. */
module CargoHolder {
  import opened Actuators

  datatype BucketState = Open | Blocked

  /** The value the setter selects for each state. */
  function SelectedValue(s: BucketState): (v: SolenoidValue)
    ensures s == Blocked <==> v == Forward
    ensures s == Open <==> v == Reverse
  {
    match s
    case Blocked => Forward
    case Open => Reverse
  }

  /** The bucket starts BLOCKED, with nothing written. */
  function Initial(): (b: Latched<BucketState>)
    ensures b.state == Blocked && |b.writes| == 0
  {
    Actuators.Initial(Blocked)
  }

  // ---------------------------------------------------------------------------
  // The setter as written
  // ---------------------------------------------------------------------------

  /** Return early on the same value, otherwise evaluate the value for the solenoid,
      drop it, and store the new state. */
  function SetStateAsWritten(b: Latched<BucketState>, v: BucketState): (r: Latched<BucketState>)
    ensures r.state == v
    ensures r.writes == b.writes
  {
    if b.state == v then b
    else
      var _ := SelectedValue(v);
      b.(state := v)
  }

  function SetAllAsWritten(b: Latched<BucketState>, vs: seq<BucketState>): Latched<BucketState>
    decreases |vs|
  {
    if |vs| == 0 then b else SetAllAsWritten(SetStateAsWritten(b, vs[0]), vs[1..])
  }

  /** However the bucket is driven from the start, the solenoid is never commanded, even
      though the state changes. */
  lemma {:induction false} NeverCommanded(vs: seq<BucketState>, b: Latched<BucketState>)
    requires |b.writes| == 0
    ensures SetAllAsWritten(b, vs).writes == []
    ensures SetAllAsWritten(b, vs).state == if |vs| == 0 then b.state else vs[|vs| - 1]
    decreases |vs|
  {
    if |vs| > 0 {
      NeverCommanded(vs[1..], SetStateAsWritten(b, vs[0]));
    }
  }

  // ---------------------------------------------------------------------------
  // The intended setter and the operations
  // ---------------------------------------------------------------------------

  /** The setter with the selected value passed to the solenoid on every change. */
  function SetState(b: Latched<BucketState>, v: BucketState): (r: Latched<BucketState>)
    ensures r.state == v
    ensures b.state == v ==> r == b
    ensures b.state != v ==> r.writes == b.writes + [SelectedValue(v)]
  {
    Assign(b, v, SelectedValue)
  }

  function HoldBall(b: Latched<BucketState>): (r: Latched<BucketState>)
    ensures r.state == Blocked
    ensures b.state == Open ==> r.writes == b.writes + [Forward]
    ensures b.state == Blocked ==> r == b
  {
    SetState(b, Blocked)
  }

  function ReleaseBall(b: Latched<BucketState>): (r: Latched<BucketState>)
    ensures r.state == Open
    ensures b.state == Blocked ==> r.writes == b.writes + [Reverse]
    ensures b.state == Open ==> r == b
  {
    SetState(b, Open)
  }

  /** With the intended setter, any sequence of states from the start writes once per
      change and leaves the solenoid holding the value of the current state. */
  lemma IntendedWritesEachChange(vs: seq<BucketState>)
    ensures |AssignAll(Initial(), vs, SelectedValue).writes| == Changes(Blocked, vs)
    ensures Tracks(AssignAll(Initial(), vs, SelectedValue), SelectedValue)
  {
    AssignAllWrites(Initial(), vs, SelectedValue);
  }

  /** The discrepancy on one input: releasing the ball from the start writes nothing as
      written, and `kReverse` as intended. */
  lemma ReleaseFromStart()
    ensures SetStateAsWritten(Initial(), Open) == Latched(Open, [])
    ensures ReleaseBall(Initial()) == Latched(Open, [Reverse])
  {
  }
}
