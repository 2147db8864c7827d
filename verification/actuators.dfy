/** Vendor actuator commands shared by every subsystem: what a motor controller or a
    double solenoid was last told to do, and the "write only on change" setter the
    subsystems wrap around their solenoids. */
module Actuators {

  /** A `DoubleSolenoid.Value`. */
  datatype SolenoidValue = Off | Forward | Reverse

  /** The last command a motor controller received. `Idle` means no command yet. */
  datatype MotorCommand = Idle | Percent(output: real) | Stopped

  /** A subsystem state variable whose setter commands a solenoid, together with the
      log of every value written to that solenoid. */
  datatype Latched<S> = Latched(state: S, writes: seq<SolenoidValue>)

  /** A latched state declared with an initial value: the Kotlin field initializer
      bypasses the setter, so nothing is written. */
  function Initial<S>(state: S): (l: Latched<S>)
    ensures l.state == state && |l.writes| == 0
  {
    Latched(state, [])
  }

  /** The setter `if (field != value) { field = value; solenoid.set(value.position) }`. */
  function Assign<S(==)>(l: Latched<S>, v: S, position: S -> SolenoidValue): (r: Latched<S>)
    ensures r.state == v
    ensures l.state == v ==> r.writes == l.writes
    ensures l.state != v ==> r.writes == l.writes + [position(v)]
  {
    if l.state == v then l else Latched(v, l.writes + [position(v)])
  }

  /** The solenoid's last written value is the one that belongs to the current state
      (or nothing was ever written). */
  ghost predicate Tracks<S>(l: Latched<S>, position: S -> SolenoidValue) {
    |l.writes| == 0 || l.writes[|l.writes| - 1] == position(l.state)
  }

  /** Applying a sequence of assignments in order. */
  function AssignAll<S(==)>(l: Latched<S>, vs: seq<S>, position: S -> SolenoidValue): (r: Latched<S>)
    decreases |vs|
  {
    if |vs| == 0 then l else AssignAll(Assign(l, vs[0], position), vs[1..], position)
  }

  /** Number of adjacent pairs that differ in `[s0] + vs`: how many assignments were real changes. */
  function Changes<S(==)>(s0: S, vs: seq<S>): nat
    decreases |vs|
  {
    if |vs| == 0 then 0
    else (if s0 != vs[0] then 1 else 0) + Changes(vs[0], vs[1..])
  }

  lemma AssignPreservesTracks<S>(l: Latched<S>, v: S, position: S -> SolenoidValue)
    requires Tracks(l, position)
    ensures Tracks(Assign(l, v, position), position)
  {
  }

  /** Assigning the same value twice writes once. */
  lemma AssignIdempotent<S>(l: Latched<S>, v: S, position: S -> SolenoidValue)
    ensures Assign(Assign(l, v, position), v, position) == Assign(l, v, position)
  {
  }

  /** After any sequence of assignments the log grew by exactly the number of real
      changes, the state is the last value assigned, and the solenoid still tracks it. */
  lemma {:induction false} AssignAllWrites<S>(l: Latched<S>, vs: seq<S>, position: S -> SolenoidValue)
    requires Tracks(l, position)
    ensures |AssignAll(l, vs, position).writes| == |l.writes| + Changes(l.state, vs)
    ensures AssignAll(l, vs, position).state == if |vs| == 0 then l.state else vs[|vs| - 1]
    ensures Tracks(AssignAll(l, vs, position), position)
    decreases |vs|
  {
    if |vs| > 0 {
      var l' := Assign(l, vs[0], position);
      AssignPreservesTracks(l, vs[0], position);
      AssignAllWrites(l', vs[1..], position);
    }
  }
}
