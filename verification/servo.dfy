/** Servo.kt: a primary servo with any number of followers, each group optionally
    inverted, and an angle setter that clamps to the servo's travel. */
module Servo {

  const MinServoAngle: real := 0.0
  const MaxServoAngle: real := 180.0

  /** `Servo(port, *followerPorts)` with its two inversion flags. */
  datatype Servo = Servo(followerCount: nat, invertPrimary: bool, invertFollowers: bool)

  /** The values last sent to the primary and to each follower. */
  datatype ServoOutput = ServoOutput(primary: real, followers: seq<real>)

  /** A freshly constructed servo group: both inversion flags start false. */
  function NewServo(followerCount: nat): (s: Servo)
    ensures s.followerCount == followerCount && !s.invertPrimary && !s.invertFollowers
  {
    Servo(followerCount, false, false)
  }

  function Inverted(invert: bool, value: real): real {
    if invert then 1.0 - value else value
  }

  /** `set(value)`: the primary receives `1 - value` when inverted, else `value`;
      every follower receives the same value, inverted by `invertFollowers`. */
  function Set(s: Servo, value: real): (out: ServoOutput)
    ensures |out.followers| == s.followerCount
    ensures s.invertPrimary ==> out.primary + value == 1.0
    ensures !s.invertPrimary ==> out.primary == value
    ensures forall i :: 0 <= i < |out.followers| ==> out.followers[i] == Inverted(s.invertFollowers, value)
  {
    ServoOutput(Inverted(s.invertPrimary, value), seq(s.followerCount, _ => Inverted(s.invertFollowers, value)))
  }

  /** With the default flags every servo of the group receives the value unchanged. */
  lemma DefaultFlagsPassThrough(n: nat, value: real)
    ensures Set(NewServo(n), value).primary == value
    ensures forall i :: 0 <= i < n ==> Set(NewServo(n), value).followers[i] == value
  {
  }

  /** Inverting twice cancels: an inverted group sent `1 - v` drives every servo to `v`. */
  lemma InversionInvolutive(s: Servo, value: real)
    requires s.invertPrimary && s.invertFollowers
    ensures var out := Set(s, 1.0 - value);
      out.primary == value && forall i :: 0 <= i < |out.followers| ==> out.followers[i] == value
  {
  }

  /** A value in [0, 1] reaches every servo in [0, 1], inverted or not. */
  lemma SetKeepsUnitRange(s: Servo, value: real)
    requires 0.0 <= value <= 1.0
    ensures 0.0 <= Set(s, value).primary <= 1.0
    ensures forall i :: 0 <= i < s.followerCount ==> 0.0 <= Set(s, value).followers[i] <= 1.0
  {
  }

  /** The degree value `setAngle` acts on: below 0 it is 0, above 180 it is 180. */
  function ClampAngle(degrees: real): (a: real)
    ensures MinServoAngle <= a <= MaxServoAngle
    ensures MinServoAngle <= degrees <= MaxServoAngle ==> a == degrees
    ensures degrees < MinServoAngle ==> a == MinServoAngle
    ensures degrees > MaxServoAngle ==> a == MaxServoAngle
  {
    if degrees < MinServoAngle then MinServoAngle
    else if degrees > MaxServoAngle then MaxServoAngle
    else degrees
  }

  /** The value `setAngle(degrees)` passes to `set`: the clamped angle as a fraction of
      the travel. */
  function AngleToValue(degrees: real): (v: real)
    ensures 0.0 <= v <= 1.0
  {
    (ClampAngle(degrees) - MinServoAngle) / (MaxServoAngle - MinServoAngle)
  }

  /** `setAngle(degrees)`. */
  function SetAngle(s: Servo, degrees: real): (out: ServoOutput)
    ensures out == Set(s, AngleToValue(degrees))
    ensures 0.0 <= out.primary <= 1.0
  {
    SetKeepsUnitRange(s, AngleToValue(degrees));
    Set(s, AngleToValue(degrees))
  }

  /** Out-of-range angles act as the nearest end of the travel. */
  lemma SetAngleClamps(s: Servo, degrees: real)
    ensures degrees < 0.0 ==> SetAngle(s, degrees) == SetAngle(s, 0.0)
    ensures degrees > 180.0 ==> SetAngle(s, degrees) == SetAngle(s, 180.0)
  {
  }

  /** Within the travel, the value sent scaled back by 180 is the requested angle,
      and larger angles send larger values. */
  lemma AngleToValueInverse(d1: real, d2: real)
    requires 0.0 <= d1 <= d2 <= 180.0
    ensures AngleToValue(d1) * 180.0 == d1
    ensures AngleToValue(d1) <= AngleToValue(d2)
  {
  }
}
