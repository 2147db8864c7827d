/** drivetrain/DrivetrainCommands.kt: the teleop speed modifier that slows the robot as
    the lift rises, and `alignWithVision`, which samples the camera's pose, rebuilds a
    two-point path to the target, drives it, refines it once and drives again (picking
    up a hatch panel on the way when the robot holds nothing).

    The motion library's path length and ease-curve derivative are supplied as
    functions; driving a path and the claw release are recorded as actions. */
module DrivetrainCommands {
  import opened Wrappers
  import opened Paths
  import Util
  import Vision
  import Manipulators
  import Lift

  // ---------------------------------------------------------------------------
  // teleopDrive: the lift modifier
  // ---------------------------------------------------------------------------

  /** `liftModifier`: `(1 - position / HIGH.position)` remapped from 0..1 to 0.25..1.
      A zero `HIGH.position` would divide by zero and is excluded. */
  function LiftModifier(liftPosition: real, highPosition: real): (k: real)
    requires highPosition != 0.0
    ensures k == 0.25 + 0.75 * (1.0 - liftPosition / highPosition)
  {
    Util.Remap(1.0 - liftPosition / highPosition, Util.Range(0.0, 1.0), Util.Range(0.25, 1.0))
  }

  /** Full speed with the lift at the bottom, a quarter at `HIGH`, and in between for
      positions in between. */
  lemma LiftModifierRange(liftPosition: real, highPosition: real)
    requires highPosition > 0.0
    ensures LiftModifier(0.0, highPosition) == 1.0
    ensures LiftModifier(highPosition, highPosition) == 0.25
    ensures 0.0 <= liftPosition <= highPosition ==> 0.25 <= LiftModifier(liftPosition, highPosition) <= 1.0
  {
    var k := LiftModifier(liftPosition, highPosition);
    DivSelf(highPosition);
    if 0.0 <= liftPosition <= highPosition {
      var t := liftPosition / highPosition;
      Util.DivBounds(liftPosition, highPosition, 1.0);
      assert 0.0 <= t <= 1.0;
      assert k == 0.25 + 0.75 * (1.0 - t);
    }
  }

  lemma DivSelf(h: real)
    requires h > 0.0
    ensures 0.0 / h == 0.0 && h / h == 1.0
  {
  }

  /** The modifier for the robot's lift, with `HIGH` chosen by the held game piece. */
  function TeleopLiftModifier(liftPosition: real, hasHatchPanel: bool, offsets: Lift.Offsets): (k: real)
    requires Lift.Position(Lift.High(hasHatchPanel), offsets) != 0.0
    ensures liftPosition == 0.0 ==> k == 1.0
    ensures liftPosition == Lift.Position(Lift.High(hasHatchPanel), offsets) ==> k == 0.25
  {
    LiftModifier(liftPosition, Lift.Position(Lift.High(hasHatchPanel), offsets))
  }

  // ---------------------------------------------------------------------------
  // alignWithVision: updatePath
  // ---------------------------------------------------------------------------

  /** The motion library's `length` of a path and `getDerivative` of an ease curve. */
  datatype Library = Library(length: Path2D -> real, derivative: (EaseCurve, real) -> real)

  ghost predicate LengthNonNegative(lib: Library) {
    forall p :: lib.length(p) >= 0.0
  }

  /** The state `updatePath` reads and writes: the path, the camera object, the pose. */
  datatype Approach = Approach(path: Path2D, vision: Vision.Vision, pose: Vision.CameraPose)

  /** The points left once the head point and then the tail point are removed. */
  function Middle(points: seq<PathPoint>): (r: seq<PathPoint>)
    ensures |points| <= 2 ==> r == []
    ensures |points| > 2 ==> r == points[1..|points| - 1]
  {
    var afterHead := if |points| > 0 then points[1..] else points;
    if |afterHead| > 0 then afterHead[..|afterHead| - 1] else afterHead
  }

  /** The start point at the robot and the end point at the target. */
  function StartPoint(y: real): PathPoint {
    PathPoint(0.0, 0.0, AngleAndMagnitude(0.0, y / 3.0))
  }

  function EndPoint(x: real, y: real, angle: real): PathPoint {
    PathPoint(x, y, AngleAndMagnitude(angle, y / 3.0))
  }

  /** The points of a path re-aimed at a target seen at `pose`: the old head and tail
      are gone, a start point at the robot and an end point at the target (inches
      converted to feet, the heading negated) follow what was in between. */
  function Retargeted(points: seq<PathPoint>, pose: Vision.CameraPose): (r: seq<PathPoint>)
    ensures |r| == |Middle(points)| + 2
    ensures r[|r| - 2].x == 0.0 && r[|r| - 2].y == 0.0
    ensures r[|r| - 1].x == pose.xDistance / 12.0 && r[|r| - 1].y == pose.yDistance / 12.0
  {
    var x, y := pose.xDistance / 12.0, pose.yDistance / 12.0;
    Middle(points) + [StartPoint(y), EndPoint(x, y, -(pose.targetAngle + pose.robotAngle))]
  }

  /** Lines 81-85: drop head and tail, then append the two new points (both with an angle
      and a magnitude, so neither call throws). */
  function Retrace(path: Path2D, x: real, y: real, angle: real): (p: Path2D)
    ensures p.points == Middle(path.points) + [StartPoint(y), EndPoint(x, y, angle)]
    ensures p.ease == path.ease && p.duration == path.duration
  {
    LegalPointArgsCharacterised(Some(0.0), Some(y / 3.0), None, None);
    LegalPointArgsCharacterised(Some(angle), Some(y / 3.0), None, None);
    var e1 := AddPointToEnd(path.(points := Middle(path.points)), 0.0, 0.0, Some(0.0), Some(y / 3.0), None, None);
    var e2 := AddPointToEnd(e1.path, x, y, Some(angle), Some(y / 3.0), None, None);
    assert e2.path.points == e2.path.points[..|e1.path.points|] + [e2.path.points[|e1.path.points|]];
    assert e1.path.points == e1.path.points[..|Middle(path.points)|] + [e1.path.points[|Middle(path.points)|]];
    e2.path
  }

  /** The ease key that starts the new profile and the one that ends it. */
  function StartKey(time: real, slope: real): EaseKey {
    EaseKey(time, 0.0, SlopeAndMagnitude(slope, 1.0))
  }

  function EndKey(duration: real): EaseKey {
    EaseKey(duration, 1.0, SlopeAndMagnitude(0.0, 1.0))
  }

  /** Lines 89-95: add the start and end ease keys, point the head and tail at them, set
      the duration. */
  function Rekey(path: Path2D, time: real, slope: real, duration: real): (p: Path2D)
    requires ValidCurve(path.ease)
    ensures ValidCurve(p.ease)
    ensures p.points == path.points && p.duration == duration
    ensures p.ease.tailKey.Some? && p.ease.keys[p.ease.tailKey.value] == EndKey(duration)
    ensures time != duration ==> p.ease.headKey.Some? && p.ease.keys[p.ease.headKey.value] == StartKey(time, slope)
    ensures time == duration ==> p.ease.headKey == p.ease.tailKey
  {
    var e3 := AddEasePointToEnd(path, time, 0.0, Some(slope), Some(1.0));
    var e4 := AddEasePointToEnd(e3.path, duration, 1.0, Some(0.0), Some(1.0));
    var keys := e4.path.ease.keys;
    var ease := e4.path.ease.(headKey := GetKey(keys, time), tailKey := GetKey(keys, duration));
    if time != duration then
      var j := GetKey(e3.path.ease.keys, time).value;
      assert keys[j] == e3.path.ease.keys[j];
      GetKeyUnique(keys, time, j);
      e4.path.(ease := ease, duration := duration)
    else
      e4.path.(ease := ease, duration := duration)
  }

  /** The duration rule of lines 79 and 87: keep a non-zero duration, otherwise derive
      one from the new path's length. */
  function NewDuration(oldDuration: real, length: real): (d: real)
    requires length >= 0.0
    ensures oldDuration != 0.0 ==> d == oldDuration
    ensures oldDuration == 0.0 ==> d >= 1.0
    ensures d != 0.0
  {
    if oldDuration == 0.0 then length / 4.0 + 1.0 else oldDuration
  }

  /** `updatePath(time, offset)`. With the target not found (the source's `alive` is
      always true) nothing changes. Otherwise the median pose over 0.33 s is taken at
      `offset`, the path is re-pointed at the target (inches to feet), the ease curve
      gets a start key carrying the slope the old curve had at `time` (read before any
      edit) and an end key at the duration, and the duration is kept or derived. */
  function UpdatePath(a: Approach, time: real, offset: real, found: bool,
                      readings: seq<Vision.Reading>, lib: Library): (r: Approach)
    requires ValidCurve(a.path.ease)
    requires LengthNonNegative(lib)
    requires found ==> |readings| > 0 && Vision.Measurable(readings)
    ensures ValidCurve(r.path.ease)
    ensures !found ==> r == a
    ensures found ==>
      r.vision == a.vision.(locked := true)
      && r.pose == Vision.GetMedianPose(a.vision, 0.33, offset, readings).pose
    ensures found ==> r.path.points == Retargeted(a.path.points, r.pose)
    ensures found && a.path.duration != 0.0 ==> r.path.duration == a.path.duration
    ensures found && a.path.duration == 0.0 ==> r.path.duration >= 1.0
    ensures found ==>
      r.path.ease.tailKey.Some? && r.path.ease.keys[r.path.ease.tailKey.value] == EndKey(r.path.duration)
    ensures found && time != r.path.duration ==>
      r.path.ease.headKey.Some?
      && r.path.ease.keys[r.path.ease.headKey.value] == StartKey(time, lib.derivative(a.path.ease, time))
  {
    if !Vision.Alive || !found then a
    else Refit(a, time, Vision.GetMedianPose(a.vision, 0.33, offset, readings), lib)
  }

  /** The found branch of `updatePath`, given the sampled median pose. */
  function Refit(a: Approach, time: real, sampled: Vision.MedianPose, lib: Library): (r: Approach)
    requires ValidCurve(a.path.ease)
    requires LengthNonNegative(lib)
    ensures ValidCurve(r.path.ease)
    ensures r.vision == sampled.vision && r.pose == sampled.pose
    ensures r.path.points == Retargeted(a.path.points, r.pose)
    ensures a.path.duration != 0.0 ==> r.path.duration == a.path.duration
    ensures a.path.duration == 0.0 ==> r.path.duration >= 1.0
    ensures r.path.ease.tailKey.Some? && r.path.ease.keys[r.path.ease.tailKey.value] == EndKey(r.path.duration)
    ensures time != r.path.duration ==>
      r.path.ease.headKey.Some?
      && r.path.ease.keys[r.path.ease.headKey.value] == StartKey(time, lib.derivative(a.path.ease, time))
  {
    var pose := sampled.pose;
    var x := pose.xDistance / 12.0;
    var y := pose.yDistance / 12.0;
    var angle := (pose.targetAngle + pose.robotAngle) * -1.0;
    var oldSlope := lib.derivative(a.path.ease, time);
    var retraced := Retrace(a.path, x, y, angle);
    assert retraced.points == Retargeted(a.path.points, pose);
    var duration := NewDuration(a.path.duration, lib.length(retraced));
    var rekeyed := Rekey(retraced, time, oldSlope, duration);
    assert rekeyed.points == retraced.points && rekeyed.duration == duration;
    Approach(rekeyed, sampled.vision, pose)
  }

  /** Two points: the first at the robot, the second at the target (inches to feet). */
  predicate RunsToTarget(points: seq<PathPoint>, pose: Vision.CameraPose) {
    |points| == 2 && points[0].x == 0.0 && points[0].y == 0.0
    && points[1].x == pose.xDistance / 12.0 && points[1].y == pose.yDistance / 12.0
  }

  /** A path that had no points, or the two points of an earlier update, has exactly the
      two new points afterwards: it starts at the robot and ends at the target. */
  lemma UpdateKeepsTwoPoints(a: Approach, time: real, offset: real, readings: seq<Vision.Reading>, lib: Library)
    requires ValidCurve(a.path.ease) && LengthNonNegative(lib)
    requires |readings| > 0 && Vision.Measurable(readings)
    requires |a.path.points| <= 2
    ensures var r := UpdatePath(a, time, offset, true, readings, lib);
      |r.path.points| == 2 && r.path.points[0].x == 0.0 && r.path.points[0].y == 0.0
      && r.path.points[0].kind.AngleAndMagnitude? && r.path.points[0].kind.angle == 0.0
      && r.path.points[1].x == r.pose.xDistance / 12.0 && r.path.points[1].y == r.pose.yDistance / 12.0
  {
  }

  /** Repeating an update with the same samples leaves the same path, apart from the
      start key's slope, which is read from the curve before the edit. */
  lemma UpdateRepeatsPoints(a: Approach, time: real, offset: real, readings: seq<Vision.Reading>, lib: Library)
    requires ValidCurve(a.path.ease) && LengthNonNegative(lib)
    requires |readings| > 0 && Vision.Measurable(readings)
    requires |a.path.points| <= 2
    ensures var once := UpdatePath(a, time, offset, true, readings, lib);
      var twice := UpdatePath(once, time, offset, true, readings, lib);
      twice.path.points == once.path.points && twice.path.duration == once.path.duration
      && twice.pose == once.pose
  {
    var once := UpdatePath(a, time, offset, true, readings, lib);
    var twice := UpdatePath(once, time, offset, true, readings, lib);
    MedianPoseIgnoresLock(a.vision, 0.33, offset, readings);
    assert twice.pose == once.pose;
    UpdateKeepsTwoPoints(a, time, offset, readings, lib);
    assert Middle(once.path.points) == [] == Middle(a.path.points);
    assert twice.path.points == Retargeted(once.path.points, once.pose) == once.path.points;
    assert once.path.duration != 0.0;
  }

  // ---------------------------------------------------------------------------
  // alignWithVision: the call sequence
  // ---------------------------------------------------------------------------

  /** The externally visible steps of the command. */
  datatype Action =
    | SetLocked(value: bool)
    | Delay(seconds: real)
    | Retarget(offset: real, found: bool)
    | Drive(path: Path2D, extraTime: real)
    | DriveWithRelease(path: Path2D, extraTime: real, releaseDelay: real)

  /** What the camera reports while one `updatePath` runs. */
  datatype Sampling = Sampling(found: bool, readings: seq<Vision.Reading>)

  predicate Usable(s: Sampling) {
    s.found ==> |s.readings| > 0 && Vision.Measurable(s.readings)
  }

  /** The distance kept from the target on the approach and on the final leg (inches). */
  const ApproachOffset: real := 16.0 + 28.0
  const FinalOffset: real := 16.0 + 3.0

  datatype Alignment = Alignment(actions: seq<Action>, approach: Approach)

  /** `alignWithVision(source)` run to completion: the pickup decision is taken from the
      game piece held at entry, the camera is locked, the robot waits 0.2 s for the
      light, retargets at 44 in, drives (0.1 s extra), retargets at 19 in, unlocks, and
      drives the last leg (0.25 s extra) either alone or alongside a claw release that
      starts after 0.25 s. */
  function AlignWithVision(source: Vision.VisionSource, cameras: Vision.Cameras,
                           m: Manipulators.Manipulators, initialPose: Vision.CameraPose,
                           first: Sampling, second: Sampling, lib: Library): (r: Alignment)
    requires cameras.hatchPanel.source == Vision.HatchPanel && cameras.cargo.source == Vision.Cargo
    requires Usable(first) && Usable(second) && LengthNonNegative(lib)
    ensures |r.actions| == 7
    ensures r.actions[0] == SetLocked(true) && r.actions[1] == Delay(0.2)
    ensures r.actions[2] == Retarget(ApproachOffset, first.found)
    ensures r.actions[3].Drive? && r.actions[3].extraTime == 0.1
    ensures r.actions[4] == Retarget(FinalOffset, second.found)
    ensures r.actions[5] == SetLocked(false)
    ensures r.actions[6].DriveWithRelease? <==> Manipulators.CurrentGamePiece(m).None?
    ensures r.actions[6].DriveWithRelease? ==> r.actions[6] == DriveWithRelease(r.approach.path, 0.25, 0.25)
    ensures r.actions[6].Drive? ==> r.actions[6] == Drive(r.approach.path, 0.25)
    ensures r.approach.vision.source == source && !r.approach.vision.locked
    ensures !first.found && !second.found ==> r.approach.path == NewPath() && r.approach.pose == initialPose
    ensures var legs := Legs(Approach(NewPath(), Vision.GetFromSource(cameras, source).(locked := true), initialPose),
                             first, second, lib);
      r.actions[3] == Drive(legs.0.path, 0.1) && r.approach.path == legs.1.path && r.approach.pose == legs.1.pose
    ensures first.found ==>
      RunsToTarget(r.actions[3].path.points,
                   Vision.GetMedianPose(Vision.GetFromSource(cameras, source), 0.33, ApproachOffset, first.readings).pose)
  {
    var shouldPickup := Manipulators.CurrentGamePiece(m).None?;
    var vision := Vision.GetFromSource(cameras, source).(locked := true);
    var legs := Legs(Approach(NewPath(), vision, initialPose), first, second, lib);
    FirstLegAimsAtTarget(Vision.GetFromSource(cameras, source), initialPose, first, lib);
    var done := legs.1.(vision := legs.1.vision.(locked := false));
    Alignment(
      [SetLocked(true), Delay(0.2), Retarget(ApproachOffset, first.found), Drive(legs.0.path, 0.1),
       Retarget(FinalOffset, second.found), SetLocked(false), FinalLeg(done.path, shouldPickup)],
      done)
  }

  /** The two `updatePath` calls: the approach at 44 in and the refinement at 19 in.
      Neither changes which camera is in use, and a target that is not found leaves the
      state as it was. */
  function Legs(start: Approach, first: Sampling, second: Sampling, lib: Library): (r: (Approach, Approach))
    requires ValidCurve(start.path.ease)
    requires Usable(first) && Usable(second) && LengthNonNegative(lib)
    ensures r.0.vision.source == start.vision.source && r.1.vision.source == start.vision.source
    ensures start.vision.locked ==> r.1.vision.locked
    ensures !first.found ==> r.0 == start
    ensures !second.found ==> r.1 == r.0
    ensures r.0 == UpdatePath(start, 0.0, ApproachOffset, first.found, first.readings, lib)
    ensures r.1 == UpdatePath(r.0, 0.0, FinalOffset, second.found, second.readings, lib)
    ensures first.found ==>
      r.0.pose == Vision.GetMedianPose(start.vision, 0.33, ApproachOffset, first.readings).pose
      && r.0.path.points == Retargeted(start.path.points, r.0.pose)
    ensures second.found ==>
      r.1.pose == Vision.GetMedianPose(r.0.vision, 0.33, FinalOffset, second.readings).pose
      && r.1.path.points == Retargeted(r.0.path.points, r.1.pose)
    ensures first.found && second.found && |start.path.points| <= 2 ==> RunsToTarget(r.1.path.points, r.1.pose)
  {
    var near := UpdatePath(start, 0.0, ApproachOffset, first.found, first.readings, lib);
    SecondLegKeepsTwoPoints(start, first, second, lib);
    (near, UpdatePath(near, 0.0, FinalOffset, second.found, second.readings, lib))
  }

  /** After both updates of a path with at most two points, the path again has two
      points and ends at the target the second sampling saw. */
  lemma SecondLegKeepsTwoPoints(start: Approach, first: Sampling, second: Sampling, lib: Library)
    requires ValidCurve(start.path.ease)
    requires Usable(first) && Usable(second) && LengthNonNegative(lib)
    ensures var near := UpdatePath(start, 0.0, ApproachOffset, first.found, first.readings, lib);
      var far := UpdatePath(near, 0.0, FinalOffset, second.found, second.readings, lib);
      first.found && second.found && |start.path.points| <= 2 ==> RunsToTarget(far.path.points, far.pose)
  {
    if first.found && second.found && |start.path.points| <= 2 {
      var near := UpdatePath(start, 0.0, ApproachOffset, true, first.readings, lib);
      UpdateKeepsTwoPoints(start, 0.0, ApproachOffset, first.readings, lib);
      UpdateKeepsTwoPoints(near, 0.0, FinalOffset, second.readings, lib);
    }
  }

  /** The first leg, driven from a fresh path, runs from the robot straight to the
      target seen by the first sampling. */
  lemma FirstLegAimsAtTarget(v: Vision.Vision, initialPose: Vision.CameraPose, first: Sampling, lib: Library)
    requires Usable(first) && LengthNonNegative(lib)
    ensures first.found ==>
      var p := UpdatePath(Approach(NewPath(), v.(locked := true), initialPose), 0.0, ApproachOffset,
                          first.found, first.readings, lib).path;
      RunsToTarget(p.points, Vision.GetMedianPose(v, 0.33, ApproachOffset, first.readings).pose)
  {
    if first.found {
      UpdateKeepsTwoPoints(Approach(NewPath(), v.(locked := true), initialPose), 0.0, ApproachOffset, first.readings, lib);
      MedianPoseIgnoresLock(v, 0.33, ApproachOffset, first.readings);
    }
  }

  /** The median pose does not depend on whether the camera was already locked. */
  lemma MedianPoseIgnoresLock(v: Vision.Vision, time: real, offset: real, readings: seq<Vision.Reading>)
    requires |readings| > 0 && Vision.Measurable(readings)
    ensures Vision.GetMedianPose(v.(locked := true), time, offset, readings).pose
         == Vision.GetMedianPose(v, time, offset, readings).pose
  {
  }

  /** The last leg: drive alone, or drive alongside a claw release when picking up. */
  function FinalLeg(path: Path2D, shouldPickup: bool): (a: Action)
    ensures a.DriveWithRelease? <==> shouldPickup
    ensures a.DriveWithRelease? ==> a == DriveWithRelease(path, 0.25, 0.25)
    ensures a.Drive? ==> a == Drive(path, 0.25)
  {
    if shouldPickup then DriveWithRelease(path, 0.25, 0.25) else Drive(path, 0.25)
  }

  /** The lock flag after some prefix of the actions, starting unlocked. */
  function LockedAfter(actions: seq<Action>): bool
    decreases |actions|
  {
    if |actions| == 0 then false
    else if actions[|actions| - 1].SetLocked? then actions[|actions| - 1].value
    else LockedAfter(actions[..|actions| - 1])
  }

  /** The unlock is a plain step, not a `finally`: if the command is cancelled anywhere
      between the lock and the unlock, the camera stays locked; only a run that reaches
      the unlock leaves it unlocked. */
  lemma LockSurvivesCancellation(source: Vision.VisionSource, cameras: Vision.Cameras,
                                 m: Manipulators.Manipulators, initialPose: Vision.CameraPose,
                                 first: Sampling, second: Sampling, lib: Library, k: nat)
    requires cameras.hatchPanel.source == Vision.HatchPanel && cameras.cargo.source == Vision.Cargo
    requires Usable(first) && Usable(second) && LengthNonNegative(lib)
    requires 1 <= k <= 5
    ensures var acts := AlignWithVision(source, cameras, m, initialPose, first, second, lib).actions;
      LockedAfter(acts[..k]) && !LockedAfter(acts)
  {
    var acts := AlignWithVision(source, cameras, m, initialPose, first, second, lib).actions;
    assert acts[..7][..6] == acts[..6];
    assert acts[..6][..5] == acts[..5];
    assert acts[..5][..4] == acts[..4];
    assert acts[..4][..3] == acts[..3];
    assert acts[..3][..2] == acts[..2];
    assert acts[..2][..1] == acts[..1];
    assert acts[..7] == acts;
    assert LockedAfter(acts[..1]);
    assert LockedAfter(acts[..2]);
    assert LockedAfter(acts[..3]);
    assert LockedAfter(acts[..4]);
    assert LockedAfter(acts[..5]);
    assert !LockedAfter(acts[..6]);
  }
}
