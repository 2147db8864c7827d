# DeepSpace 2019 robot logic in Dafny

This project models the decision logic of the 2019 FRC robot code of the South Eugene
Robotics Team. It covers five areas:

- **Path editing and vision retargeting.**
  - The checked `Path2D` extensions `addPointToEnd`, `addEasePointToEnd`,
    `updateEndpoint` and `updateEaseEndpoint`.
  - The `alignWithVision` manoeuvre. Its `updatePath` step rebuilds a two-point path
    and a two-key ease curve from a sampled camera pose.
- **Median pose sampling.**
  - `Vision.getMedianPose`, which reads one sample per timer tick into four lists and
    returns the median of each.
  - `median` and `timer` from `Util.kt`.
- **Arithmetic helpers.** `remap`, `tol`, unit conversion, encoder tick/feet
  conversion, servo inversion and angle clamping, the teleop lift speed modifier, and
  the lift's top-limit output rule.
- **Decision tables.**
  - The autonomous chooser and `calculateAuto`.
  - The autonomous routines, written as traces of drive, align and release actions.
  - The LED priority, the game-piece priority and the release dispatch.
  - The lift state selection.
- **Small actuator state machines.**
  - The "write the solenoid only on change" setters of the claw, bucket and intake.
    Each season snapshot of these files has its own module.
  - The climber leg locks and the drivetrain's `followingPath` flag.
  - The cargo-detected interrupts, written as discrete events.
  - The telemetry binding registry.

The model is functional:

- Subsystem state is an immutable record. Each setter or command is a pure function
  from the old record to the new one.
- Solenoid writes are kept as the sequence of values written (`Actuators.Latched`).
  "Nothing is written" is then a statement about that sequence.
- Loops over periodic ticks take the finite sequence of sensor readings the ticks would
  see. The `timer` helper takes a sequence of clock readings.
- The motion library's `Path2D` is an abstract record: control points, ease keys with
  head/tail key references, and a duration. Its `length` and `getDerivative` are
  supplied as functions, with the length non-negative.
- All arithmetic is on exact reals. π is a positive parameter. The trigonometric pose
  transform is reduced to its sine and cosine values, which are inputs.

Module layout follows the source files. `Actuators` holds the motor command, the
double-solenoid value and the change-only setter that every subsystem uses.
`Wrappers` holds `Option`, which stands for Kotlin's nullable values.

Three points where the code does less than its names suggest:

- **Samples are not filtered.** `getMedianPose` records a sample on every timer tick
  whether or not the target is `found`. `Vision.MedianPoseIgnoresFound` proves the
  flag plays no part.
- **The vision lock is cleared only on normal completion.** `alignWithVision` clears it
  as a plain statement after the second retarget, not in a `finally`. A manoeuvre cut
  short leaves the camera locked (`DrivetrainCommands.LockSurvivesCancellation`).
- **A lost target does not abort the manoeuvre.** When the target is never found,
  `updatePath` returns without change and the robot still drives the (empty) path. It
  does not exit early.
Other points about the code that the model keeps:

- **Two `hasCargo` latches exist.** The one in `Manipulators` is set by the interrupt
  only while the robot is enabled and the conveyor runs. The one in `GamePiece` is set
  unconditionally. Opening the bucket clears only the `GamePiece` latch.
- **Two game-piece enums exist.** `GamePiece.kt` declares its own internal enum and priority getter, which the model keeps as `GamePieceSensors.Piece`. The lift, the chooser and the routines use the top-level enum of `Manipulators.kt`.
- **The LED order differs from the game-piece order.** The LED strip checks cargo before
  the hatch panel. `currentGamePiece` checks the hatch panel first.
- **The lift zeroes its encoder when it leaves the bottom switch.** The interrupt is
  set up for the rising edge of the switch's input line, and that line is high while
  the switch is open. The conveyor switch, wired the same way, uses the falling edge
  for cargo arriving.
- **Chooser labels differ from start names.** The start chooser's labels read
  "Middle (Level 1)". `StartPosition.name` reads "MIDDLE (Level ONE)". The model
  states the second.

## Model

| member | source | states |
|---|---|---|
| Paths.AddPointToEnd | src/main/kotlin/org/sert2521/deepspace/util/Paths.kt:5-32 | The call throws exactly when the arguments are not one of the legal shapes, and then the path is untouched. Otherwise exactly one point is appended, carrying the tangent kind the arguments select, and the ease curve and duration are unchanged. |
| Paths.LegalPointArgsCharacterised | src/main/kotlin/org/sert2521/deepspace/util/Paths.kt:14-18 | The "exactly one legal shape" test holds iff the four optionals are all absent, or angle and magnitude are both present, or both tangents are present, and not both pairs at once. |
| Paths.RejectedShapes | src/main/kotlin/org/sert2521/deepspace/util/Paths.kt:14-23 | A lone angle, a lone magnitude, a lone x tangent, and both full pairs together are each rejected. |
| Paths.StrayHalfIgnored | src/main/kotlin/org/sert2521/deepspace/util/Paths.kt:14-31 | A full pair beside a stray half of the other pair is accepted. The full pair decides the point's kind, and angle/magnitude wins over tangents. |
| Paths.PointKindOf | src/main/kotlin/org/sert2521/deepspace/util/Paths.kt:25-31 | Angle and magnitude give an angle-and-magnitude point. Otherwise both tangents give a tangent point. Otherwise the point is plain. |
| Paths.AddEasePointToEnd | src/main/kotlin/org/sert2521/deepspace/util/Paths.kt:34-57 | The call throws iff exactly one of slope and magnitude is given, and then the path is untouched. Otherwise the key at that time is the new key with the matching kind, keys at other times are kept, the points and duration are unchanged, and the curve stays well formed. |
| Paths.GetKey | src/main/kotlin/org/sert2521/deepspace/util/Paths.kt:52-55 | The key lookup by time finds a key with that time, and none exists after it. It returns nothing iff no key has that time. |
| Paths.StoreKey | src/main/kotlin/org/sert2521/deepspace/util/Paths.kt:52-55 | Storing a key makes it the one found at its time and keeps every key at another time. It replaces an existing key at that time and leaves the head/tail references alone. Otherwise it appends the key, makes it the tail, and makes it the head too when the curve had none. |
| Paths.RemoveKey | src/main/kotlin/org/sert2521/deepspace/util/Paths.kt:84-86 | Removing a key shifts the later keys down by one, leaves no key at the removed time, and keeps the head and tail references on the same keys when those keys survive. A reference to the removed key becomes absent. |
| Paths.UpdateEndpoint | src/main/kotlin/org/sert2521/deepspace/util/Paths.kt:59-75 | An empty curve throws at once and is left unchanged. Otherwise the tail point is dropped only when it is not also the head (at least two points), and then a point is appended. A one-point curve grows to two points and a longer curve keeps its count, with the new point last and the points before it kept. Illegal arguments throw after the tail is already gone. |
| Paths.UpdateEndpointIdempotent | src/main/kotlin/org/sert2521/deepspace/util/Paths.kt:69-74 | On a curve with a point, replacing the endpoint twice with the same legal arguments gives the same points as doing it once. |
| Paths.UpdateEndpointOnEmptyPathFails | src/main/kotlin/org/sert2521/deepspace/util/Paths.kt:67-74 | On an empty curve the tail lookup fails, so the call throws and adds nothing. On a one-point curve the head is also the tail, so it is kept and the curve grows to two points. |
| Paths.UpdateEaseEndpoint | src/main/kotlin/org/sert2521/deepspace/util/Paths.kt:77-89 | When the tail key differs from the head key, the tail key is removed first, and the removal stays even when the arguments are then rejected: a rejected call leaves one key fewer, and none at the old tail's time unless the new time equals it. When head and tail coincide, a rejected call changes nothing. A legal call stores a key at the new time with the given value and the shape the arguments select. Every other key at another time survives, and the points and duration are untouched. |
| Paths.WithoutKeepsUniqueTimes | src/main/kotlin/org/sert2521/deepspace/util/Paths.kt:84-86 | Removing a key keeps key times distinct, and none of the remaining keys has the removed time. |
| DrivetrainCommands.LiftModifier | src/main/kotlin/org/sert2521/deepspace/drivetrain/DrivetrainCommands.kt:34 | Remapping 1 − position/HIGH from 0..1 onto 0.25..1 is the linear rule 0.25 + 0.75·(1 − position/HIGH). |
| DrivetrainCommands.LiftModifierRange | src/main/kotlin/org/sert2521/deepspace/drivetrain/DrivetrainCommands.kt:34 | The modifier is 1 with the lift at zero, 0.25 at the HIGH position, and between 0.25 and 1 in between. |
| DrivetrainCommands.TeleopLiftModifier | src/main/kotlin/org/sert2521/deepspace/drivetrain/DrivetrainCommands.kt:34 | Using the HIGH state for the held game piece, the modifier is full speed at the bottom and a quarter at HIGH. |
| DrivetrainCommands.Retrace | src/main/kotlin/org/sert2521/deepspace/drivetrain/DrivetrainCommands.kt:81-85 | Head and tail points are removed, then (0, 0) with angle 0 and the target point are appended, both with magnitude y/3. The ease curve and duration are untouched. |
| DrivetrainCommands.Retargeted | src/main/kotlin/org/sert2521/deepspace/drivetrain/DrivetrainCommands.kt:72-85 | The retargeted curve ends with the origin point, then the point at (x/12, y/12) in feet from the pose's inch distances. |
| DrivetrainCommands.Rekey | src/main/kotlin/org/sert2521/deepspace/drivetrain/DrivetrainCommands.kt:89-95 | The tail key is the end key (value 1, slope 0) at the duration. When the start time differs, the head key is the start key (value 0, the given slope). When the times coincide, head and tail are the same key. The duration is set and the curve stays well formed. |
| DrivetrainCommands.NewDuration | src/main/kotlin/org/sert2521/deepspace/drivetrain/DrivetrainCommands.kt:79-87 | A non-zero old duration is kept. A zero one becomes length/4 + 1, which is at least 1, so the duration is never zero afterwards. |
| DrivetrainCommands.UpdatePath | src/main/kotlin/org/sert2521/deepspace/drivetrain/DrivetrainCommands.kt:66-108 | With the target not found, path, pose and camera are unchanged. When it is found: the camera is locked; the pose is the median pose; the points are retargeted to that pose; the duration follows the fallback rule; the tail key is the end key; and the head key carries the ease slope read before any edit. |
| DrivetrainCommands.Refit | src/main/kotlin/org/sert2521/deepspace/drivetrain/DrivetrainCommands.kt:72-95 | From a sampled pose: the same point, duration and key guarantees as the update. |
| DrivetrainCommands.UpdateKeepsTwoPoints | src/main/kotlin/org/sert2521/deepspace/drivetrain/DrivetrainCommands.kt:81-85 | On a path with at most two points, an update leaves exactly the origin and the target point. |
| DrivetrainCommands.UpdateRepeatsPoints | src/main/kotlin/org/sert2521/deepspace/drivetrain/DrivetrainCommands.kt:81-85 | Updating twice from the same readings gives the same points as updating once. |
| DrivetrainCommands.FinalLeg | src/main/kotlin/org/sert2521/deepspace/drivetrain/DrivetrainCommands.kt:118-124 | The last drive runs alongside a claw release (0.25 s delay, 0.25 s extra time) exactly when a pickup is wanted; otherwise it is a plain drive with 0.25 s extra time. |
| DrivetrainCommands.Legs | src/main/kotlin/org/sert2521/deepspace/drivetrain/DrivetrainCommands.kt:110-114 | The first leg is `updatePath` at 44 in and the second is `updatePath` at 19 in from the first leg's result. A step that finds nothing leaves the approach as it was. A step that finds the target takes the median pose of its own camera state and re-points the path at it. Starting from at most two points, two found steps leave two points from the robot to the second pose. The camera never changes source, and a locked camera stays locked. |
| DrivetrainCommands.AlignWithVision | src/main/kotlin/org/sert2521/deepspace/drivetrain/DrivetrainCommands.kt:51-127 | The action sequence is: lock, wait 0.2 s, retarget at offset 44, drive (0.1 s extra), retarget at offset 19, unlock, final drive. The first drive follows the first leg's path. When the first sampling finds the target, that path runs from the robot to the median pose seen at 44 in. The final drive follows the second leg's path and includes the release iff no game piece was held at entry. With nothing found the path stays empty and the pose is the first one read. |
| DrivetrainCommands.FirstLegAimsAtTarget | src/main/kotlin/org/sert2521/deepspace/drivetrain/DrivetrainCommands.kt:70-85 | From a fresh path, a found target gives two points: the robot's origin and the target's position in feet. |
| DrivetrainCommands.SecondLegKeepsTwoPoints | src/main/kotlin/org/sert2521/deepspace/drivetrain/DrivetrainCommands.kt:110-114 | After both found updates of a path with at most two points, the path again runs from the robot to the second pose. |
| DrivetrainCommands.MedianPoseIgnoresLock | src/main/kotlin/org/sert2521/deepspace/drivetrain/DrivetrainCommands.kt:70 | Locking the camera before sampling does not change the median pose. |
| DrivetrainCommands.LockSurvivesCancellation | src/main/kotlin/org/sert2521/deepspace/drivetrain/DrivetrainCommands.kt:57-116 | Cut off after any of the first five actions, the manoeuvre leaves the camera locked. Completed, it leaves it unlocked. |
| Vision.TablePath | src/main/kotlin/org/sert2521/deepspace/util/Vision.kt:14-16 | The hatch-panel camera publishes under "hatch" and the cargo camera under "cargo". |
| Vision.Pose | src/main/kotlin/org/sert2521/deepspace/util/Vision.kt:67-98 | The live pose uses the default offset (the camera-to-centre distance). Its angles are passed through. |
| Vision.XDistance | src/main/kotlin/org/sert2521/deepspace/util/Vision.kt:77-86 | sin·(hyp − offset) with hyp = x/sin reduces to x − offset·sin. |
| Vision.YDistance | src/main/kotlin/org/sert2521/deepspace/util/Vision.kt:94-98 | y − cos·hyp + cos·(hyp − offset) + 13.25 reduces to y − offset·cos + 13.25. |
| Vision.Collect | src/main/kotlin/org/sert2521/deepspace/util/Vision.kt:119-129 | Each tick appends exactly one value to each of the four lists, so the lists have equal length, one entry per reading, in order. |
| Vision.GetMedianPose | src/main/kotlin/org/sert2521/deepspace/util/Vision.kt:112-137 | Sampling sets the lock and never clears it. The number of samples is the number of timer ticks. Each field of the result is the median of its own list and lies between that list's least and greatest value. |
| Vision.MedianPoseIgnoresFound | src/main/kotlin/org/sert2521/deepspace/util/Vision.kt:124-129 | Readings that differ only in `found` give the same median pose: nothing is filtered. |
| Vision.MedianPoseIgnoresLaterReadings | src/main/kotlin/org/sert2521/deepspace/util/Vision.kt:124 | Once a reading reaches the sampling time, readings after it play no part. |
| Vision.MedianPoseOfSteadyReadings | src/main/kotlin/org/sert2521/deepspace/util/Vision.kt:131-136 | When the camera reports the same values on every tick, the median pose is the pose of those values, field by field. |
| Vision.NewCameras | src/main/kotlin/org/sert2521/deepspace/util/Vision.kt:149-152 | There is one camera per source, and each starts unlocked. |
| Vision.GetFromSource | src/main/kotlin/org/sert2521/deepspace/util/Vision.kt:160-163 | The camera returned for a source is the one with that source. |
| Vision.SetLight | src/main/kotlin/org/sert2521/deepspace/util/Vision.kt:154-158 | The light flag stores the value and drives the output with its negation. |
| Vision.SetLightInverts | src/main/kotlin/org/sert2521/deepspace/util/Vision.kt:154-158 | After any sequence of assignments the flag is the last value and the output its negation. |
| Util.FirstTrue | src/main/kotlin/org/sert2521/deepspace/util/Util.kt:38 | The first index whose stop condition holds, with every earlier one false; nothing when none holds. |
| Util.TicksUntil | src/main/kotlin/org/sert2521/deepspace/util/Util.kt:33-39 | The periodic body runs on every tick up to and including the first stopping tick. It runs at least once when any tick exists, and on all ticks when none stops. |
| Util.TicksUntilCharacterised | src/main/kotlin/org/sert2521/deepspace/util/Util.kt:33-39 | Any count with those properties is the tick count: the stop rule determines it uniquely. |
| Util.RunTimer | src/main/kotlin/org/sert2521/deepspace/util/Util.kt:24-40 | Each tick reads the clock twice, once for the body's argument and once for the stop test. The body runs up to and including the first tick whose stop reading is at or past `time`, with that tick's first reading. When the readings alternate on one clock, every call before the last saw a reading below `time`. |
| Util.TimerLastArgumentMayFallShort | src/main/kotlin/org/sert2521/deepspace/util/Util.kt:36-38 | The last call's argument can be below `time`: the clock can pass `time` between the body's reading and the stop test's. |
| Util.TimerTicksCharacterised | src/main/kotlin/org/sert2521/deepspace/util/Util.kt:33-39 | Any count with the timer's stop properties equals the timer's tick count. |
| Util.TimerStopsOnceReached | src/main/kotlin/org/sert2521/deepspace/util/Util.kt:38 | On a non-decreasing clock the timer stops no later than the first reading past `time`, and every reading from its last call on is past `time`. |
| Util.AttachPeriodic | src/main/kotlin/org/sert2521/deepspace/util/Util.kt:34 | The scope records the first periodic scope it sees and keeps it afterwards. |
| Util.TimerScopePeriodIsZero | src/main/kotlin/org/sert2521/deepspace/util/Util.kt:9-12 | `period` is fixed when the scope is built, before any periodic scope exists, so it stays 0 whatever is attached later. |
| Util.Sort | src/main/kotlin/org/sert2521/deepspace/util/Util.kt:47 | The sorted list is ordered and a permutation of the input. |
| Util.SortIsTheSortedPermutation | src/main/kotlin/org/sert2521/deepspace/util/Util.kt:47 | Any ordered permutation of a list is its sorted list. |
| Util.Median | src/main/kotlin/org/sert2521/deepspace/util/Util.kt:47-49 | The median fails (no value) exactly on the empty list, where the index access fails. |
| Util.MedianOdd | src/main/kotlin/org/sert2521/deepspace/util/Util.kt:47-49 | For an odd-length list the median is the middle element of any ordered permutation of it. |
| Util.MedianEven | src/main/kotlin/org/sert2521/deepspace/util/Util.kt:47-49 | For an even-length list the median is the mean of the two middle elements of any ordered permutation. |
| Util.MedianPermutationInvariant | src/main/kotlin/org/sert2521/deepspace/util/Util.kt:47-49 | Reordering the list does not change its median. |
| Util.MedianBounds | src/main/kotlin/org/sert2521/deepspace/util/Util.kt:47-49 | The median of a non-empty list lies between its minimum and maximum. |
| Util.MedianSingleton | src/main/kotlin/org/sert2521/deepspace/util/Util.kt:47-49 | The median of one value is that value. |
| Util.Remap | src/main/kotlin/org/sert2521/deepspace/util/Util.kt:74-75 | The start of the from-range maps to the start of the to-range and its end to the end. |
| Util.RemapProportional | src/main/kotlin/org/sert2521/deepspace/util/Util.kt:74-75 | The offset into the to-range is proportional to the offset into the from-range, with the ratio of the two widths. |
| Util.RemapEndpoints | src/main/kotlin/org/sert2521/deepspace/util/Util.kt:74-75 | The from-range's start maps to the to-range's start and its end to the to-range's end. |
| Util.RemapInverse | src/main/kotlin/org/sert2521/deepspace/util/Util.kt:74-75 | Re-mapping back from the target range returns the original number. |
| Util.RemapInRange | src/main/kotlin/org/sert2521/deepspace/util/Util.kt:74-75 | A value inside an increasing from-range lands inside the to-range. |
| Util.TolInt | src/main/kotlin/org/sert2521/deepspace/util/Util.kt:56 | Each end of the `Int` range is the 32-bit result of `x - error` or `x + error`, wrapped modulo 2^32. When neither overflows, the range holds exactly the values within `error` of the centre. |
| Util.Tol | src/main/kotlin/org/sert2521/deepspace/util/Util.kt:63 | The real tolerance range holds exactly the values within `error` of the centre. |
| Util.TolContainsCentre | src/main/kotlin/org/sert2521/deepspace/util/Util.kt:56-63 | The centre lies in its tolerance range iff the error is non-negative. For `Int` this holds when neither end overflows. |
| Util.TolIntOverflowEmpty | src/main/kotlin/org/sert2521/deepspace/util/Util.kt:56 | `Int.MAX_VALUE tol 1` wraps to the empty range from `MAX_VALUE - 1` to `MIN_VALUE`, which does not contain its centre. |
| Units.Convert | src/main/kotlin/org/sert2521/deepspace/util/Units.kt:16-17 | Converting zero gives zero. The units must share a dimension. |
| Units.ConvertSameUnit | src/main/kotlin/org/sert2521/deepspace/util/Units.kt:16-17 | Converting between a unit and itself returns the number unchanged. |
| Units.ConvertKeepsSign | src/main/kotlin/org/sert2521/deepspace/util/Units.kt:16-24 | With positive factors, positive numbers stay positive and negative ones negative. |
| Units.ConvertAdditive | src/main/kotlin/org/sert2521/deepspace/util/Units.kt:16-17 | Conversion distributes over addition. |
| Units.ConvertInverse | src/main/kotlin/org/sert2521/deepspace/util/Units.kt:16-17 | Scaling the converted number by the reverse ratio returns the original. |
| Units.DeclaredFactorsPositive | src/main/kotlin/org/sert2521/deepspace/util/Units.kt:19-24 | Every declared unit (m, inch, et, rad, deg) has a positive factor. |
| Units.DeclaredConversions | src/main/kotlin/org/sert2521/deepspace/util/Units.kt:16-24 | One metre is 39.3701 inches, and 180 degrees is π radians. |
| Servo.Set | src/main/kotlin/org/sert2521/deepspace/util/Servo.kt:14-17 | The primary receives 1 − v when inverted and v otherwise. Every follower receives the same value, inverted by the follower flag. |
| Servo.DefaultFlagsPassThrough | src/main/kotlin/org/sert2521/deepspace/util/Servo.kt:11-17 | With both flags at their default, every servo receives v unchanged. |
| Servo.InversionInvolutive | src/main/kotlin/org/sert2521/deepspace/util/Servo.kt:14-17 | On a fully inverted servo group, setting 1 − v puts v on every servo. |
| Servo.SetKeepsUnitRange | src/main/kotlin/org/sert2521/deepspace/util/Servo.kt:14-17 | A value in [0, 1] reaches every servo still in [0, 1]. |
| Servo.ClampAngle | src/main/kotlin/org/sert2521/deepspace/util/Servo.kt:20-24 | The angle is clamped to [0, 180]: below 0 gives 0, above 180 gives 180, and angles inside pass through. |
| Servo.AngleToValue | src/main/kotlin/org/sert2521/deepspace/util/Servo.kt:26 | The normalised angle lies in [0, 1]. |
| Servo.SetAngle | src/main/kotlin/org/sert2521/deepspace/util/Servo.kt:19-27 | Setting an angle sets the normalised angle, so the primary stays within [0, 1]. |
| Servo.SetAngleClamps | src/main/kotlin/org/sert2521/deepspace/util/Servo.kt:20-24 | Any angle below 0 acts as 0 and any above 180 acts as 180. |
| Servo.AngleToValueInverse | src/main/kotlin/org/sert2521/deepspace/util/Servo.kt:26 | Inside the travel, the value times 180 gives back the angle, and the map keeps order. |
| Drivetrain.TicksToFeet | src/main/kotlin/org/sert2521/deepspace/drivetrain/Drivetrain.kt:103-104 | With 4096 ticks per turn and a 6-inch wheel, t ticks are t·π/8192 feet. |
| Drivetrain.FeetToTicks | src/main/kotlin/org/sert2521/deepspace/drivetrain/Drivetrain.kt:106-107 | f feet are 8192·f/π ticks. |
| Drivetrain.TicksFeetRoundTrip | src/main/kotlin/org/sert2521/deepspace/drivetrain/Drivetrain.kt:103-107 | Over exact reals, converting ticks to feet and back returns the ticks. |
| Drivetrain.TicksToFeetShape | src/main/kotlin/org/sert2521/deepspace/drivetrain/Drivetrain.kt:103-104 | One revolution is π/2 feet, zero ticks are zero feet, and the conversion is strictly increasing. |
| Drivetrain.Initial | src/main/kotlin/org/sert2521/deepspace/drivetrain/Drivetrain.kt:55-92 | The drivetrain starts with zeroed encoders and gyro, not following a path. |
| Drivetrain.ZeroEncoders | src/main/kotlin/org/sert2521/deepspace/drivetrain/Drivetrain.kt:94-97 | Both encoder positions become 0 and nothing else changes. |
| Drivetrain.Average | src/main/kotlin/org/sert2521/deepspace/drivetrain/Drivetrain.kt:61-67 | The mean is equidistant from both sides and lies between them. |
| Drivetrain.Speed | src/main/kotlin/org/sert2521/deepspace/drivetrain/Drivetrain.kt:61 | The speed is the mean of the two side speeds. |
| Drivetrain.Distance | src/main/kotlin/org/sert2521/deepspace/drivetrain/Drivetrain.kt:67 | The distance is the mean of the two side distances. |
| Drivetrain.DriveOpenLoop | src/main/kotlin/org/sert2521/deepspace/drivetrain/Drivetrain.kt:109-112 | Each side receives its power unchanged, and nothing else changes. |
| Drivetrain.StartFollowing | src/main/kotlin/org/sert2521/deepspace/drivetrain/Drivetrain.kt:124-129 | Following begins with both encoders and the gyro zeroed, so the distance is 0, and the flag is set. Nothing else changes. |
| Drivetrain.StopFollowing | src/main/kotlin/org/sert2521/deepspace/drivetrain/Drivetrain.kt:131-133 | Only the following flag changes, to false. |
| Drivetrain.FollowCycle | src/main/kotlin/org/sert2521/deepspace/drivetrain/Drivetrain.kt:124-133 | Starting then stopping path following returns the flag to false and leaves only the zeroed sensors changed. |
| AutoChooser.StartName | src/main/kotlin/org/sert2521/deepspace/autonomous/AutoChooser.kt:32-34 | The name has the shape `<LOCATION> (Level <LEVEL>)`: it ends in a closing parenthesis and is nine characters longer than the two enum names together. |
| AutoChooser.StartNameRoundTrip | src/main/kotlin/org/sert2521/deepspace/autonomous/AutoChooser.kt:33 | The start position can be read back from its name. |
| AutoChooser.StartNameInjective | src/main/kotlin/org/sert2521/deepspace/autonomous/AutoChooser.kt:33 | Distinct start positions have distinct names. |
| AutoChooser.Start | src/main/kotlin/org/sert2521/deepspace/autonomous/AutoChooser.kt:76 | With no start selected, the start is the middle at level one. |
| AutoChooser.ChosenObjective | src/main/kotlin/org/sert2521/deepspace/autonomous/AutoChooser.kt:77 | With no objective selected, the objective is the baseline. |
| AutoChooser.ChosenConstraint | src/main/kotlin/org/sert2521/deepspace/autonomous/AutoChooser.kt:78 | With no constraint selected, there is none. |
| AutoChooser.ChosenGamePiece | src/main/kotlin/org/sert2521/deepspace/autonomous/AutoChooser.kt:79 | With no game piece selected, it is the hatch panel. |
| AutoChooser.DefaultStartIsOffered | src/main/kotlin/org/sert2521/deepspace/autonomous/AutoChooser.kt:53-76 | The default start is the chooser's first option, and the middle at level two is never offered. |
| AutoChooser.Pickup | src/main/kotlin/org/sert2521/deepspace/autonomous/AutoChooser.kt:25-27 | The level-one routines pick up iff the constraint is not "no pickup", so they pick up when nothing is chosen. |
| AutoChooser.CalculateAuto | src/main/kotlin/org/sert2521/deepspace/autonomous/AutoChooser.kt:81-93 | No objective gives no auto, the baseline gives the baseline crossing, and the cargo front gives the level-one cargo-front routine, each as an iff. A level-two routine is chosen iff the objective is the cargo side or the rocket front and the start is at level two. |
| AutoChooser.CalculateAutoServesObjective | src/main/kotlin/org/sert2521/deepspace/autonomous/AutoChooser.kt:81-93 | The chosen mode always serves the chosen objective. Its level, where it has one, is the start's level, and only the cargo-front routine ignores the level. |
| AutoChooser.DefaultsCrossBaseline | src/main/kotlin/org/sert2521/deepspace/autonomous/AutoChooser.kt:76-83 | With nothing selected, the robot crosses the baseline. |
| Autos.ReleaseDeadline | src/main/kotlin/org/sert2521/deepspace/autonomous/Autos.kt:33-34 | The release stops only once strictly more than 1500 ms have passed, and then stays stopped. |
| Autos.ReleaseHatchPanel | src/main/kotlin/org/sert2521/deepspace/autonomous/Autos.kt:26-36 | One branch waits 0.5 s and backs off open loop. The other releases the claw for 1500 ms. |
| Autos.Approach | src/main/kotlin/org/sert2521/deepspace/autonomous/Autos.kt:60-76 | A level-one routine drives its HAB path, aligns on the cargo camera, then runs the pickup branch or the hatch-panel release. |
| Autos.LevelOneToCargoFrontRoutine | src/main/kotlin/org/sert2521/deepspace/autonomous/Autos.kt:112-116 | The cargo-front routine does nothing iff the start is not the middle. |
| Autos.EventsAppend | src/main/kotlin/org/sert2521/deepspace/autonomous/Autos.kt:44-139 | The trace of two action sequences run in turn is the first trace followed by the second. |
| Autos.CrossBaselineTrace | src/main/kotlin/org/sert2521/deepspace/autonomous/Autos.kt:44-52 | Crossing the baseline drives exactly the "8 Foot Straight" path of the "Tests" group, with the default extra time. |
| Autos.LevelOneToRocketTrace | src/main/kotlin/org/sert2521/deepspace/autonomous/Autos.kt:54-80 | The rocket routine mirrors iff the start is on the right, drives to the rocket front, and aligns. With pickup it backs off along the reverse path while releasing; no pickup path follows. Without pickup it releases the hatch panel. |
| Autos.LevelOneToCargoSideTrace | src/main/kotlin/org/sert2521/deepspace/autonomous/Autos.kt:82-110 | The cargo-side routine mirrors for a right start and launches the conveyor iff it starts with cargo. It drives and aligns, then either drives the reverse and pickup paths or releases the hatch panel. |
| Autos.LevelOneToCargoFrontTrace | src/main/kotlin/org/sert2521/deepspace/autonomous/Autos.kt:112-139 | Off the middle the routine has no actions. From the middle it drives to the cargo front and aligns, then takes the pickup branch (reverse path, then pickup path) or releases. It never mirrors. |
| Autos.RunAuto | src/main/kotlin/org/sert2521/deepspace/autonomous/AutoChooser.kt:95-105 | No auto and both level-two modes perform no action. The baseline objective runs the baseline routine. Level-one rocket and cargo-side runs, and every cargo-front run, run their routine with the chosen start, game piece and pickup flag. |
| Autos.RunAutoDispatch | src/main/kotlin/org/sert2521/deepspace/autonomous/AutoChooser.kt:76-104 | The trace of every selection: none with no objective or a level-two rocket or cargo-side run; one 8-foot drive for the baseline objective or an empty selection; and the full rocket, cargo-side and cargo-front traces for the level-one runs. |
| Climber.StatePosition | src/main/kotlin/org/sert2521/deepspace/climber/Climber.kt:16-20 | Only the UP position is negative and only LEVEL_3 lies above one foot. |
| Climber.LockPosition | src/main/kotlin/org/sert2521/deepspace/climber/Climber.kt:56-68 | A lock servo is commanded to the locked position iff locked, and to the unlocked position otherwise. |
| Climber.SetFrontLocked | src/main/kotlin/org/sert2521/deepspace/climber/Climber.kt:56-61 | The front flag is stored and its servo pair commanded to match. Nothing else changes. |
| Climber.SetRearLocked | src/main/kotlin/org/sert2521/deepspace/climber/Climber.kt:63-68 | The rear flag is stored and its servo pair commanded to match. Nothing else changes. |
| Climber.SetLocked | src/main/kotlin/org/sert2521/deepspace/climber/Climber.kt:70-75 | Setting `locked` sets both leg locks, and reading it gives their conjunction. |
| Climber.Initial | src/main/kotlin/org/sert2521/deepspace/climber/Climber.kt:89 | The climber starts locked, with the servos matching the flags. |
| Climber.SetFrontSpeed | src/main/kotlin/org/sert2521/deepspace/climber/Climber.kt:94-101 | A non-positive speed unlocks the front leg only. A positive speed leaves both locks alone. The front motor gets the speed. |
| Climber.SetRearSpeed | src/main/kotlin/org/sert2521/deepspace/climber/Climber.kt:103-110 | The mirror of the front: a non-positive speed unlocks the rear only. |
| Climber.StopClimber | src/main/kotlin/org/sert2521/deepspace/climber/Climber.kt:112-119 | Stopping locks both legs, commands both servo pairs to the locked position, and stops both leg motors. |
| Climber.Reset | src/main/kotlin/org/sert2521/deepspace/climber/Climber.kt:119 | Resetting leaves the climber locked, with each servo pair commanded to match its flag. |
| Climber.LockedServoOutputs | src/main/kotlin/org/sert2521/deepspace/climber/Climber.kt:36-89 | Locked from the start, the front servo receives 0 and its inverted follower 1. Both rear servos are inverted and receive 1. |
| Climber.OperationsKeepServosAgreeing | src/main/kotlin/org/sert2521/deepspace/climber/Climber.kt:56-117 | Every operation keeps each servo pair commanded to match its lock flag. |
| Climber.RetractUnlocks | src/main/kotlin/org/sert2521/deepspace/climber/Climber.kt:94-117 | From locked, extending both legs keeps the climber locked, retracting either unlocks it, and stopping locks it again. |
| Climber.OverStepThreshold | src/main/kotlin/org/sert2521/deepspace/climber/Climber.kt:53-54 | The over-step flag is set iff the LiDAR average exceeds 800. |
| Climber.DriveOpenLoop | src/main/kotlin/org/sert2521/deepspace/climber/Climber.kt:130-132 | The climber drive runs at the drive speed, negated when reversed. |
| Climber.DriveDirectionsOpposite | src/main/kotlin/org/sert2521/deepspace/climber/Climber.kt:130-132 | Reverse is exactly the negation of forward, and forward is positive. |
| Lift.Piece | src/main/kotlin/org/sert2521/deepspace/lift/Lift.kt:18-27 | The three hatch states are exactly the hatch-panel states. Every state names a game piece. |
| Lift.Position | src/main/kotlin/org/sert2521/deepspace/lift/Lift.kt:32-36 | A state's position is its height minus the offset of its game piece. |
| Lift.LevelsOrdered | src/main/kotlin/org/sert2521/deepspace/lift/Lift.kt:19-36 | Hatch positions rise LOW < MIDDLE < HIGH, and cargo positions rise LOW < SHIP < MIDDLE < HIGH. |
| Lift.Low | src/main/kotlin/org/sert2521/deepspace/lift/Lift.kt:42 | LOW is the hatch variant iff a hatch panel is held. |
| Lift.Middle | src/main/kotlin/org/sert2521/deepspace/lift/Lift.kt:43 | MIDDLE is the hatch variant iff a hatch panel is held. |
| Lift.High | src/main/kotlin/org/sert2521/deepspace/lift/Lift.kt:44 | HIGH is the hatch variant iff a hatch panel is held. |
| Lift.SelectionOrdered | src/main/kotlin/org/sert2521/deepspace/lift/Lift.kt:39-44 | The selected LOW, MIDDLE and HIGH rise in order. Without a hatch panel HIGH is TOP, and with one LOW is BOTTOM. |
| Lift.Step | src/main/kotlin/org/sert2521/deepspace/lift/Lift.kt:85-108 | An encoder movement sets the position. A switch reading records `atBottom`, and zeroes the position exactly on a rising edge of the switch's input line, which happens when the lift leaves the pressed switch. Every other reading leaves the position alone. |
| Lift.HeldSwitchDoesNotRezero | src/main/kotlin/org/sert2521/deepspace/lift/Lift.kt:102-108 | Without a release of the switch nothing is zeroed. Switch readings alone leave the position unchanged, and a lift at the bottom stays there. |
| Lift.PressKeepsReleaseZeroes | src/main/kotlin/org/sert2521/deepspace/lift/Lift.kt:102-108 | Pressing the switch never zeroes the encoder. Releasing a pressed switch zeroes it whatever it read, and a release reading on an open switch changes nothing. |
| LiftCommands.Output | src/main/kotlin/org/sert2521/deepspace/lift/LiftCommands.kt:12-16 | Below the top the speed passes through. At the top, a non-negative request becomes 0.04 and a downward one passes, so the output there never exceeds 0.04. |
| LiftCommands.ManualControl | src/main/kotlin/org/sert2521/deepspace/lift/LiftCommands.kt:9-21 | One command per tick, the scaled joystick through the top rule, then a stop on exit. |
| LiftCommands.PassThroughBelowTop | src/main/kotlin/org/sert2521/deepspace/lift/LiftCommands.kt:12-16 | Away from the top each tick commands the scaled joystick, so with the scalar at one the joystick reaches the motor unchanged. |
| LiftCommands.NeverDrivenPastTop | src/main/kotlin/org/sert2521/deepspace/lift/LiftCommands.kt:14-16 | No tick at the top commands more than the holding output. |
| Manipulators.Initial | src/main/kotlin/org/sert2521/deepspace/manipulators/Manipulators.kt:30-39 | The cargo latch starts clear and the compressor starts enabled. |
| Manipulators.CurrentGamePiece | src/main/kotlin/org/sert2521/deepspace/manipulators/Manipulators.kt:32-37 | The hatch panel wins over cargo. With neither held, there is none. |
| Manipulators.SetCompressorEnabled | src/main/kotlin/org/sert2521/deepspace/manipulators/Manipulators.kt:39-48 | The flag stores the value, starting the compressor on true and stopping it on false. |
| Manipulators.ConveyorInterrupt | src/main/kotlin/org/sert2521/deepspace/manipulators/Manipulators.kt:59-65 | The interrupt sets the latch and closes the bucket only while enabled with the conveyor running. Otherwise nothing changes. |
| Manipulators.InterruptOutcome | src/main/kotlin/org/sert2521/deepspace/manipulators/Manipulators.kt:32-65 | After a firing interrupt the bucket is closed and a game piece is held, with the hatch panel still first. |
| Manipulators.BucketLeavesLatchAlone | src/main/kotlin/org/sert2521/deepspace/manipulators/bucket/Bucket.kt:15-24 | Any bucket assignment, opening included, leaves this object's cargo latch set: the bucket clears the sensor object's latch instead. |
| ManipulatorCommands.ReleaseCurrent | src/main/kotlin/org/sert2521/deepspace/manipulators/ManipulatorCommands.kt:18-21 | The bucket opens iff the current piece is cargo. A hatch panel or nothing leads to a claw release. |
| ManipulatorCommands.IntakeCargo | src/main/kotlin/org/sert2521/deepspace/manipulators/ManipulatorCommands.kt:23-53 | The intake is lowered first and raised on every exit. The loop ends at the first tick with cargo in the conveyor and the lift off the bottom. Without extra time, roller and conveyor stop. |
| ConveyorCommands.StopFlags | src/main/kotlin/org/sert2521/deepspace/manipulators/conveyor/ConveyorCommands.kt:16 | A tick stops the loop iff cargo is in the conveyor and the lift is not at the bottom. |
| ConveyorCommands.Run | src/main/kotlin/org/sert2521/deepspace/manipulators/conveyor/ConveyorCommands.kt:12-32 | Each tick drives the conveyor. The loop stops at the first stopping tick, and stops because of the sensor iff cargo arrives. On exit the conveyor is stopped unless a follow-up job is handed the extra time. |
| GamePieceSensors.Initial | src/main/kotlin/org/sert2521/deepspace/manipulators/GamePiece.kt:17-20 | The cargo latch starts clear and the switches are read as given. |
| GamePieceSensors.CurrentGamePiece | src/main/kotlin/org/sert2521/deepspace/manipulators/GamePiece.kt:22-27 | Priority is hatch panel, then cargo, then none. |
| GamePieceSensors.Step | src/main/kotlin/org/sert2521/deepspace/manipulators/GamePiece.kt:17-39 | The conveyor interrupt sets the latch unconditionally, and switch changes touch only the switch readings. |
| GamePieceSensors.HasCargoLatches | src/main/kotlin/org/sert2521/deepspace/manipulators/GamePiece.kt:20-39 | Without an outside clear, the latch is set after a run iff it was set before or an interrupt occurred: nothing in the file clears it. |
| GamePieceSensors.InterruptAlwaysLatches | src/main/kotlin/org/sert2521/deepspace/manipulators/GamePiece.kt:35-39 | After the interrupt a game piece is always held. |
| Bucket.Position | src/main/kotlin/org/sert2521/deepspace/manipulators/bucket/Bucket.kt:9-11 | OPEN is kReverse and CLOSED is kForward. |
| Bucket.Initial | src/main/kotlin/org/sert2521/deepspace/manipulators/bucket/Bucket.kt:15 | The bucket starts OPEN with no solenoid write. |
| Bucket.SetState | src/main/kotlin/org/sert2521/deepspace/manipulators/bucket/Bucket.kt:15-24 | Re-assigning the current state changes nothing. A change writes the new state's value once. A change to OPEN clears the cargo latch, and CLOSED leaves it alone. |
| Bucket.Default | src/main/kotlin/org/sert2521/deepspace/manipulators/bucket/Bucket.kt:26-28 | The default command closes the bucket. |
| Bucket.OpenMeansNoCargo | src/main/kotlin/org/sert2521/deepspace/manipulators/bucket/Bucket.kt:17-22 | If an open bucket implies no cargo beforehand, no cargo is latched after opening. |
| Bucket.CloseThenOpenWrites | src/main/kotlin/org/sert2521/deepspace/manipulators/bucket/Bucket.kt:15-28 | From the start, closing then opening writes exactly kForward then kReverse. |
| Bucket.SetStateTracks | src/main/kotlin/org/sert2521/deepspace/manipulators/bucket/Bucket.kt:16-24 | The last solenoid write always matches the stored state. |
| Claw.Position | src/main/kotlin/org/sert2521/deepspace/manipulators/claw/Claw.kt:7-9 | CLAMPED is kReverse and RELEASED is kForward. |
| Claw.Initial | src/main/kotlin/org/sert2521/deepspace/manipulators/claw/Claw.kt:14 | The claw starts CLAMPED with no write. |
| Claw.SetState | src/main/kotlin/org/sert2521/deepspace/manipulators/claw/Claw.kt:14-21 | Re-assigning the current state writes nothing. A change writes the new state's value once. |
| Claw.Default | src/main/kotlin/org/sert2521/deepspace/manipulators/claw/Claw.kt:23-25 | The default command clamps, with at most one write. |
| Claw.ReleaseThenDefault | src/main/kotlin/org/sert2521/deepspace/manipulators/claw/Claw.kt:14-25 | Releasing then defaulting from the start writes kForward then kReverse. |
| Claw.WritesCountChanges | src/main/kotlin/org/sert2521/deepspace/manipulators/claw/Claw.kt:16-20 | Any sequence of assignments writes once per actual change, and the last write matches the state. |
| LegacyClaw.Initial | src/main/kotlin/org/sert2521/deepspace/claw/Claw.kt:15-26 | The claw starts CLAMPED, and `hasHatchPanel` is the switch reading. |
| LegacyClaw.Clamp | src/main/kotlin/org/sert2521/deepspace/claw/Claw.kt:17-30 | Clamping yields CLAMPED and writes kReverse only when the claw was released. |
| LegacyClaw.Release | src/main/kotlin/org/sert2521/deepspace/claw/Claw.kt:17-34 | Releasing yields RELEASED and writes kForward only when the claw was clamped. |
| LegacyClaw.Default | src/main/kotlin/org/sert2521/deepspace/claw/Claw.kt:36 | The default command clamps, with at most one kReverse write. |
| LegacyClaw.RepeatsWriteNothing | src/main/kotlin/org/sert2521/deepspace/claw/Claw.kt:17-34 | Clamping or releasing twice is the same as doing it once. From a clamped claw, releasing then clamping writes kForward then kReverse and ends clamped. |
| LegacyClaw.OperationsKeepTracking | src/main/kotlin/org/sert2521/deepspace/claw/Claw.kt:17-34 | The last write always matches the stored state. |
| Intake.Position | src/main/kotlin/org/sert2521/deepspace/manipulators/intake/Intake.kt:9-11 | LOWERED is kReverse and RAISED is kForward. |
| Intake.Initial | src/main/kotlin/org/sert2521/deepspace/manipulators/intake/Intake.kt:23 | The intake starts RAISED with the roller idle. |
| Intake.SetState | src/main/kotlin/org/sert2521/deepspace/manipulators/intake/Intake.kt:23-30 | The solenoid is written only on a change, and the roller is untouched. |
| Intake.Spin | src/main/kotlin/org/sert2521/deepspace/manipulators/intake/Intake.kt:32-34 | Spinning sets the roller speed and leaves the arm alone. |
| Intake.Stop | src/main/kotlin/org/sert2521/deepspace/manipulators/intake/Intake.kt:36-38 | Stopping stops the roller and leaves the arm alone. |
| Intake.IntakeCycle | src/main/kotlin/org/sert2521/deepspace/manipulators/intake/Intake.kt:23-38 | Lowering, spinning, raising and stopping from the start writes kReverse then kForward and ends stopped. |
| Intake.MotorCommandsKeepTracking | src/main/kotlin/org/sert2521/deepspace/manipulators/intake/Intake.kt:23-38 | The last write matches the arm state through every operation. |
| LegacyIntake.Initial | src/main/kotlin/org/sert2521/deepspace/intake/Intake.kt:17 | The intake starts RAISED. |
| LegacyIntake.IntakeCargo | src/main/kotlin/org/sert2521/deepspace/intake/Intake.kt:26-29 | Intaking lowers the arm (kReverse, only on a change) and runs the roller. |
| LegacyIntake.Stop | src/main/kotlin/org/sert2521/deepspace/intake/Intake.kt:31-34 | Stopping raises the arm (kForward, only on a change) and stops the roller. |
| LegacyIntake.IntakeThenStop | src/main/kotlin/org/sert2521/deepspace/intake/Intake.kt:17-34 | Intaking then stopping ends raised with the roller stopped. From raised it writes kReverse then kForward. From lowered it is the same as the stop alone. |
| CargoHolder.SelectedValue | src/main/kotlin/org/sert2521/deepspace/cargoholder/Bucket.kt:19-22 | BLOCKED selects kForward and OPEN selects kReverse. |
| CargoHolder.Initial | src/main/kotlin/org/sert2521/deepspace/cargoholder/Bucket.kt:15 | The holder starts BLOCKED. |
| CargoHolder.SetStateAsWritten | src/main/kotlin/org/sert2521/deepspace/cargoholder/Bucket.kt:16-24 | The setter as written stores the state but writes nothing to the solenoid. |
| CargoHolder.NeverCommanded | src/main/kotlin/org/sert2521/deepspace/cargoholder/Bucket.kt:16-30 | As written, no sequence of assignments ever commands the solenoid. |
| CargoHolder.SetState | src/main/kotlin/org/sert2521/deepspace/cargoholder/Bucket.kt:16-24 | The corrected setter returns early on no change, and otherwise writes the selected value once. |
| CargoHolder.HoldBall | src/main/kotlin/org/sert2521/deepspace/cargoholder/Bucket.kt:25-27 | Holding yields BLOCKED, and writes kForward only when the holder was open. |
| CargoHolder.ReleaseBall | src/main/kotlin/org/sert2521/deepspace/cargoholder/Bucket.kt:28-30 | Releasing yields OPEN, and writes kReverse only when the holder was blocked. |
| CargoHolder.IntendedWritesEachChange | src/main/kotlin/org/sert2521/deepspace/cargoholder/Bucket.kt:16-24 | With the corrected setter, every change writes once and the last write matches the state. |
| CargoHolder.ReleaseFromStart | src/main/kotlin/org/sert2521/deepspace/cargoholder/Bucket.kt:15-30 | Releasing from the start writes nothing as written, but kReverse once as intended. |
| Lights.Rem | src/main/kotlin/org/sert2521/deepspace/lights/Lights.kt:15 | The truncating remainder has the sign of the dividend and is below the modulus in size. It is the identity inside [0, 360). |
| Lights.ColorMap | src/main/kotlin/org/sert2521/deepspace/lights/Lights.kt:14-16 | For hues in [0, 360) the value is hue/360·0.8 + 0.2. Every non-negative hue maps into [0.2, 1). |
| Lights.ColorMapPeriodic | src/main/kotlin/org/sert2521/deepspace/lights/Lights.kt:14-16 | Hues one turn apart give the same value. A negative hue can fall below 0.2. |
| Lights.Value | src/main/kotlin/org/sert2521/deepspace/lights/Lights.kt:18-21 | RED is 0.15 and BLUE is 0.05. The hue modes all lie in [0.2, 1). |
| Lights.ValueIdentifiesMode | src/main/kotlin/org/sert2521/deepspace/lights/Lights.kt:18-21 | The five modes send five distinct values. |
| Lights.RunLights | src/main/kotlin/org/sert2521/deepspace/lights/Lights.kt:23-39 | The mode is chosen in priority order: TARGETING iff either camera is locked, then HAS_BALL for cargo, HAS_HATCH for a hatch panel, RED for the red alliance, and BLUE otherwise. Exactly one mode is chosen. |
| Lights.CargoShownBeforeHatch | src/main/kotlin/org/sert2521/deepspace/lights/Lights.kt:27-32 | With both pieces sensed the strip shows cargo while the current game piece is the hatch panel. |
| Telemetry.NewTelemetry | src/main/kotlin/org/sert2521/deepspace/util/Telemetry.kt:54-57 | A new telemetry object has its name and no bindings. |
| Telemetry.Add | src/main/kotlin/org/sert2521/deepspace/util/Telemetry.kt:80 | One binding is appended at the end, and the rest are kept. |
| Telemetry.Remove | src/main/kotlin/org/sert2521/deepspace/util/Telemetry.kt:87 | Exactly the bindings with other names remain, each as many times as it was registered. |
| Telemetry.WithoutKeepsCounts | src/main/kotlin/org/sert2521/deepspace/util/Telemetry.kt:87 | `removeIf` keeps every binding of another name with its multiplicity. |
| Telemetry.WithoutKeepsOrder | src/main/kotlin/org/sert2521/deepspace/util/Telemetry.kt:87 | The remaining bindings keep their order. |
| Telemetry.RemoveUndoesAdd | src/main/kotlin/org/sert2521/deepspace/util/Telemetry.kt:80-87 | Removing a fresh name just added restores the bindings. |
| Telemetry.Tick | src/main/kotlin/org/sert2521/deepspace/util/Telemetry.kt:72 | A tick publishes every binding once, in registration order. |
| Telemetry.TickAfterAdd | src/main/kotlin/org/sert2521/deepspace/util/Telemetry.kt:72-80 | After an add, a tick publishes the old values and then the new one. |
| Telemetry.UpperChar | src/main/kotlin/org/sert2521/deepspace/util/Telemetry.kt:103 | Lower-case ASCII letters are raised and other characters kept. The result is never lower case. |
| Telemetry.ToUpper | src/main/kotlin/org/sert2521/deepspace/util/Telemetry.kt:103 | Upper-casing keeps the length and raises each character on its own. |
| Telemetry.ToUpperIdempotent | src/main/kotlin/org/sert2521/deepspace/util/Telemetry.kt:103 | Upper-casing twice is the same as once. |
| Telemetry.SetStatus | src/main/kotlin/org/sert2521/deepspace/util/Telemetry.kt:102-106 | The box text is the upper-cased status text, or "<name> <state>" when none is given. The colours come from the state. |
| Telemetry.NominalLiftStatus | src/main/kotlin/org/sert2521/deepspace/util/Telemetry.kt:102-106 | A nominal status without text on the "Lift" telemetry shows "LIFT NOMINAL" on green with black text. |
| Telemetry.LaunchTelemetry | src/main/kotlin/org/sert2521/deepspace/util/Telemetry.kt:129-132 | The job starts only when none exists. |
| Telemetry.LaunchIdempotent | src/main/kotlin/org/sert2521/deepspace/util/Telemetry.kt:129-132 | Launching twice is the same as launching once. |
| Telemetry.Construct | src/main/kotlin/org/sert2521/deepspace/util/Telemetry.kt:119-123 | Each telemetry object registers itself and ensures the job runs. |
| Telemetry.ConstructAllLaunchesOnce | src/main/kotlin/org/sert2521/deepspace/util/Telemetry.kt:119-132 | Constructing any number of objects registers them all in order and launches at most one job. |
| Actuators.Assign | src/main/kotlin/org/sert2521/deepspace/manipulators/claw/Claw.kt:14-21 | The change-only setter stores the value, and writes the value's position once exactly when it differs from the stored state. |
| Actuators.AssignIdempotent | src/main/kotlin/org/sert2521/deepspace/manipulators/claw/Claw.kt:16 | Assigning the same value twice is the same as once. |
| Actuators.AssignAllWrites | src/main/kotlin/org/sert2521/deepspace/manipulators/claw/Claw.kt:14-21 | Over any sequence of assignments, the number of writes is the number of changes and the last write matches the state. |

## Left out

- I/O and dashboards are not modelled: NetworkTables reads and writes, SmartDashboard, logging and `println`. Readings become inputs, and published values become returned sequences.
- Coroutine scheduling is not modelled: `periodic`, `use`, `parallel`, `delay`, `suspendUntil`, GlobalScope launches and cancellation races. Only their sequential effects are kept. The follow-up job after `extraTime` is recorded as handed over, not run. Parallel branches are traced first branch first.
- Hardware interrupts are discrete events applied between ticks, not concurrent handlers.
- The trigonometric pose transform is reduced to its inputs. `sin` and `cos` of the summed angles are read with each reading, because real trigonometry is not available on exact reals.
- The motion library is not part of this model. Spline evaluation, `length`, `getDerivative`, `driveAlongPath`, `hybridDrive`, `MotionCurve` and the autonomi document belong to it. Length and derivative are supplied functions; driving a path is an action.
- The rest of teleop drive is left out: `hybridDrive`, `deadband` and the drive speed scalar, because they are motion-library or driver-station calls. Only the lift modifier is modelled.
- `Lift.calculateOptimalTime`, `followMotionCurve` and `elevateTo` are left out: they need a square root and the motion library.
- The climber leg positions (`Math.pow` formulas) are left out: they are non-polynomial floating-point maths.
- `fade` and `format` in `Util.kt` are left out: float-to-int colour conversion and string formatting.
- `Drivetrain.driveClosedLoop`, `coast` and `brake` are left out: they only forward to the motor controller's configuration.
- The autonomi loader and its network-table listener in `AutoChooser.kt` are left out: they are file and JSON I/O.
- Constants from `Constants.kt` and `ClimberConstants.kt` are used with their values. The definitions of `HATCH_PANEL_OFFSET`, `CARGO_OFFSET`, `ROLLER_SPEED`, the conveyor speed and `liftSpeedScalar` are not part of this model, so those are parameters. π is a positive parameter.
- `Vision.alive` is the constant true, so the liveness check never short-circuits. `lastUpdate` and the FPGA clock are not modelled.
- `Vision.getMedianPose` keeps the default sampling interval. The interval only spaces the clock readings, and those are inputs.
- Double-precision rounding is not modelled: all arithmetic is on exact reals. `Lights.colorMap`'s `%` is modelled as the truncating remainder Kotlin uses.
- The dispatch in `runAuto` reads each chooser once. The source re-reads the getters between logging and dispatch; the model takes one snapshot of the selection.
- The drivetrain's `followingPath` flag is cleared by the motion library when a path ends. The claw release after the final drive of `alignWithVision` ends at that moment; it is recorded as one action with the path and its delays.
- `driveAlongPath`'s default extra time (crossing the baseline) is recorded as absent, because its value lives in the motion library.
- Command files that only acquire resources or call members not present in the sources are left out: the claw, bucket, intake, climber and game-piece command files.
- Paths.StoreKey: assumes that the library appends a new key as the curve's tail (and as its head on an empty curve) whatever its time, and that a replaced key keeps its place. The library's source is not part of this model, so its time ordering of keys is not modelled.
- Paths.RemoveKey: assumes that removing a key clears any head or tail reference to it and leaves the other references on their keys. The library may instead move the reference to a neighbouring key; its source is not part of this model.
- Paths.GetKey: assumes the library's key lookup returns the most recently stored key with that time, because the library's source is not part of this model.
- Util.RunTimer: does not promise that the last call's argument has reached `time`. The source reads the clock once for the body and again for the stop test, and only the second reading is compared (`Util.TimerLastArgumentMayFallShort`).
- Lift.Step: assumes that `setUpSourceEdge` refers to the input line itself, which reads high while the switch is open, so the encoder is zeroed as the lift leaves the bottom switch. This follows from `invert()` only flipping `get()` and from the conveyor switch, inverted the same way, using the falling edge for cargo arriving. The definition of `invert()` is not part of this model; if it also inverted the interrupt line, zeroing would happen on the press instead.
- Lift.HeldSwitchDoesNotRezero: rests on the same edge assumption as `Lift.Step`.
- Lift.PressKeepsReleaseZeroes: rests on the same edge assumption as `Lift.Step`.
- Util.TolContainsCentre: the `Int` half is stated only when neither end of the range overflows. At `Int.MAX_VALUE tol 1` the source's range is empty although the error is positive (`Util.TolIntOverflowEmpty`).
- Util.Median: returns no value for an empty list, where the source throws an index exception.
- Util.Remap: requires a non-empty from-range. Kotlin would divide by zero and return an infinity or NaN, which exact reals cannot express.
- Units.Convert: requires a non-zero source factor, for the same reason.
- DrivetrainCommands.TeleopLiftModifier: requires a non-zero HIGH position, for the same reason.
- Vision.XDistance: requires a non-zero sine of the summed angles, because `hyp` divides by it.
- Vision.YDistance: requires a non-zero sine of the summed angles, for the same reason.
- Vision.Pose: requires a non-zero sine of the summed angles, for the same reason.
- Vision.GetMedianPose: requires every sampled reading to have a non-zero sine of its summed angles, for the same reason.
- Telemetry.UpperChar: raises ASCII letters only. Kotlin's `toUpperCase` also maps other letters by locale.
- The lambda overload of `Telemetry.setStatus` is left out. It re-evaluates the same formula on every dashboard read, and that read is I/O.

## Findings

| source | as written | input that shows it | evidently intended | confidence | as-written member | corrected member |
|---|---|---|---|---|---|---|
| src/main/kotlin/org/sert2521/deepspace/cargoholder/Bucket.kt:16-24 | The setter evaluates a `when` that selects the solenoid value for the new state, discards it, and stores the state. The solenoid is never set. | `releaseBall()` from the initial BLOCKED state: the state becomes OPEN and no value is written. | Pass the selected value to the solenoid on each change, as every other subsystem's setter does (kForward for BLOCKED, kReverse for OPEN). | not executed | CargoHolder.NeverCommanded | CargoHolder.IntendedWritesEachChange |
