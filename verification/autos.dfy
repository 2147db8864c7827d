/** autonomous/Autos.kt and the dispatch in `AutoMode.runAuto`: each autonomous
    routine as the trace of the actions it performs. Paths are named by their group
    in the autonomi document and their name in it; the motion library follows them. */
module Autos {
  import opened Wrappers
  import opened AutoChooser
  import Manipulators
  import Vision

  /** How long a claw release in these routines runs: it finishes once the clock has
      moved more than this many milliseconds past its start. */
  const ReleaseMillis: int := 1500

  /** One step inside a branch of `parallel`. `extraTime` is `None` when the routine
      leaves it to the library's default. */
  datatype Step =
    | Delay(seconds: real)
    | DrivePath(group: string, name: string, extraTime: Option<real>)
    | DriveOpenLoopFor(seconds: real, left: real, right: real)
    | ReleaseClaw(millis: int)

  /** One top-level action of a routine. */
  datatype Action =
    | SetMirrored(mirrored: bool)
    | Run(step: Step)
    | Align(source: Vision.VisionSource)
    | Parallel(first: seq<Step>, second: seq<Step>)
    | LaunchConveyor(seconds: real)

  /** The release condition `Date().time > timeStart + 1500`. */
  predicate ReleaseFinished(startMillis: int, nowMillis: int) {
    nowMillis > startMillis + ReleaseMillis
  }

  /** The release is still running at exactly 1500 ms and finished from 1501 ms on;
      later clock readings never un-finish it. */
  lemma ReleaseDeadline(startMillis: int, a: int, b: int)
    ensures !ReleaseFinished(startMillis, startMillis + ReleaseMillis)
    ensures ReleaseFinished(startMillis, startMillis + ReleaseMillis + 1)
    ensures a <= b && ReleaseFinished(startMillis, a) ==> ReleaseFinished(startMillis, b)
  {
  }

  // ---------------------------------------------------------------------------
  // The routines
  // ---------------------------------------------------------------------------

  /** `releaseHatchPanel`: back away at -0.3 for 1 s after a 0.5 s wait, while the claw
      releases. */
  function ReleaseHatchPanel(): (r: seq<Action>)
    ensures |r| == 1 && r[0].Parallel?
    ensures r[0].second == [ReleaseClaw(ReleaseMillis)]
    ensures |r[0].first| == 2 && r[0].first[0] == Delay(0.5) && r[0].first[1].DriveOpenLoopFor?
  {
    [Parallel([Delay(0.5), DriveOpenLoopFor(1.0, -0.3, -0.3)], [ReleaseClaw(ReleaseMillis)])]
  }

  /** `prepareLoadedCargo`: start the conveyor for 1 s without waiting for it. */
  function PrepareLoadedCargo(): (r: seq<Action>)
    ensures |r| == 1 && r[0].LaunchConveyor?
  {
    [LaunchConveyor(1.0)]
  }

  /** `crossBaseline`: the "8 Foot Straight" path of the "Tests" group. */
  function CrossBaselineRoutine(): (r: seq<Action>)
    ensures |r| == 1 && r[0].Run? && r[0].step.DrivePath? && r[0].step.group == "Tests"
  {
    [Run(DrivePath("Tests", "8 Foot Straight", None))]
  }

  /** The pickup branch: after 0.5 s drive the reverse path while the claw releases. */
  function PickupParallel(reversePath: string, extraTime: real): Action {
    Parallel([Delay(0.5), DrivePath("Paths", reversePath, Some(extraTime))], [ReleaseClaw(ReleaseMillis)])
  }

  /** The paths of the autonomi document are mirrored for a start on the right. */
  function Mirrored(start: StartPosition): bool {
    start.location == Right
  }

  /** The common shape of the level-one routines: drive from the HAB, align with the
      cargo camera, then either the pickup branch or the hatch panel release. */
  function Approach(habPath: string, extraTime: real, pickupBranch: seq<Action>, pickup: bool): (r: seq<Action>)
    ensures |r| >= 2 && r[0] == Run(DrivePath("Paths", habPath, Some(extraTime))) && r[1] == Align(Vision.Cargo)
    ensures pickup ==> r[2..] == pickupBranch
    ensures !pickup ==> r[2..] == ReleaseHatchPanel()
  {
    [Run(DrivePath("Paths", habPath, Some(extraTime))), Align(Vision.Cargo)]
      + (if pickup then pickupBranch else ReleaseHatchPanel())
  }

  function LevelOneToRocketRoutine(start: StartPosition, pickup: bool): seq<Action>
  {
    [SetMirrored(Mirrored(start))]
      + Approach("HAB to Rocket Front", 0.2, [PickupParallel("Rocket Front to Reverse", 0.2)], pickup)
  }

  function LevelOneToCargoSideRoutine(start: StartPosition, gamePiece: Manipulators.GamePiece, pickup: bool): seq<Action>
  {
    [SetMirrored(Mirrored(start))]
      + (if gamePiece == Manipulators.Cargo then PrepareLoadedCargo() else [])
      + Approach("HAB to Cargo Side", 0.1,
          [PickupParallel("Rocket Front to Reverse", 0.1), Run(DrivePath("Paths", "Rocket Reverse to Pickup", Some(0.1)))],
          pickup)
  }

  function LevelOneToCargoFrontRoutine(start: StartPosition, pickup: bool): (r: seq<Action>)
    ensures start.location != Middle <==> r == []
  {
    if start.location != Middle then []
    else
      Approach("HAB to Cargo Front", 0.1,
        [PickupParallel("Cargo Front to Reverse", 0.1), Run(DrivePath("Paths", "Cargo Front Reverse to Pickup", Some(0.1)))],
        pickup)
  }

  /** `runAuto`: calculate the mode from the selection and run its command. */
  function RunAuto(s: Selection): (r: seq<Action>)
    ensures var mode := CalculateAuto(ChosenObjective(s), Start(s));
      (mode == NoAuto || mode == LevelTwoToRocket || mode == LevelTwoToCargoSide) ==> r == []
    ensures ChosenObjective(s) == Baseline ==> r == CrossBaselineRoutine()
    ensures ChosenObjective(s) == RocketFront && Start(s).level == One ==>
      r == LevelOneToRocketRoutine(Start(s), Pickup(s))
    ensures ChosenObjective(s) == CargoSide && Start(s).level == One ==>
      r == LevelOneToCargoSideRoutine(Start(s), ChosenGamePiece(s), Pickup(s))
    ensures ChosenObjective(s) == CargoFront ==> r == LevelOneToCargoFrontRoutine(Start(s), Pickup(s))
  {
    match CalculateAuto(ChosenObjective(s), Start(s))
    case NoAuto => []
    case CrossBaseline => CrossBaselineRoutine()
    case LevelOneToRocket => LevelOneToRocketRoutine(Start(s), Pickup(s))
    case LevelOneToCargoSide => LevelOneToCargoSideRoutine(Start(s), ChosenGamePiece(s), Pickup(s))
    case LevelOneToCargoFront => LevelOneToCargoFrontRoutine(Start(s), Pickup(s))
    case LevelTwoToRocket => []
    case LevelTwoToCargoSide => []
  }

  // ---------------------------------------------------------------------------
  // Reading a trace
  // ---------------------------------------------------------------------------

  /** What a trace does, one event per step, with the branches of a `parallel` read
      first branch first. */
  datatype Event =
    | Mirror(mirrored: bool)
    | Waited(seconds: real)
    | Drove(name: string, extraTime: Option<real>)
    | OpenLoop(seconds: real, left: real, right: real)
    | Released(millis: int)
    | Aligned(source: Vision.VisionSource)
    | Launched(seconds: real)

  function StepEvent(s: Step): Event {
    match s
    case Delay(t) => Waited(t)
    case DrivePath(_, name, extraTime) => Drove(name, extraTime)
    case DriveOpenLoopFor(t, l, r) => OpenLoop(t, l, r)
    case ReleaseClaw(ms) => Released(ms)
  }

  function StepEvents(steps: seq<Step>): (r: seq<Event>)
    ensures |r| == |steps|
    ensures forall i :: 0 <= i < |steps| ==> r[i] == StepEvent(steps[i])
  {
    seq(|steps|, i requires 0 <= i < |steps| => StepEvent(steps[i]))
  }

  function ActionEvents(a: Action): seq<Event> {
    match a
    case SetMirrored(m) => [Mirror(m)]
    case Run(step) => [StepEvent(step)]
    case Align(source) => [Aligned(source)]
    case Parallel(first, second) => StepEvents(first) + StepEvents(second)
    case LaunchConveyor(t) => [Launched(t)]
  }

  function Events(actions: seq<Action>): seq<Event> {
    if |actions| == 0 then [] else ActionEvents(actions[0]) + Events(actions[1..])
  }

  /** Reading distributes over concatenation, so a routine can be read piece by piece. */
  lemma {:induction false} EventsAppend(a: seq<Action>, b: seq<Action>)
    ensures Events(a + b) == Events(a) + Events(b)
    decreases |a|
  {
    if |a| == 0 {
      assert a + b == b;
    } else {
      assert (a + b)[0] == a[0];
      assert (a + b)[1..] == a[1..] + b;
      EventsAppend(a[1..], b);
    }
  }

  lemma Single(a: Action)
    ensures Events([a]) == ActionEvents(a)
  {
    assert [a][1..] == [];
  }

  /** The readings of the building blocks. */
  lemma ReleaseHatchPanelEvents()
    ensures Events(ReleaseHatchPanel()) ==
      [Waited(0.5), OpenLoop(1.0, -0.3, -0.3), Released(ReleaseMillis)]
  {
    Single(ReleaseHatchPanel()[0]);
    assert [ReleaseHatchPanel()[0]] == ReleaseHatchPanel();
  }

  lemma PickupParallelEvents(reversePath: string, extraTime: real)
    ensures Events([PickupParallel(reversePath, extraTime)]) ==
      [Waited(0.5), Drove(reversePath, Some(extraTime)), Released(ReleaseMillis)]
  {
    Single(PickupParallel(reversePath, extraTime));
  }

  lemma PickupBranchEvents(reversePath: string, pickupPath: string)
    ensures Events([PickupParallel(reversePath, 0.1), Run(DrivePath("Paths", pickupPath, Some(0.1)))]) ==
      [Waited(0.5), Drove(reversePath, Some(0.1)), Released(ReleaseMillis), Drove(pickupPath, Some(0.1))]
  {
    var a, b := PickupParallel(reversePath, 0.1), Run(DrivePath("Paths", pickupPath, Some(0.1)));
    PickupParallelEvents(reversePath, 0.1);
    Single(b);
    EventsAppend([a], [b]);
    assert [a] + [b] == [a, b];
  }

  /** A level-one approach drives its HAB path, aligns with the cargo camera, then does
      what the chosen branch does. */
  lemma ApproachEvents(habPath: string, extraTime: real, branch: seq<Action>, pickup: bool)
    ensures Events(Approach(habPath, extraTime, branch, pickup)) ==
      [Drove(habPath, Some(extraTime)), Aligned(Vision.Cargo)]
        + (if pickup then Events(branch) else Events(ReleaseHatchPanel()))
  {
    var d := Run(DrivePath("Paths", habPath, Some(extraTime)));
    var al := Align(Vision.Cargo);
    var rest := if pickup then branch else ReleaseHatchPanel();
    Single(d);
    Single(al);
    EventsAppend([al], rest);
    EventsAppend([d], [al] + rest);
    assert Approach(habPath, extraTime, branch, pickup) == [d] + ([al] + rest);
  }

  // ---------------------------------------------------------------------------
  // What each routine does
  // ---------------------------------------------------------------------------

  /** `crossBaseline` drives the one path and nothing else. */
  lemma CrossBaselineTrace()
    ensures Events(CrossBaselineRoutine()) == [Drove("8 Foot Straight", None)]
  {
    Single(CrossBaselineRoutine()[0]);
    assert [CrossBaselineRoutine()[0]] == CrossBaselineRoutine();
  }

  /** The rocket routine mirrors for a start on the right, drives to the rocket, aligns,
      and then either backs off along the reverse path releasing the hatch panel, or
      releases it and backs off open loop; no pickup path follows. */
  lemma LevelOneToRocketTrace(start: StartPosition, pickup: bool)
    ensures Events(LevelOneToRocketRoutine(start, pickup)) ==
      [Mirror(start.location == Right), Drove("HAB to Rocket Front", Some(0.2)), Aligned(Vision.Cargo)]
        + (if pickup then [Waited(0.5), Drove("Rocket Front to Reverse", Some(0.2)), Released(ReleaseMillis)]
           else [Waited(0.5), OpenLoop(1.0, -0.3, -0.3), Released(ReleaseMillis)])
  {
    var m := SetMirrored(Mirrored(start));
    var branch := [PickupParallel("Rocket Front to Reverse", 0.2)];
    PickupParallelEvents("Rocket Front to Reverse", 0.2);
    ReleaseHatchPanelEvents();
    ApproachEvents("HAB to Rocket Front", 0.2, branch, pickup);
    Single(m);
    EventsAppend([m], Approach("HAB to Rocket Front", 0.2, branch, pickup));
  }

  /** The cargo-side routine mirrors for a start on the right, launches the conveyor
      only when it starts with cargo, drives to the cargo ship's side, aligns, and then
      either drives the reverse and pickup paths or releases in place. */
  lemma LevelOneToCargoSideTrace(start: StartPosition, gamePiece: Manipulators.GamePiece, pickup: bool)
    ensures Events(LevelOneToCargoSideRoutine(start, gamePiece, pickup)) ==
      [Mirror(start.location == Right)]
        + (if gamePiece == Manipulators.Cargo then [Launched(1.0)] else [])
        + [Drove("HAB to Cargo Side", Some(0.1)), Aligned(Vision.Cargo)]
        + (if pickup
           then [Waited(0.5), Drove("Rocket Front to Reverse", Some(0.1)), Released(ReleaseMillis),
                 Drove("Rocket Reverse to Pickup", Some(0.1))]
           else [Waited(0.5), OpenLoop(1.0, -0.3, -0.3), Released(ReleaseMillis)])
  {
    var m := SetMirrored(Mirrored(start));
    var prep := if gamePiece == Manipulators.Cargo then PrepareLoadedCargo() else [];
    var branch := [PickupParallel("Rocket Front to Reverse", 0.1), Run(DrivePath("Paths", "Rocket Reverse to Pickup", Some(0.1)))];
    var body := Approach("HAB to Cargo Side", 0.1, branch, pickup);
    PickupBranchEvents("Rocket Front to Reverse", "Rocket Reverse to Pickup");
    ReleaseHatchPanelEvents();
    ApproachEvents("HAB to Cargo Side", 0.1, branch, pickup);
    Single(m);
    Single(LaunchConveyor(1.0));
    assert Events(prep) == (if gamePiece == Manipulators.Cargo then [Launched(1.0)] else []);
    EventsAppend([m], prep);
    EventsAppend([m] + prep, body);
  }

  /** The cargo-front routine does nothing unless the robot starts in the middle; from
      there it drives to the cargo ship's front, aligns, and then either drives the
      reverse and pickup paths or releases in place. It writes no mirroring flag, so
      whatever an earlier routine left there stays in force. */
  lemma LevelOneToCargoFrontTrace(start: StartPosition, pickup: bool)
    ensures start.location != Middle ==> Events(LevelOneToCargoFrontRoutine(start, pickup)) == []
    ensures start.location == Middle ==>
      (Events(LevelOneToCargoFrontRoutine(start, pickup)) ==
        [Drove("HAB to Cargo Front", Some(0.1)), Aligned(Vision.Cargo)]
          + (if pickup
             then [Waited(0.5), Drove("Cargo Front to Reverse", Some(0.1)), Released(ReleaseMillis),
                   Drove("Cargo Front Reverse to Pickup", Some(0.1))]
             else [Waited(0.5), OpenLoop(1.0, -0.3, -0.3), Released(ReleaseMillis)]))
  {
    if start.location == Middle {
      var branch := [PickupParallel("Cargo Front to Reverse", 0.1), Run(DrivePath("Paths", "Cargo Front Reverse to Pickup", Some(0.1)))];
      PickupBranchEvents("Cargo Front to Reverse", "Cargo Front Reverse to Pickup");
      ReleaseHatchPanelEvents();
      ApproachEvents("HAB to Cargo Front", 0.1, branch, pickup);
    }
  }

  /** The event trace of the rocket routine, as `LevelOneToRocketTrace` states it. */
  function RocketEvents(start: StartPosition, pickup: bool): seq<Event> {
    [Mirror(start.location == Right), Drove("HAB to Rocket Front", Some(0.2)), Aligned(Vision.Cargo)]
      + (if pickup then [Waited(0.5), Drove("Rocket Front to Reverse", Some(0.2)), Released(ReleaseMillis)]
         else [Waited(0.5), OpenLoop(1.0, -0.3, -0.3), Released(ReleaseMillis)])
  }

  /** The event trace of the cargo-side routine, as `LevelOneToCargoSideTrace` states it. */
  function CargoSideEvents(start: StartPosition, gamePiece: Manipulators.GamePiece, pickup: bool): seq<Event> {
    [Mirror(start.location == Right)]
      + (if gamePiece == Manipulators.Cargo then [Launched(1.0)] else [])
      + [Drove("HAB to Cargo Side", Some(0.1)), Aligned(Vision.Cargo)]
      + (if pickup
         then [Waited(0.5), Drove("Rocket Front to Reverse", Some(0.1)), Released(ReleaseMillis),
               Drove("Rocket Reverse to Pickup", Some(0.1))]
         else [Waited(0.5), OpenLoop(1.0, -0.3, -0.3), Released(ReleaseMillis)])
  }

  /** The event trace of the cargo-front routine, as `LevelOneToCargoFrontTrace` states it. */
  function CargoFrontEvents(start: StartPosition, pickup: bool): seq<Event> {
    if start.location != Middle then []
    else
      [Drove("HAB to Cargo Front", Some(0.1)), Aligned(Vision.Cargo)]
        + (if pickup
           then [Waited(0.5), Drove("Cargo Front to Reverse", Some(0.1)), Released(ReleaseMillis),
                 Drove("Cargo Front Reverse to Pickup", Some(0.1))]
           else [Waited(0.5), OpenLoop(1.0, -0.3, -0.3), Released(ReleaseMillis)])
  }

  /** What `runAuto` does for every selection: no objective or a level-two start does
      nothing; the baseline objective (also the default) crosses the baseline; each
      level-one objective runs its routine with the selected start, game piece and
      pickup choice. */
  lemma RunAutoDispatch(s: Selection)
    ensures ChosenObjective(s) == NoObjective ==> Events(RunAuto(s)) == []
    ensures Start(s).level == Two && ChosenObjective(s) in {CargoSide, RocketFront} ==> Events(RunAuto(s)) == []
    ensures ChosenObjective(s) == Baseline ==> Events(RunAuto(s)) == [Drove("8 Foot Straight", None)]
    ensures s == Selection(None, None, None, None) ==> Events(RunAuto(s)) == [Drove("8 Foot Straight", None)]
    ensures ChosenObjective(s) == RocketFront && Start(s).level == One ==>
      Events(RunAuto(s)) == RocketEvents(Start(s), Pickup(s))
    ensures ChosenObjective(s) == CargoSide && Start(s).level == One ==>
      Events(RunAuto(s)) == CargoSideEvents(Start(s), ChosenGamePiece(s), Pickup(s))
    ensures ChosenObjective(s) == CargoFront ==>
      Events(RunAuto(s)) == CargoFrontEvents(Start(s), Pickup(s))
    ensures ChosenObjective(s) == RocketFront && Start(s).level == One && s.constraint.None? ==>
      Events(RunAuto(s)) == [Mirror(Start(s).location == Right), Drove("HAB to Rocket Front", Some(0.2)),
        Aligned(Vision.Cargo), Waited(0.5), Drove("Rocket Front to Reverse", Some(0.2)), Released(ReleaseMillis)]
  {
    CrossBaselineTrace();
    LevelOneToRocketTrace(Start(s), Pickup(s));
    LevelOneToCargoSideTrace(Start(s), ChosenGamePiece(s), Pickup(s));
    LevelOneToCargoFrontTrace(Start(s), Pickup(s));
  }
}
