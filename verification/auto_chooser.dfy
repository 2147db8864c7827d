/** autonomous/AutoChooser.kt: the dashboard choosers and the table that turns the
    selected objective and start position into an autonomous mode. What the drivers
    selected is an input; the choosers' fall-backs apply when nothing is selected. */
module AutoChooser {
  import opened Wrappers
  import Manipulators

  datatype Location = Left | Middle | Right
  datatype Level = One | Two
  datatype Objective = NoObjective | Baseline | CargoFront | CargoSide | RocketFront
  datatype Constraint = NoConstraint | NoPickup

  /** `AutoMode`, without its command (see `Autos.RunAuto`). */
  datatype AutoMode =
    | NoAuto
    | CrossBaseline
    | LevelOneToRocket
    | LevelOneToCargoSide
    | LevelOneToCargoFront
    | LevelTwoToRocket
    | LevelTwoToCargoSide

  datatype StartPosition = StartPosition(location: Location, level: Level)

  /** The enum constants' `name`s. */
  function LocationName(l: Location): string {
    match l
    case Left => "LEFT"
    case Middle => "MIDDLE"
    case Right => "RIGHT"
  }

  function LevelName(l: Level): string {
    match l
    case One => "ONE"
    case Two => "TWO"
  }

  /** `StartPosition.name`: the location's name, then the level's name in
      parentheses after "Level ". */
  function StartName(s: StartPosition): (r: string)
    ensures |r| == |LocationName(s.location)| + 9 + |LevelName(s.level)|
    ensures r[|r| - 1] == ')'
  {
    LocationName(s.location) + " (Level " + LevelName(s.level) + ")"
  }

  /** Reads a start position back from its name by trying each one in turn. */
  function ParseStartName(n: string): Option<StartPosition> {
    if n == "LEFT (Level ONE)" then Some(StartPosition(Left, One))
    else if n == "LEFT (Level TWO)" then Some(StartPosition(Left, Two))
    else if n == "MIDDLE (Level ONE)" then Some(StartPosition(Middle, One))
    else if n == "MIDDLE (Level TWO)" then Some(StartPosition(Middle, Two))
    else if n == "RIGHT (Level ONE)" then Some(StartPosition(Right, One))
    else if n == "RIGHT (Level TWO)" then Some(StartPosition(Right, Two))
    else None
  }

  /** The name identifies the start position: reading it back gives the position, so
      two positions never share a name. */
  lemma StartNameRoundTrip(s: StartPosition)
    ensures ParseStartName(StartName(s)) == Some(s)
  {
    var n := StartName(s);
    match s
    case StartPosition(Left, One) => assert n == "LEFT (Level ONE)";
    case StartPosition(Left, Two) => assert n == "LEFT (Level TWO)";
    case StartPosition(Middle, One) => assert n == "MIDDLE (Level ONE)";
    case StartPosition(Middle, Two) => assert n == "MIDDLE (Level TWO)";
    case StartPosition(Right, One) => assert n == "RIGHT (Level ONE)";
    case StartPosition(Right, Two) => assert n == "RIGHT (Level TWO)";
  }

  lemma StartNameInjective(a: StartPosition, b: StartPosition)
    requires StartName(a) == StartName(b)
    ensures a == b
  {
    StartNameRoundTrip(a);
    StartNameRoundTrip(b);
  }

  /** The start positions the start chooser offers, in the order it lists them. */
  const StartOptions: seq<(string, StartPosition)> := [
    ("Middle (Level 1)", StartPosition(Middle, One)),
    ("Left (Level 1)", StartPosition(Left, One)),
    ("Right (Level 1)", StartPosition(Right, One)),
    ("Left (Level 2)", StartPosition(Left, Two)),
    ("Right (Level 2)", StartPosition(Right, Two))
  ]

  /** What the four choosers currently hold; `None` when nothing is selected. */
  datatype Selection = Selection(
    start: Option<StartPosition>,
    objective: Option<Objective>,
    constraint: Option<Constraint>,
    gamePiece: Option<Manipulators.GamePiece>)

  function Start(s: Selection): (r: StartPosition)
    ensures s.start.None? ==> r == StartPosition(Middle, One)
    ensures s.start.Some? ==> r == s.start.value
  {
    s.start.GetOr(StartPosition(Middle, One))
  }

  function ChosenObjective(s: Selection): (r: Objective)
    ensures s.objective.None? ==> r == Baseline
    ensures s.objective.Some? ==> r == s.objective.value
  {
    s.objective.GetOr(Baseline)
  }

  function ChosenConstraint(s: Selection): (r: Constraint)
    ensures s.constraint.None? ==> r == NoConstraint
    ensures s.constraint.Some? ==> r == s.constraint.value
  {
    s.constraint.GetOr(NoConstraint)
  }

  function ChosenGamePiece(s: Selection): (r: Manipulators.GamePiece)
    ensures s.gamePiece.None? ==> r == Manipulators.HatchPanel
    ensures s.gamePiece.Some? ==> r == s.gamePiece.value
  {
    s.gamePiece.GetOr(Manipulators.HatchPanel)
  }

  /** The fall-back start position is the first one the chooser offers. */
  lemma DefaultStartIsOffered()
    ensures Start(Selection(None, None, None, None)) == StartOptions[0].1
    ensures forall i :: 0 <= i < |StartOptions| ==> StartOptions[i].1 != StartPosition(Middle, Two)
  {
  }

  /** The `pickup` argument the level-one modes pass. */
  function Pickup(s: Selection): (r: bool)
    ensures r <==> ChosenConstraint(s) != NoPickup
    ensures s.constraint.None? ==> r
  {
    ChosenConstraint(s) != NoPickup
  }

  /** `calculateAuto`: by objective, and for the cargo side and the rocket by the start
      level. */
  function CalculateAuto(objective: Objective, start: StartPosition): (m: AutoMode)
    ensures objective == NoObjective <==> m == NoAuto
    ensures objective == Baseline <==> m == CrossBaseline
    ensures objective == CargoFront <==> m == LevelOneToCargoFront
    ensures m == LevelTwoToRocket || m == LevelTwoToCargoSide
      <==> start.level == Two && (objective == CargoSide || objective == RocketFront)
  {
    match objective
    case NoObjective => NoAuto
    case Baseline => CrossBaseline
    case CargoFront => LevelOneToCargoFront
    case CargoSide => (match start.level case One => LevelOneToCargoSide case Two => LevelTwoToCargoSide)
    case RocketFront => (match start.level case One => LevelOneToRocket case Two => LevelTwoToRocket)
  }

  /** The objective a mode serves. */
  function ObjectiveOf(m: AutoMode): Objective {
    match m
    case NoAuto => NoObjective
    case CrossBaseline => Baseline
    case LevelOneToCargoFront => CargoFront
    case LevelOneToCargoSide | LevelTwoToCargoSide => CargoSide
    case LevelOneToRocket | LevelTwoToRocket => RocketFront
  }

  /** The level a mode is written for; the baseline and cargo-front modes run from any. */
  function LevelOf(m: AutoMode): Option<Level> {
    match m
    case LevelOneToRocket | LevelOneToCargoSide => Some(One)
    case LevelTwoToRocket | LevelTwoToCargoSide => Some(Two)
    case _ => None
  }

  /** The chosen mode serves the chosen objective, and a mode tied to a level is only
      chosen from that level. */
  lemma CalculateAutoServesObjective(objective: Objective, start: StartPosition)
    ensures ObjectiveOf(CalculateAuto(objective, start)) == objective
    ensures LevelOf(CalculateAuto(objective, start)).Some? ==>
      LevelOf(CalculateAuto(objective, start)).value == start.level
    ensures LevelOf(CalculateAuto(objective, start)).None? <==>
      objective == NoObjective || objective == Baseline || objective == CargoFront
  {
  }

  /** With nothing selected the robot crosses the baseline. */
  lemma DefaultsCrossBaseline()
    ensures var s := Selection(None, None, None, None);
      CalculateAuto(ChosenObjective(s), Start(s)) == CrossBaseline
  {
  }
}
