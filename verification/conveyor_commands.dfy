/** manipulators/conveyor/ConveyorCommands.kt: `Conveyor.run` drives the conveyor every
    tick until cargo reaches the conveyor switch while the lift is off the bottom, then
    (in a `finally`, so also on cancellation) stops it or hands it to a follow-up job. */
module ConveyorCommands {
  import opened Wrappers
  import opened Actuators
  import Util

  /** What a tick of the loop reads: the conveyor switch and the lift's bottom switch. */
  datatype Tick = Tick(hasCargoInConveyor: bool, atBottom: bool)

  /** The loop's stop condition, `hasCargoInConveyor && !Lift.atBottom`, per tick. */
  function StopFlags(ticks: seq<Tick>): (stop: seq<bool>)
    ensures |stop| == |ticks|
    ensures forall i :: 0 <= i < |ticks| ==> (stop[i] <==> ticks[i].hasCargoInConveyor && !ticks[i].atBottom)
  {
    seq(|ticks|, i requires 0 <= i < |ticks| => ticks[i].hasCargoInConveyor && !ticks[i].atBottom)
  }

  /** Whether the loop reached its stop condition among the ticks it was offered. */
  predicate CargoArrives(ticks: seq<Tick>) {
    exists i :: 0 <= i < |ticks| && ticks[i].hasCargoInConveyor && !ticks[i].atBottom
  }

  /** How a run ended: the conveyor's last command, the ticks run, whether the stop
      condition ended the loop (rather than cancellation after the offered ticks), and
      the follow-up job's duration if one was launched. */
  datatype ConveyorRun = ConveyorRun(conveyor: MotorCommand, ticksRun: nat, stoppedBySensor: bool, followUp: Option<real>)

  /** `Conveyor.run(extraTime)` over the ticks that occur before any cancellation, with
      `CONVEYOR_SPEED` as a parameter. The follow-up job itself is not modelled: it is
      reported, and the conveyor keeps its last command until that job runs. */
  method Run(conveyor: MotorCommand, ticks: seq<Tick>, extraTime: Option<real>, conveyorSpeed: real)
    returns (r: ConveyorRun)
    ensures r.ticksRun == Util.TicksUntil(StopFlags(ticks))
    ensures 0 < |ticks| ==> 0 < r.ticksRun
    ensures r.stoppedBySensor <==> CargoArrives(ticks)
    ensures r.followUp == extraTime
    ensures extraTime.None? ==> r.conveyor == Stopped
    ensures extraTime.Some? && r.ticksRun > 0 ==> r.conveyor == Percent(conveyorSpeed)
    ensures extraTime.Some? && r.ticksRun == 0 ==> r.conveyor == conveyor
  {
    var stop := StopFlags(ticks);
    var motor := conveyor;
    var i := 0;
    var stopped := false;
    while i < |ticks| && !stopped
      invariant 0 <= i <= |ticks|
      invariant forall k :: 0 <= k < i - 1 ==> !stop[k]
      invariant stopped <==> i > 0 && stop[i - 1]
      invariant i > 0 ==> motor == Percent(conveyorSpeed)
      invariant i == 0 ==> motor == conveyor
    {
      motor := Percent(conveyorSpeed);
      stopped := ticks[i].hasCargoInConveyor && !ticks[i].atBottom;
      i := i + 1;
    }
    Util.TicksUntilCharacterised(stop, i);
    assert stopped <==> CargoArrives(ticks) by {
      if CargoArrives(ticks) {
        var k :| 0 <= k < |ticks| && ticks[k].hasCargoInConveyor && !ticks[k].atBottom;
        assert stop[k];
      }
    }
    if extraTime.None? {
      motor := Stopped;
    }
    r := ConveyorRun(motor, i, stopped, extraTime);
  }
}
