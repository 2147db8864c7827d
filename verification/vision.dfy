/** Vision.kt: the pose estimate published by a camera co-processor for one target kind,
    the `locked` flag, the median pose over a timed sampling window, the light output
    and the choice of camera by source. The network table is replaced by the sequence
    of readings the table would yield, one per tick of the sampling timer. */
module Vision {
  import opened Wrappers
  import Util

  /** `cameraToCenter` (inches); the default distance offset equals it. */
  const CameraToCenter: real := 13.25

  datatype VisionSource = HatchPanel | Cargo

  /** `VisionSource.path`: the sub-table name under `Vision/`. */
  function TablePath(source: VisionSource): (path: string)
    ensures |path| == 5
    ensures source == HatchPanel <==> path == "hatch"
    ensures source == Cargo <==> path == "cargo"
  {
    match source
    case HatchPanel => "hatch"
    case Cargo => "cargo"
  }

  datatype CameraPose = CameraPose(xDistance: real, yDistance: real, robotAngle: real, targetAngle: real)

  /** One read of the table: the tick's elapsed timer time, `found`, the four published
      numbers, and the sine and cosine of `robotAngle + targetAngle` (in degrees), which
      the model takes as given rather than computing. */
  datatype Reading = Reading(
    elapsed: real, found: bool,
    xDistance: real, yDistance: real, robotAngle: real, targetAngle: real,
    sinSum: real, cosSum: real)

  /** The source's `alive` is the constant `true`. */
  const Alive: bool := true

  /** One camera's object: its source and the `locked` flag. */
  datatype Vision = Vision(source: VisionSource, locked: bool)

  function NewVision(source: VisionSource): (v: Vision)
    ensures v.source == source && !v.locked
  {
    Vision(source, false)
  }

  /** `getXDistance(offset)`: along the line of sight the hypotenuse is shortened by
      `offset`. A zero sine would divide by zero and is excluded. */
  function XDistance(r: Reading, offset: real): (x: real)
    requires r.sinSum != 0.0
    ensures x == r.xDistance - offset * r.sinSum
  {
    var hyp := r.xDistance / r.sinSum;
    r.sinSum * (hyp - offset)
  }

  /** `getYDistance(offset)`: the published y distance moved back by the offset along
      the line of sight, plus the camera-to-centre distance. */
  function YDistance(r: Reading, offset: real): (y: real)
    requires r.sinSum != 0.0
    ensures y == r.yDistance - offset * r.cosSum + CameraToCenter
  {
    var hyp := r.xDistance / r.sinSum;
    r.yDistance - r.cosSum * hyp + r.cosSum * (hyp - offset) + CameraToCenter
  }

  /** `pose`: the current estimate at the default offset. */
  function Pose(r: Reading): (p: CameraPose)
    requires r.sinSum != 0.0
    ensures p.robotAngle == r.robotAngle && p.targetAngle == r.targetAngle
    ensures p.xDistance == r.xDistance - CameraToCenter * r.sinSum
    ensures p.yDistance == r.yDistance + CameraToCenter * (1.0 - r.cosSum)
  {
    CameraPose(XDistance(r, CameraToCenter), YDistance(r, CameraToCenter), r.robotAngle, r.targetAngle)
  }

  /** Every reading has a non-zero sine, so each distance is defined. */
  predicate Measurable(readings: seq<Reading>) {
    forall i :: 0 <= i < |readings| ==> readings[i].sinSum != 0.0
  }

  /** The timer's clock: the elapsed time of each offered tick. */
  function Clock(readings: seq<Reading>): (clock: seq<real>)
    ensures |clock| == |readings|
    ensures forall i :: 0 <= i < |readings| ==> clock[i] == readings[i].elapsed
  {
    seq(|readings|, i requires 0 <= i < |readings| => readings[i].elapsed)
  }

  /** The four lists `getMedianPose` fills, one entry per body call. */
  datatype Samples = Samples(xs: seq<real>, ys: seq<real>, robotAngles: seq<real>, targetAngles: seq<real>)

  function Collect(readings: seq<Reading>, offset: real): (s: Samples)
    requires Measurable(readings)
    ensures |s.xs| == |s.ys| == |s.robotAngles| == |s.targetAngles| == |readings|
    ensures forall i :: 0 <= i < |readings| ==>
      s.xs[i] == XDistance(readings[i], offset) && s.ys[i] == YDistance(readings[i], offset)
      && s.robotAngles[i] == readings[i].robotAngle && s.targetAngles[i] == readings[i].targetAngle
  {
    Samples(
      seq(|readings|, i requires 0 <= i < |readings| => XDistance(readings[i], offset)),
      seq(|readings|, i requires 0 <= i < |readings| => YDistance(readings[i], offset)),
      seq(|readings|, i requires 0 <= i < |readings| => readings[i].robotAngle),
      seq(|readings|, i requires 0 <= i < |readings| => readings[i].targetAngle))
  }

  /** The median of a non-empty list, within its extremes. */
  function MedianOf(xs: seq<real>): (m: real)
    requires |xs| > 0
    ensures Util.Median(xs) == Some(m)
    ensures Util.SeqMin(xs) <= m <= Util.SeqMax(xs)
  {
    Util.MedianBounds(xs);
    Util.Median(xs).value
  }

  /** What `getMedianPose` leaves behind: the object (now locked), the pose it returns and
      the number of samples taken. */
  datatype MedianPose = MedianPose(vision: Vision, pose: CameraPose, sampleCount: nat)

  /** `getMedianPose(time, offset = offset)`: lock, sample once per timer tick until the
      timer reaches `time` (every tick is recorded, whatever `found` says), and return the
      per-field medians. The periodic loop always runs its first tick, so at least one
      reading is offered. */
  function GetMedianPose(v: Vision, time: real, offset: real, readings: seq<Reading>): (r: MedianPose)
    requires |readings| > 0 && Measurable(readings)
    ensures r.vision == v.(locked := true)
    ensures r.sampleCount == Util.TimerTicks(time, Clock(readings))
    ensures 1 <= r.sampleCount <= |readings|
    ensures var s := Collect(readings[..r.sampleCount], offset);
      Util.Median(s.xs) == Some(r.pose.xDistance) && Util.Median(s.ys) == Some(r.pose.yDistance)
      && Util.Median(s.robotAngles) == Some(r.pose.robotAngle)
      && Util.Median(s.targetAngles) == Some(r.pose.targetAngle)
    ensures var s := Collect(readings[..r.sampleCount], offset);
      Util.SeqMin(s.xs) <= r.pose.xDistance <= Util.SeqMax(s.xs)
      && Util.SeqMin(s.ys) <= r.pose.yDistance <= Util.SeqMax(s.ys)
      && Util.SeqMin(s.robotAngles) <= r.pose.robotAngle <= Util.SeqMax(s.robotAngles)
      && Util.SeqMin(s.targetAngles) <= r.pose.targetAngle <= Util.SeqMax(s.targetAngles)
  {
    var n := Util.TimerTicks(time, Clock(readings));
    var s := Collect(readings[..n], offset);
    MedianPose(
      v.(locked := true),
      CameraPose(MedianOf(s.xs), MedianOf(s.ys), MedianOf(s.robotAngles), MedianOf(s.targetAngles)),
      n)
  }

  /** The `found` flag plays no part in the median pose: readings that differ only in
      it give the same result. */
  lemma MedianPoseIgnoresFound(v: Vision, time: real, offset: real, a: seq<Reading>, b: seq<Reading>)
    requires |a| == |b| > 0 && Measurable(a)
    requires forall i :: 0 <= i < |a| ==> b[i] == a[i].(found := b[i].found)
    ensures Measurable(b)
    ensures GetMedianPose(v, time, offset, a) == GetMedianPose(v, time, offset, b)
  {
    assert Clock(a) == Clock(b);
    var n := Util.TimerTicks(time, Clock(a));
    CollectIgnoresFound(a[..n], b[..n], offset);
  }

  lemma CollectIgnoresFound(a: seq<Reading>, b: seq<Reading>, offset: real)
    requires |a| == |b| && Measurable(a)
    requires forall i :: 0 <= i < |a| ==> b[i] == a[i].(found := b[i].found)
    ensures Measurable(b)
    ensures Collect(a, offset) == Collect(b, offset)
  {
    var sa, sb := Collect(a, offset), Collect(b, offset);
    forall i | 0 <= i < |a|
      ensures sa.xs[i] == sb.xs[i] && sa.ys[i] == sb.ys[i]
      ensures sa.robotAngles[i] == sb.robotAngles[i] && sa.targetAngles[i] == sb.targetAngles[i]
    {
      assert b[i] == a[i].(found := b[i].found);
    }
    assert sa.xs == sb.xs && sa.ys == sb.ys;
    assert sa.robotAngles == sb.robotAngles && sa.targetAngles == sb.targetAngles;
  }

  /** Readings offered after the tick that reaches `time` are never taken. */
  lemma MedianPoseIgnoresLaterReadings(v: Vision, time: real, offset: real, readings: seq<Reading>, later: seq<Reading>)
    requires |readings| > 0 && Measurable(readings) && Measurable(later)
    requires readings[|readings| - 1].elapsed >= time
    ensures Measurable(readings + later)
    ensures GetMedianPose(v, time, offset, readings + later) == GetMedianPose(v, time, offset, readings)
  {
    var all := readings + later;
    assert Measurable(all) by {
      forall i | 0 <= i < |all| ensures all[i].sinSum != 0.0 {
        if i >= |readings| {
          assert all[i] == later[i - |readings|];
        }
      }
    }
    var stopAll := Util.ElapsedReached(time, Clock(all));
    var stop := Util.ElapsedReached(time, Clock(readings));
    assert stopAll[..|readings|] == stop;
    var n := Util.TimerTicks(time, Clock(readings));
    assert n <= |readings|;
    Util.TimerTicksCharacterised(time, Clock(all), n);
    assert all[..n] == readings[..n];
  }

  /** A robot standing still over the window, with a steady estimate, gets exactly that
      estimate back. */
  lemma MedianPoseOfSteadyReadings(v: Vision, time: real, offset: real, readings: seq<Reading>, r0: Reading)
    requires |readings| > 0 && r0.sinSum != 0.0
    requires forall i :: 0 <= i < |readings| ==> readings[i] == r0.(elapsed := readings[i].elapsed)
    ensures Measurable(readings)
    ensures GetMedianPose(v, time, offset, readings).pose
         == CameraPose(XDistance(r0, offset), YDistance(r0, offset), r0.robotAngle, r0.targetAngle)
  {
    SteadySamples(readings, r0, offset);
    var n := Util.TimerTicks(time, Clock(readings));
    var pre := readings[..n];
    SteadySamples(pre, r0, offset);
    var s := Collect(pre, offset);
    MedianOfConstant(s.xs, XDistance(r0, offset));
    MedianOfConstant(s.ys, YDistance(r0, offset));
    MedianOfConstant(s.robotAngles, r0.robotAngle);
    MedianOfConstant(s.targetAngles, r0.targetAngle);
  }

  lemma MedianOfConstant(xs: seq<real>, c: real)
    requires |xs| > 0 && forall i :: 0 <= i < |xs| ==> xs[i] == c
    ensures MedianOf(xs) == c
  {
    ConstantExtremes(xs, c);
  }

  lemma SteadySamples(readings: seq<Reading>, r0: Reading, offset: real)
    requires r0.sinSum != 0.0
    requires forall i :: 0 <= i < |readings| ==> readings[i] == r0.(elapsed := readings[i].elapsed)
    ensures Measurable(readings)
    ensures var s := Collect(readings, offset);
      forall i :: 0 <= i < |readings| ==>
        s.xs[i] == XDistance(r0, offset) && s.ys[i] == YDistance(r0, offset)
        && s.robotAngles[i] == r0.robotAngle && s.targetAngles[i] == r0.targetAngle
  {
  }

  lemma ConstantExtremes(xs: seq<real>, c: real)
    requires |xs| > 0 && forall i :: 0 <= i < |xs| ==> xs[i] == c
    ensures Util.SeqMin(xs) == c && Util.SeqMax(xs) == c
  {
  }

  /** The two camera objects of the companion. */
  datatype Cameras = Cameras(hatchPanel: Vision, cargo: Vision)

  function NewCameras(): (c: Cameras)
    ensures c.hatchPanel.source == HatchPanel && c.cargo.source == Cargo
    ensures !c.hatchPanel.locked && !c.cargo.locked
  {
    Cameras(NewVision(HatchPanel), NewVision(Cargo))
  }

  /** `getFromSource(source)`: the camera watching that kind of target. */
  function GetFromSource(c: Cameras, source: VisionSource): (v: Vision)
    requires c.hatchPanel.source == HatchPanel && c.cargo.source == Cargo
    ensures v.source == source
    ensures v == c.hatchPanel || v == c.cargo
  {
    match source
    case HatchPanel => c.hatchPanel
    case Cargo => c.cargo
  }

  /** `light` and the digital output it drives, which is active-low. */
  datatype Light = Light(on: bool, output: bool)

  function InitialLight(): (l: Light)
    ensures !l.on
  {
    Light(false, false)
  }

  /** The `light` setter: remembers the value and writes its negation to the output. */
  function SetLight(l: Light, value: bool): (r: Light)
    ensures r.on == value && r.output != value
  {
    Light(value, !value)
  }

  /** After any write, the output is the negation of the flag. */
  lemma {:induction false} SetLightInverts(l: Light, values: seq<bool>)
    requires |values| > 0
    ensures var r := SetLights(l, values); r.on == values[|values| - 1] && r.output == !r.on
    decreases |values|
  {
    if |values| > 1 {
      SetLightInverts(SetLight(l, values[0]), values[1..]);
    }
  }

  function SetLights(l: Light, values: seq<bool>): Light
    decreases |values|
  {
    if |values| == 0 then l else SetLights(SetLight(l, values[0]), values[1..])
  }
}
