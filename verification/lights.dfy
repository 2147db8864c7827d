/** lights/Lights.kt: the status LED strip's colour encoding and the priority by which
    `runLights` picks one mode. */
module Lights {
  import opened Wrappers
  import Vision
  import Manipulators

  /** Kotlin's `%` on doubles keeps the dividend's sign (it truncates the quotient). */
  function Rem(x: real, m: real): (r: real)
    requires m > 0.0
    ensures x >= 0.0 ==> 0.0 <= r < m
    ensures x < 0.0 ==> -m < r <= 0.0
    ensures 0.0 <= x < m ==> r == x
  {
    if x >= 0.0 then
      RemOfNonNegative(x, m);
      x - m * (x / m).Floor as real
    else
      RemOfNonNegative(-x, m);
      -((-x) - m * ((-x) / m).Floor as real)
  }

  lemma RemOfNonNegative(y: real, m: real)
    requires y >= 0.0 && m > 0.0
    ensures 0.0 <= y - m * (y / m).Floor as real < m
    ensures y < m ==> (y / m).Floor == 0
  {
    var t := y / m;
    var q := t.Floor as real;
    assert q <= t < q + 1.0;
    assert y == m * t;
    var f := t - q;
    assert 0.0 <= f < 1.0;
    assert y - m * q == m * f;
    MulPositive(m, f);
    MulPositive(m, 1.0 - f);
    assert m - m * f == m * (1.0 - f);
    assert y - m * q < m;
    if y < m {
      assert t < 1.0 by {
        MulPositive(m, t - 1.0);
        assert m * (t - 1.0) == y - m;
      }
    }
  }

  lemma MulPositive(a: real, b: real)
    requires a > 0.0
    ensures b >= 0.0 ==> a * b >= 0.0
    ensures b > 0.0 ==> a * b > 0.0
  {
  }

  /** `colorMap(hue)`: a hue in degrees mapped into the LED controller's colour range. */
  function ColorMap(hue: real): (v: real)
    ensures 0.0 <= hue < 360.0 ==> v == hue / 360.0 * 0.8 + 0.2
    ensures hue >= 0.0 ==> 0.2 <= v < 1.0
    ensures hue < 0.0 ==> 0.2 - 0.8 < v <= 0.2
  {
    Rem(hue, 360.0) / 360.0 * 0.8 + 0.2
  }

  /** A whole turn of hue maps to the same value; a negative hue falls below the range
      the positive hues use. */
  lemma ColorMapPeriodic(hue: real)
    requires 0.0 <= hue < 360.0
    ensures ColorMap(hue + 360.0) == ColorMap(hue)
    ensures ColorMap(-90.0) == 0.0
  {
    var k := ((hue + 360.0) / 360.0).Floor;
    assert k == 1 by {
      assert 1.0 <= (hue + 360.0) / 360.0 < 2.0;
    }
    assert ((90.0) / 360.0).Floor == 0;
  }

  datatype LightMode = Red | Blue | Targeting | HasHatch | HasBall

  /** `LightMode.value`. */
  function Value(m: LightMode): (v: real)
    ensures m == Red ==> v == 0.15
    ensures m == Blue ==> v == 0.05
    ensures m in {Targeting, HasHatch, HasBall} ==> 0.2 <= v < 1.0
  {
    match m
    case Red => 0.15
    case Blue => 0.05
    case Targeting => ColorMap(303.0)
    case HasHatch => ColorMap(62.0)
    case HasBall => ColorMap(25.0)
  }

  /** Reading the mode back from the value sent to the strip. */
  function ModeOf(v: real): (m: LightMode) {
    if v == Value(Red) then Red
    else if v == Value(Blue) then Blue
    else if v == Value(Targeting) then Targeting
    else if v == Value(HasHatch) then HasHatch
    else HasBall
  }

  /** The five values are distinct, so the strip's value identifies the mode. */
  lemma ValueIdentifiesMode(m: LightMode)
    ensures ModeOf(Value(m)) == m
  {
    assert ColorMap(303.0) == 303.0 / 360.0 * 0.8 + 0.2;
    assert ColorMap(62.0) == 62.0 / 360.0 * 0.8 + 0.2;
    assert ColorMap(25.0) == 25.0 / 360.0 * 0.8 + 0.2;
  }

  /** `runLights()`: the one mode sent to the strip. Targeting wins whenever either
      camera is locked; then cargo, then a hatch panel, then the alliance colour. */
  function RunLights(cameras: Vision.Cameras, m: Manipulators.Manipulators, redAlliance: bool): (mode: LightMode)
    requires cameras.hatchPanel.source == Vision.HatchPanel && cameras.cargo.source == Vision.Cargo
    ensures var locked := cameras.hatchPanel.locked || cameras.cargo.locked;
      (mode == Targeting <==> locked)
      && (mode == HasBall <==> !locked && m.hasCargo)
      && (mode == HasHatch <==> !locked && !m.hasCargo && m.hasHatchPanel)
      && (mode == Red <==> !locked && !m.hasCargo && !m.hasHatchPanel && redAlliance)
      && (mode == Blue <==> !locked && !m.hasCargo && !m.hasHatchPanel && !redAlliance)
  {
    if Vision.GetFromSource(cameras, Vision.Cargo).locked || Vision.GetFromSource(cameras, Vision.HatchPanel).locked then Targeting
    else if m.hasCargo then HasBall
    else if m.hasHatchPanel then HasHatch
    else if redAlliance then Red
    else Blue
  }

  /** The light order differs from `currentGamePiece`: with both pieces sensed the strip
      shows cargo while the current game piece is the hatch panel. */
  lemma CargoShownBeforeHatch(cameras: Vision.Cameras, m: Manipulators.Manipulators, redAlliance: bool)
    requires cameras.hatchPanel.source == Vision.HatchPanel && cameras.cargo.source == Vision.Cargo
    requires !cameras.hatchPanel.locked && !cameras.cargo.locked
    requires m.hasCargo && m.hasHatchPanel
    ensures RunLights(cameras, m, redAlliance) == HasBall
    ensures Manipulators.CurrentGamePiece(m) == Some(Manipulators.HatchPanel)
  {
  }
}
