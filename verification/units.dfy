/** Units.kt: units of measure tagged with their dimension, and conversion between two
    units of the same dimension by the ratio of their factors. */
module Units {

  /** `Unit.Type`: the dimension a unit measures. */
  datatype Dimension = Linear | Square | Cubic | Angular

  /** `Unit(type, factor)`: `factor` is how many of this unit make one reference unit
      (metres for length, half-turns for angles). */
  datatype Unit = Unit(dimension: Dimension, factor: real)

  const Metre := Unit(Linear, 1.0)
  const Inch := Unit(Linear, 39.3701)
  const Et := Unit(Linear, 26876.6549)
  const Degree := Unit(Angular, 180.0)

  /** `rad`, whose factor is the mathematical constant pi, kept abstract here. */
  function Radian(pi: real): (u: Unit)
    requires pi > 0.0
    ensures u.dimension == Angular && u.factor > 0.0
  {
    Unit(Angular, pi)
  }

  /** Every declared unit. */
  function DeclaredUnits(pi: real): seq<Unit>
    requires pi > 0.0
  {
    [Metre, Inch, Et, Radian(pi), Degree]
  }

  /** `Int.convert(units)`: `this * (first.factor / second.factor)`. The generic type
      parameter forces both units to the same dimension; Kotlin would divide by zero for
      a zero `second.factor`, which no declared unit has. With the declared factors, the
      pair reads (target, source): `convert(inch to m)` turns metres into inches. */
  function Convert(x: int, target: Unit, source: Unit): (r: real)
    requires target.dimension == source.dimension
    requires source.factor != 0.0
    ensures x == 0 ==> r == 0.0
  {
    x as real * (target.factor / source.factor)
  }

  /** Every declared unit has a positive factor. */
  lemma DeclaredFactorsPositive(pi: real)
    requires pi > 0.0
    ensures forall u :: u in DeclaredUnits(pi) ==> u.factor > 0.0
  {
  }

  /** Converting between a unit and itself changes nothing. */
  lemma ConvertSameUnit(x: int, u: Unit)
    requires u.factor != 0.0
    ensures Convert(x, u, u) == x as real
  {
  }

  /** With positive factors (every declared unit), conversion keeps the sign. */
  lemma ConvertKeepsSign(x: int, target: Unit, source: Unit)
    requires target.dimension == source.dimension
    requires target.factor > 0.0 && source.factor > 0.0
    ensures x > 0 ==> Convert(x, target, source) > 0.0
    ensures x < 0 ==> Convert(x, target, source) < 0.0
  {
    var k := target.factor / source.factor;
    assert k > 0.0;
  }

  /** Conversion is additive. */
  lemma ConvertAdditive(x: int, y: int, target: Unit, source: Unit)
    requires target.dimension == source.dimension
    requires source.factor != 0.0
    ensures Convert(x + y, target, source) == Convert(x, target, source) + Convert(y, target, source)
  {
  }

  /** Scaling the result by the reverse ratio recovers the input. */
  lemma ConvertInverse(x: int, target: Unit, source: Unit)
    requires target.dimension == source.dimension
    requires target.factor != 0.0 && source.factor != 0.0
    ensures Convert(x, target, source) * (source.factor / target.factor) == x as real
  {
    var k := target.factor / source.factor;
    assert k * (source.factor / target.factor) == 1.0;
  }

  /** The declared factors in use: one metre is 39.3701 inches, and 180 degrees is pi radians. */
  lemma DeclaredConversions(pi: real)
    requires pi > 0.0
    ensures Convert(1, Inch, Metre) == 39.3701
    ensures Convert(180, Radian(pi), Degree) == pi
  {
  }
}
