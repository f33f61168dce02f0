/**
 * The radial geometry of the graph (src/components/Nodes/NodeGenerator.tsx).
 * Angles are exact reals measured in TURNS: an angle `t` here is the angle
 * `2*pi*t` radians of the source, so `2*pi*i/n - pi/2` becomes `i/n - 1/4`
 * and the arc `pi/4` becomes `1/8`. Cosine and sine are not interpreted: a
 * position records its ring and angle, and `Coordinates` turns it into x and
 * y for whatever cosine and sine (in turns) it is given.
 */
module Layout {

  const CentreX: real := 400.0
  const CentreY: real := 300.0
  const FilmRadius: real := 350.0
  const StarshipRadius: real := 800.0
  /** Angular spread of the starships around one film: pi/4 radians. */
  const ArcSize: real := 0.125

  /** Where a node sits: the centre itself, or a point on a ring around it. */
  datatype Position = Centre | Polar(radius: real, turn: real)

  /** `{ x, y }` of a position, for the given cosine and sine of an angle in turns. */
  function Coordinates(p: Position, cos: real -> real, sin: real -> real): (xy: (real, real))
    ensures p.Centre? ==> xy == (400.0, 300.0)
  {
    match p
    case Centre => (CentreX, CentreY)
    case Polar(r, t) => (CentreX + r * cos(t), CentreY + r * sin(t))
  }

  /** JavaScript's `a || b` on numbers: `b` when `a` is zero, `a` otherwise. */
  function NumberOr(a: int, b: int): int {
    if a == 0 then b else a
  }

  /**
   * Angle of film `index` of `count`: `2*pi*index/count - pi/2` in radians.
   * The films go once around the circle, starting straight up.
   */
  function FilmAngle(index: nat, count: nat): (a: real)
    requires index < count
    ensures -0.25 <= a < 0.75
  {
    var n := count as real;
    assert 0.0 <= (index as real) / n < 1.0;
    (index as real) / n - 0.25
  }

  /** `(count - 1 || 1)`: the divisor of the starship spacing. */
  function ShipDivisor(count: nat): (d: int)
    requires count >= 1
    ensures d >= 1
    ensures d == (if count >= 2 then count - 1 else 1)
  {
    NumberOr(count - 1, 1)
  }

  /**
   * Angle of starship `index` of `count` around a film at `filmAngle`: every
   * starship lies within the arc centred on its film.
   */
  function ShipAngle(filmAngle: real, index: nat, count: nat): (a: real)
    requires index < count
    ensures filmAngle - ArcSize / 2.0 <= a <= filmAngle + ArcSize / 2.0
  {
    var d := ShipDivisor(count) as real;
    ScaleThenDivide(ArcSize, index as real, d);
    DivideWithin(index as real, d);
    filmAngle - ArcSize / 2.0 + ArcSize * (index as real) / d
  }

  /** Scaling before dividing is scaling the quotient. */
  lemma ScaleThenDivide(c: real, j: real, d: real)
    requires d > 0.0
    ensures c * j / d == c * (j / d)
  {
  }

  /** A part of a positive whole divided by the whole is a fraction between 0 and 1. */
  lemma DivideWithin(j: real, d: real)
    requires 0.0 <= j <= d && d > 0.0
    ensures 0.0 <= j / d <= 1.0
  {
  }

  /** The fractions of a whole taken by a part and by the rest add up to 1. */
  lemma FractionsAddUp(j: real, d: real)
    requires d > 0.0
    ensures j / d + (d - j) / d == 1.0
  {
  }

  /** The first film is straight up (screen y grows downwards). */
  lemma FirstFilmPointsUp(count: nat)
    requires count >= 1
    ensures FilmAngle(0, count) == -0.25
  {
  }

  /** Consecutive films are a full turn divided by their number apart. */
  lemma FilmAngleStep(index: nat, count: nat)
    requires index + 1 < count
    ensures FilmAngle(index + 1, count) - FilmAngle(index, count) == 1.0 / (count as real)
  {
  }

  /** Films at different indices lie strictly less than one turn apart, so on different points of the ring. */
  lemma FilmAnglesDistinct(i: nat, j: nat, count: nat)
    requires i < j < count
    ensures 0.0 < FilmAngle(j, count) - FilmAngle(i, count) < 1.0
  {
    var n := count as real;
    var d := (j - i) as real;
    assert FilmAngle(j, count) - FilmAngle(i, count) == d / n;
    assert 0.0 < d < n;
  }

  /** With two or more starships the first sits at the arc's start and the last at its end. */
  lemma ShipArcEnds(filmAngle: real, count: nat)
    requires count >= 2
    ensures ShipAngle(filmAngle, 0, count) == filmAngle - ArcSize / 2.0
    ensures ShipAngle(filmAngle, count - 1, count) == filmAngle + ArcSize / 2.0
  {
    var d := (count - 1) as real;
    assert ArcSize * d / d == ArcSize;
  }

  /** Starships are spaced evenly: the arc divided by one less than their number. */
  lemma ShipAngleStep(filmAngle: real, index: nat, count: nat)
    requires index + 1 < count
    ensures ShipAngle(filmAngle, index + 1, count) - ShipAngle(filmAngle, index, count)
         == ArcSize / ((count - 1) as real)
  {
    var d := (count - 1) as real;
    var j := index as real;
    assert ArcSize * (j + 1.0) / d - ArcSize * j / d == ArcSize / d;
  }

  /** With two or more starships, starship `j` and starship `count - 1 - j` mirror each other about the film. */
  lemma ShipAnglesSymmetric(filmAngle: real, index: nat, count: nat)
    requires count >= 2 && index < count
    ensures ShipAngle(filmAngle, index, count) + ShipAngle(filmAngle, count - 1 - index, count) == 2.0 * filmAngle
  {
    var d := (count - 1) as real;
    var j := index as real;
    assert ShipDivisor(count) as real == d;
    assert (count - 1 - index) as real == d - j;
    ScaleThenDivide(ArcSize, j, d);
    ScaleThenDivide(ArcSize, d - j, d);
    FractionsAddUp(j, d);
  }

  /** A lone starship sits at the start of the arc, an eighth of pi before its film, not on the film's own angle. */
  lemma LoneShipAtArcStart(filmAngle: real)
    ensures ShipAngle(filmAngle, 0, 1) == filmAngle - 0.0625
    ensures ShipAngle(filmAngle, 0, 1) != filmAngle
  {
  }
}
