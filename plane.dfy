/** The toroidal plane the agents move on, and the wrap-around step of Agent.update.
    Coordinates are exact reals: an idealisation of Java's doubles. */
module Plane {

  datatype Point = Point(x: real, y: real)

  /** Main.WIDTH and Main.HEIGHT. */
  const WIDTH: real := 1000.0
  const HEIGHT: real := 900.0

  /** Java's integer conversion of a quotient: rounds toward zero. */
  function Trunc(q: real): int
  {
    if q >= 0.0 then q.Floor else -((-q).Floor)
  }

  /** Java's `%` on doubles: the remainder of the truncating division, which takes the
      sign of the dividend (unlike a true modulo, it is negative for a negative dividend). */
  function JavaRem(x: real, m: real): real
    requires m > 0.0
  {
    x - m * (Trunc(x / m) as real)
  }

  /** One coordinate of the step `(p + d + m) % m`. */
  function Wrap(p: real, d: real, m: real): real
    requires m > 0.0
  {
    JavaRem(p + d + m, m)
  }

  /** The new position after a displacement of `vel * speed * factor`, each coordinate
      wrapped with `(p + d + size) % size`. */
  function Step(p: Point, vel: Point, speed: real, factor: real): Point
  {
    var dx := vel.x * speed * factor;
    var dy := vel.y * speed * factor;
    Point(Wrap(p.x, dx, WIDTH), Wrap(p.y, dy, HEIGHT))
  }

  predicate InPlane(p: Point)
  {
    0.0 <= p.x < WIDTH && 0.0 <= p.y < HEIGHT
  }

  /** For a non-negative dividend the remainder is the true modulo: in [0, m). */
  lemma RemOfNonNegative(x: real, m: real)
    requires m > 0.0 && x >= 0.0
    ensures 0.0 <= JavaRem(x, m) < m
  {
    var q := x / m;
    var fr := q.Floor as real;
    assert m * q == x;
    assert fr <= q < fr + 1.0;
    MulMono(m, fr, q);
    MulStrict(m, q, fr + 1.0);
    assert m * (fr + 1.0) == m * fr + m;
    assert m * fr <= x < m * fr + m;
    assert JavaRem(x, m) == x - m * fr;
  }

  /** For a negative dividend the remainder lies in (-m, 0]. */
  lemma RemOfNegative(x: real, m: real)
    requires m > 0.0 && x < 0.0
    ensures -m < JavaRem(x, m) <= 0.0
  {
    var q := -x / m;
    var f := q.Floor;
    assert q * m == -x;
    assert (f as real) <= q < (f as real) + 1.0;
    assert x / m == -q;
    assert Trunc(x / m) == -f;
    MulMono(m, f as real, q);
    MulStrict(m, q, (f as real) + 1.0);
    assert m * ((f as real) + 1.0) == m * (f as real) + m;
    assert JavaRem(x, m) == x + m * (f as real);
  }

  lemma MulMono(m: real, a: real, b: real)
    requires m > 0.0 && a <= b
    ensures m * a <= m * b
  {
    assert m * b - m * a == m * (b - a);
  }

  lemma MulStrict(m: real, a: real, b: real)
    requires m > 0.0 && a < b
    ensures m * a < m * b
  {
    assert m * b - m * a == m * (b - a);
  }

  /** Bounds on a dividend give bounds on the quotient. */
  lemma DivBetween(x: real, m: real, lo: real, hi: real)
    requires m > 0.0 && lo * m <= x < hi * m
    ensures lo <= x / m < hi
  {
    var q := x / m;
    assert q * m == x;
    if q < lo {
      MulStrict(m, q, lo);
    }
    if q >= hi {
      MulMono(m, hi, q);
    }
  }

  /** The implicit guard of the wrap in Agent.update: as long as `p + d + m` is not negative, the new
      coordinate lies in [0, m). */
  lemma WrapInRange(p: real, d: real, m: real)
    requires m > 0.0 && p + d + m >= 0.0
    ensures 0.0 <= Wrap(p, d, m) < m
  {
    RemOfNonNegative(p + d + m, m);
  }

  /** Inside the plane the step does not wrap; across the far edge it wraps once. */
  lemma WrapSeamless(p: real, d: real, m: real)
    requires m > 0.0 && -m <= p + d < 2.0 * m
    ensures 0.0 <= p + d < m ==> Wrap(p, d, m) == p + d
    ensures m <= p + d ==> Wrap(p, d, m) == p + d - m
    ensures p + d < 0.0 ==> Wrap(p, d, m) == p + d + m
  {
    var x := p + d + m;
    var q := x / m;
    assert q * m == x;
    if p + d < 0.0 {
      DivBetween(x, m, 0.0, 1.0);
      assert q.Floor == 0;
    } else if p + d < m {
      DivBetween(x, m, 1.0, 2.0);
      assert q.Floor == 1;
    } else {
      DivBetween(x, m, 2.0, 3.0);
      assert q.Floor == 2;
    }
  }

  /** A step whose displacement is no shorter than minus one plane size in either
      direction (as a speed times boost factor of at most 900 guarantees for a unit heading)
      keeps the agent on the plane. */
  lemma StepInPlane(p: Point, vel: Point, speed: real, factor: real)
    requires InPlane(p)
    requires vel.x * speed * factor >= -WIDTH && vel.y * speed * factor >= -HEIGHT
    ensures InPlane(Step(p, vel, speed, factor))
  {
    WrapInRange(p.x, vel.x * speed * factor, WIDTH);
    WrapInRange(p.y, vel.y * speed * factor, HEIGHT);
  }

  /** The guard can fail: an agent at x = 0 moving left by 1001 units lands at x = -1,
      outside the plane, because `%` keeps the sign of the dividend. */
  lemma WrapLeavesPlane()
    ensures Wrap(0.0, -1001.0, WIDTH) == -1.0
    ensures !InPlane(Step(Point(0.0, 0.0), Point(-1.0, 0.0), 2.0, 500.5))
  {
    assert (-1.0 / WIDTH) == -0.001;
    assert (0.001).Floor == 0;
    assert Step(Point(0.0, 0.0), Point(-1.0, 0.0), 2.0, 500.5).x == Wrap(0.0, -1001.0, WIDTH);
  }
}
