/** The mathematical functions of the C library, over exact reals. */
module Trigonometry {
  import opened Rotation

  /** Any functions in the place of sin, cos, sqrt and atan2; Laws says which of their properties are used. */
  datatype Trig = Trig(sin: real -> real, cos: real -> real, sqrt: real -> real, atan2: (real, real) -> real, pi: real)

  /** The threshold of every conversion. */
  const EPS := 0.000001

  function Abs(x: real): real {
    if x < 0.0 then -x else x
  }

  predicate AngleLaws(t: Trig, x: real) {
    && Square(t.sin(x)) + Square(t.cos(x)) == 1.0
    && t.sin(-x) == -t.sin(x) && t.cos(-x) == t.cos(x)
    && t.sin(x + t.pi) == -t.sin(x) && t.cos(x + t.pi) == -t.cos(x)
    && t.sin(x + t.pi / 2.0) == t.cos(x)
    && t.sin(2.0 * x) == 2.0 * Times(t.sin(x), t.cos(x)) && t.cos(2.0 * x) == 1.0 - 2.0 * Square(t.sin(x))
    && t.cos(x) >= 1.0 - Square(x) / 2.0
    && (0.0 < x < t.pi ==> t.sin(x) > 0.0)
    && (x >= 0.0 ==> t.sin(x) <= x)
    && (0.0 <= x <= t.pi / 2.0 ==> Times(x, t.cos(x)) <= t.sin(x))
  }

  predicate RootLaws(t: Trig, x: real) {
    x >= 0.0 ==> t.sqrt(x) >= 0.0 && Square(t.sqrt(x)) == x
  }

  /** atan2(y, x) is the angle of the point (x, y), in (-pi, pi]; it is zero at the origin. */
  predicate ArctangentLaws(t: Trig, y: real, x: real) {
    var h := t.sqrt(Square(x) + Square(y));
    var a := t.atan2(y, x);
    && h * t.cos(a) == x && h * t.sin(a) == y
    && (y > 0.0 ==> 0.0 < a < t.pi) && (y < 0.0 ==> -t.pi < a < 0.0)
    && (y == 0.0 ==> a == if x < 0.0 then t.pi else 0.0)
    && (x == 0.0 && y > 0.0 ==> a == t.pi / 2.0) && (x == 0.0 && y < 0.0 ==> a == -t.pi / 2.0)
  }

  predicate DifferenceLaw(t: Trig, x: real, y: real) {
    t.sin(x - y) == Times(t.sin(x), t.cos(y)) - Times(t.cos(x), t.sin(y))
  }

  ghost predicate Laws(t: Trig) {
    && 3.0 < t.pi < 4.0
    && t.sin(0.0) == 0.0 && t.cos(0.0) == 1.0 && t.sin(t.pi / 2.0) == 1.0 && t.cos(t.pi / 2.0) == 0.0
    && (forall x :: AngleLaws(t, x))
    && (forall x :: RootLaws(t, x))
    && (forall y, x :: ArctangentLaws(t, y, x))
    && (forall x, y :: DifferenceLaw(t, x, y))
  }

  lemma RootPositive(t: Trig, x: real)
    requires Laws(t) && x >= 0.0
    ensures t.sqrt(x) >= 0.0 && Square(t.sqrt(x)) == x && t.sqrt(x) * t.sqrt(x) == x
    ensures t.sqrt(x) == 0.0 <==> x == 0.0
  {
    assert RootLaws(t, x);
    SquareSign(t.sqrt(x));
  }

  lemma SquaresEqual(x: real, y: real)
    requires x >= 0.0 && y >= 0.0 && Square(x) == Square(y)
    ensures x == y
  {
    assert (x + y) * (x - y) == Square(x) - Square(y);
    ProductZero(x + y, x - y);
  }

  /** A square root is the nonnegative number with that square. */
  lemma RootUnique(t: Trig, x: real, y: real)
    requires Laws(t) && y >= 0.0 && Square(y) == x
    ensures t.sqrt(x) == y
  {
    hide Laws;
    SquareSign(y);
    RootPositive(t, x);
    SquaresEqual(t.sqrt(x), y);
  }

  /** A point on the unit circle has its coordinates as the cosine and sine of its angle. */
  lemma UnitAngle(t: Trig, y: real, x: real)
    requires Laws(t) && Square(x) + Square(y) == 1.0
    ensures t.cos(t.atan2(y, x)) == x && t.sin(t.atan2(y, x)) == y
  {
    assert ArctangentLaws(t, y, x);
    RootUnique(t, Square(x) + Square(y), 1.0);
  }

  /** Sine and cosine together determine an angle below a half turn. */
  lemma AngleUnique(t: Trig, a: real, b: real)
    requires Laws(t) && 0.0 < a < t.pi && 0.0 < b < t.pi && t.sin(a) == t.sin(b) && t.cos(a) == t.cos(b)
    ensures a == b
  {
    assert DifferenceLaw(t, a, b);
    assert AngleLaws(t, a - b) && AngleLaws(t, b - a) && -(a - b) == b - a;
    SameProducts(t.sin(a), t.cos(a));
    hide Square, Times;
  }

  lemma SameProducts(s: real, c: real)
    ensures Times(s, c) - Times(c, s) == 0.0
  {
  }

  /** atan2 finds an angle between no turn and a half turn from its sine and cosine. */
  lemma AngleFound(t: Trig, q: real)
    requires Laws(t) && 0.0 < q < t.pi
    ensures t.atan2(t.sin(q), t.cos(q)) == q && t.sin(q) > 0.0
  {
    assert AngleLaws(t, q) && ArctangentLaws(t, t.sin(q), t.cos(q));
    hide Square, Times;
    UnitAngle(t, t.sin(q), t.cos(q));
    AngleUnique(t, t.atan2(t.sin(q), t.cos(q)), q);
  }

  /** The same for every angle up to half a turn to either side. */
  lemma AngleRead(t: Trig, x: real)
    requires Laws(t) && -t.pi < x <= t.pi
    ensures t.atan2(t.sin(x), t.cos(x)) == x
  {
    assert AngleLaws(t, x) && AngleLaws(t, -x) && AngleLaws(t, 0.0) && 0.0 + t.pi == t.pi;
    assert ArctangentLaws(t, t.sin(x), t.cos(x));
    hide Square, Times;
    if 0.0 < x < t.pi {
      AngleFound(t, x);
    } else if x < 0.0 {
      UnitAngle(t, t.sin(x), t.cos(x));
      var a := t.atan2(t.sin(x), t.cos(x));
      assert AngleLaws(t, a);
      AngleUnique(t, -a, -x);
    }
  }

  // ---- signs ----

  lemma CosineInside(t: Trig, x: real)
    requires Laws(t)
    ensures -t.pi / 2.0 < x < t.pi / 2.0 ==> t.cos(x) > 0.0
    ensures -t.pi / 2.0 <= x <= t.pi / 2.0 ==> t.cos(x) >= 0.0
  {
    assert AngleLaws(t, x) && AngleLaws(t, x + t.pi / 2.0) && AngleLaws(t, t.pi / 2.0);
    hide Square, Times;
  }

  lemma CosineOutside(t: Trig, x: real)
    requires Laws(t) && (t.pi / 2.0 < x <= t.pi || -t.pi <= x < -t.pi / 2.0)
    ensures t.cos(x) < 0.0
  {
    hide Square, Times;
    var y := if x > 0.0 then x else -x;
    assert AngleLaws(t, x) && AngleLaws(t, y - t.pi);
    assert y - t.pi + t.pi == y;
    CosineInside(t, y - t.pi);
  }
}
