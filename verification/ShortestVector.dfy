/** How long the reported rotation vectors are, and which rotation vectors are reported back as they are. */
module ShortestVector {
  import opened Rotation
  import opened Trigonometry
  import opened Quaternion
  import opened RotationVector

  function Length(t: Trig, v: Vec): real {
    t.sqrt(SquareLength(v))
  }

  const ZERO := Vec(0.0, 0.0, 0.0)

  // ---- the length of what is read off a rotation ----

  lemma ZeroLength(t: Trig, v: Vec)
    requires Laws(t)
    ensures Length(t, v) >= 0.0 && (Length(t, v) == 0.0 <==> v == ZERO)
  {
    hide Laws, Square;
    LengthNonNegative(v);
    RootPositive(t, SquareLength(v));
    if Length(t, v) == 0.0 {
      LengthZero(v);
    } else {
      SquareSign(0.0);
    }
  }

  /** In the general branch: the vector is the unit axis times the angle, which lies below a half turn. */
  lemma GeneralForm(t: Trig, r: Mat)
    requires Laws(t) && IsRotation(r) && -1.0 + TINY <= CosineOfAngle(r) <= 1.0 - TINY
    ensures var q := Length(t, ToRotationVector(t, r));
            0.0 < q < t.pi && t.cos(q) == CosineOfAngle(r)
  {
    hide Laws, IsRotation, Square, SquareLength, AxisLength;
    AxisLengthOf(t, r);
    AngleOf(t, r);
    var a, d, c := Axis(r), AxisLength(t, r), CosineOfAngle(r);
    var s := t.atan2(d / 2.0, c);
    var k := Vec(a.x / d, a.y / d, a.z / d);
    UnitParts(d, a);
    Ratio(a.x, s, d);
    Ratio(a.y, s, d);
    Ratio(a.z, s, d);
    assert ToRotationVector(t, r) == Scale(k, s);
    LengthOfScaled(t, k, s);
    AngleRange(t, d / 2.0, c);
  }

  lemma AngleRange(t: Trig, y: real, x: real)
    requires Laws(t) && y > 0.0
    ensures 0.0 < t.atan2(y, x) < t.pi
  {
    assert ArctangentLaws(t, y, x);
  }

  /** Close to a half turn: half a turn and a little more. */
  lemma HalfTurnLength(t: Trig, r: Mat)
    requires Laws(t) && IsRotation(r) && CosineOfAngle(r) < -1.0 + TINY
    ensures t.pi <= Length(t, ToRotationVector(t, r)) <= t.pi + 2.0 * (1.0 + CosineOfAngle(r))
    ensures CosineOfAngle(r) == -1.0 <==> Length(t, ToRotationVector(t, r)) == t.pi
  {
    hide Laws, IsRotation, Square, SquareLength, HalfTurnAxis, Scale;
    TraceBounds(r);
    var k, d := HalfTurnAxis(t, r), 1.0 + CosineOfAngle(r);
    SquareLengthOfHalfTurn(t, r);
    PiLarge(t);
    if d == 0.0 { LengthOfScaled(t, k, t.pi); } else { PastPi(t, k, d); }
  }

  lemma PastPi(t: Trig, k: Vec, d: real)
    requires Laws(t) && 0.0 < d < TINY && SquareLength(k) == 1.0 + d
    ensures t.pi < Length(t, Scale(k, t.pi)) <= t.pi + 2.0 * d
  {
    hide Laws, Square, SquareLength, Scale, Times;
    LengthPastPi(t, k, d);
    var v := Scale(k, t.pi);
    if Length(t, v) == t.pi {
      SquareLengthOfScaled(k, t.pi);
      SquareOfLength(t, v);
      PiLarge(t);
      SquareSign(t.pi);
      OnlyOne(1.0 + d, Square(t.pi));
    }
  }

  lemma SquareOfLength(t: Trig, v: Vec)
    requires Laws(t)
    ensures Square(Length(t, v)) == SquareLength(v)
  {
    hide Laws, Square;
    LengthNonNegative(v);
    RootPositive(t, SquareLength(v));
  }

  lemma OnlyOne(n: real, p: real)
    requires p != 0.0 && Times(n, p) == p
    ensures n == 1.0
  {
    assert p * (n - 1.0) == 0.0;
    ProductZero(p, n - 1.0);
  }

  /** The reported vector is as long as the angle of the rotation: zero close to no turn; from there to the window
      of the half turn the one length below pi with the cosine of the angle; and in that window pi, or more than pi
      by at most twice the distance of the cosine from -1. */
  lemma LengthIsAngle(t: Trig, r: Mat)
    requires Laws(t) && IsRotation(r)
    ensures var q, c := Length(t, ToRotationVector(t, r)), CosineOfAngle(r);
      && (c > 1.0 - 0.000000000001 ==> q == 0.0)
      && (-1.0 + 0.000000000001 <= c <= 1.0 - 0.000000000001 ==> 0.0 < q < t.pi && t.cos(q) == c)
      && (c < -1.0 + 0.000000000001 ==> t.pi <= q <= t.pi + 2.0 * (1.0 + c))
      && (q == t.pi <==> c == -1.0)
  {
    hide Laws, IsRotation, Length;
    PiLarge(t);
    var c := CosineOfAngle(r);
    if c > 1.0 - TINY {
      ZeroLength(t, ZERO);
    } else if c < -1.0 + TINY {
      HalfTurnLength(t, r);
    } else {
      GeneralForm(t, r);
    }
  }

  // ---- from a vector to its rotation and back ----

  lemma AxisOfRodrigues(k: Vec, s: real, c: real)
    ensures Axis(Rodrigues(k, s, c)) == Scale(k, 2.0 * s)
  {
    hide Sweep;
  }

  lemma CosineOfRodrigues(k: Vec, s: real, c: real)
    requires SquareLength(k) == 1.0
    ensures CosineOfAngle(Rodrigues(k, s, c)) == c
  {
    hide SquareLength, Rodrigues;
    TraceOfRodrigues(k, s, c);
  }

  function Direction(v: Vec, q: real): Vec
    requires q != 0.0
  {
    Vec(v.x / q, v.y / q, v.z / q)
  }

  lemma TurnOf(t: Trig, v: Vec)
    requires Laws(t) && Length(t, v) >= SHORT
    ensures var q := Length(t, v);
      && SquareLength(Direction(v, q)) == 1.0
      && FromRotationVector(t, v) == Rodrigues(Direction(v, q), t.sin(q), t.cos(q))
      && CosineOfAngle(FromRotationVector(t, v)) == t.cos(q)
  {
    hide Laws, Rodrigues, SquareLength, CosineOfAngle;
    var q := Length(t, v);
    Normalized(t, v);
    CosineOfRodrigues(Direction(v, q), t.sin(q), t.cos(q));
  }

  lemma Unfolded(x: real, q: real, s: real)
    requires q != 0.0 && s != 0.0
    ensures q * (x / q * (2.0 * s)) / (2.0 * s) == x
  {
    var m := 2.0 * s;
    assert q * (x / q * m) == x * m;
    Unscaled(x, m);
  }

  /** Between the windows a vector shorter than a half turn comes back as it was. */
  lemma ShortReturns(t: Trig, v: Vec)
    requires Laws(t) && SHORT <= Length(t, v) < t.pi
    requires -1.0 + TINY <= t.cos(Length(t, v)) <= 1.0 - TINY
    requires IsRotation(FromRotationVector(t, v))
    ensures ToRotationVector(t, FromRotationVector(t, v)) == v
  {
    hide Laws, IsRotation, SquareLength, Length, Rodrigues, FromRotationVector, CosineOfAngle;
    var q, r := Length(t, v), FromRotationVector(t, v);
    var k, s := Direction(v, q), t.sin(q);
    TurnOf(t, v);
    AngleFound(t, q);
    AxisOfRodrigues(k, s, t.cos(q));
    LengthOfScaled(t, k, 2.0 * s);
    assert AxisLength(t, r) == 2.0 * s;
    Unfolded(v.x, q, s);
    Unfolded(v.y, q, s);
    Unfolded(v.z, q, s);
  }

  // ---- exact half turns ----

  /** The one of two opposite vectors that the half-turn branch picks. */
  predicate Upper(v: Vec) {
    v.z > 0.0 || (v.z == 0.0 && (v.y > 0.0 || (v.y == 0.0 && v.x > 0.0)))
  }

  function Negated(v: Vec): Vec {
    Vec(-v.x, -v.y, -v.z)
  }

  /** Two unit vectors with the same products of components are equal or opposite. */
  lemma SameProductsParallel(k: Vec, l: Vec)
    requires SquareLength(k) == 1.0 && SquareLength(l) == 1.0
    requires Square(k.x) == Square(l.x) && Square(k.y) == Square(l.y) && Square(k.z) == Square(l.z)
    requires Times(k.x, k.y) == Times(l.x, l.y) && Times(k.y, k.z) == Times(l.y, l.z) && Times(k.x, k.z) == Times(l.x, l.z)
    ensures k == l || k == Negated(l)
  {
    hide Times, Square;
    if l.x != 0.0 {
      SameSquare(k.x, l.x);
      SharedFactor(k.x, l.x, k.y, l.y);
      SharedFactor(k.x, l.x, k.z, l.z);
    } else if l.y != 0.0 {
      SameSquare(k.x, l.x);
      SameSquare(k.y, l.y);
      SharedFactor(k.y, l.y, k.z, l.z);
    } else {
      SameSquare(k.x, l.x);
      SameSquare(k.y, l.y);
      SameSquare(k.z, l.z);
    }
  }

  lemma SameSquare(a: real, b: real)
    requires Square(a) == Square(b)
    ensures a == b || a == -b
  {
    assert (a - b) * (a + b) == 0.0;
    ProductZero(a - b, a + b);
  }

  lemma SharedFactor(a: real, b: real, x: real, y: real)
    requires (a == b || a == -b) && b != 0.0 && Times(a, x) == Times(b, y)
    ensures a == b ==> x == y
    ensures a == -b ==> x == -y
  {
    if a == b {
      assert b * (x - y) == 0.0;
      ProductZero(b, x - y);
    }
    if a == -b {
      assert b * (x + y) == 0.0;
      ProductZero(b, x + y);
    }
  }

  lemma HalfTurnProducts(k: Vec)
    ensures var r := Rodrigues(k, 0.0, -1.0);
      && r.r00 + 1.0 == 2.0 * Square(k.x) && r.r11 + 1.0 == 2.0 * Square(k.y) && r.r22 + 1.0 == 2.0 * Square(k.z)
      && r.r01 == 2.0 * Times(k.x, k.y) && r.r02 == 2.0 * Times(k.x, k.z) && r.r21 == 2.0 * Times(k.y, k.z)
  {
    SweepTwice(k.x, k.x);
    SweepTwice(k.y, k.y);
    SweepTwice(k.z, k.z);
    SweepTwice(k.x, k.y);
    SweepTwice(k.x, k.z);
    SweepTwice(k.y, k.z);
    TimesZero(k.x);
    TimesZero(k.y);
    TimesZero(k.z);
    SquareAsTimes(k.x);
    SquareAsTimes(k.y);
    SquareAsTimes(k.z);
    hide Sweep, Times, Square;
  }

  lemma SweepTwice(a: real, b: real)
    ensures Sweep(a, b, 1.0 - -1.0) == 2.0 * Times(a, b)
  {
  }

  lemma AxisOfHalfTurn(t: Trig, r: Mat)
    requires Laws(t) && IsRotation(r) && CosineOfAngle(r) == -1.0
    ensures var k := HalfTurnAxis(t, r);
            SquareLength(k) == 1.0 && Rodrigues(k, 0.0, -1.0) == r && Upper(k)
  {
    hide Laws, IsRotation, SquareLength, Rodrigues, FromQuaternion, Represents, HalfTurnAxis, Upper;
    var k := HalfTurnAxis(t, r);
    SquareLengthOfHalfTurn(t, r);
    HalfTurnIsQuaternion(k);
    HalfTurnRepresents(t, r);
    RepresentsRebuilds(Quat(k.x, k.y, k.z, 0.0), r);
    AxisIsUpper(t, r);
  }

  lemma AxisIsUpper(t: Trig, r: Mat)
    requires Laws(t) && IsRotation(r) && SquareLength(HalfTurnAxis(t, r)) == 1.0
    requires r == Rodrigues(HalfTurnAxis(t, r), 0.0, -1.0)
    ensures Upper(HalfTurnAxis(t, r))
  {
    hide Laws, IsRotation, Rodrigues, Times, Square, SquareLength, Upper;
    HalfTurnProducts(HalfTurnAxis(t, r));
    DiagonalRoots(t, r);
    var a, b, c := t.sqrt((r.r00 + 1.0) / 2.0), t.sqrt((r.r11 + 1.0) / 2.0), t.sqrt((r.r22 + 1.0) / 2.0);
    ChosenIsUpper(a, b, c, r.r01, r.r02, r.r21);
  }

  /** The signs that the half-turn branch chooses. */
  lemma ChosenIsUpper(a: real, b: real, c: real, e: real, f: real, g: real)
    requires a >= 0.0 && b >= 0.0 && c >= 0.0
    requires var x := if f < 0.0 then -a else a;
             var y := if g < 0.0 then -b else b;
             var z := if x * y * e < 0.0 then -x else x;
             f == 2.0 * Times(z, c) && g == 2.0 * Times(y, c) && SquareLength(Vec(z, y, c)) == 1.0
    ensures var x := if f < 0.0 then -a else a;
            var y := if g < 0.0 then -b else b;
            Upper(Vec(if x * y * e < 0.0 then -x else x, y, c))
  {
    SquareSign(0.0);
    TimesZero(a);
    TimesZero(-a);
    TimesZero(b);
    TimesZero(-b);
    NoFlip(a, e);
    hide Times, Square;
    if c == 0.0 && b == 0.0 { assert a != 0.0; }
  }

  lemma NoFlip(x: real, e: real)
    ensures x * 0.0 * e == 0.0 && -x * 0.0 * e == 0.0
  {
  }

  lemma OneOfTwo(k: Vec, l: Vec)
    requires (k == l || k == Negated(l)) && Upper(l)
    ensures k == l <==> Upper(k)
  {
  }

  lemma UpperScaled(v: Vec, q: real)
    requires q > 0.0
    ensures Upper(Direction(v, q)) <==> Upper(v)
  {
    RatioKeepsSign(v.x, q);
    RatioKeepsSign(v.y, q);
    RatioKeepsSign(v.z, q);
  }

  lemma RatioKeepsSign(x: real, q: real)
    requires q > 0.0
    ensures (x / q > 0.0 <==> x > 0.0) && (x / q == 0.0 <==> x == 0.0)
  {
    var d := x / q;
    assert d * q == x;
    if d > 0.0 { TimesSign(d, q); }
    if d < 0.0 { TimesSign(-d, q); }
  }

  lemma DirectionScaled(v: Vec, k: Vec, q: real)
    requires q > 0.0
    ensures Scale(k, q) == v <==> k == Direction(v, q)
  {
    Unscaled(k.x, q);
    Unscaled(k.y, q);
    Unscaled(k.z, q);
  }

  /** Of the two vectors of a half turn the upper one comes back as it was. */
  lemma HalfTurnReturnsIff(t: Trig, v: Vec)
    requires Laws(t) && Length(t, v) == t.pi && IsRotation(FromRotationVector(t, v))
    ensures ToRotationVector(t, FromRotationVector(t, v)) == v <==> Upper(v)
  {
    hide Laws, IsRotation, SquareLength, Length, Rodrigues, FromRotationVector, CosineOfAngle, HalfTurnAxis, Upper, Scale;
    PiLarge(t);
    var r, k := FromRotationVector(t, v), Direction(v, t.pi);
    SineOfPi(t);
    TurnOf(t, v);
    AxisOfHalfTurn(t, r);
    var l := HalfTurnAxis(t, r);
    BothProducts(k, l, r);
    OneOfTwo(k, l);
    UpperScaled(v, t.pi);
    DirectionScaled(v, l, t.pi);
  }

  lemma BothProducts(k: Vec, l: Vec, r: Mat)
    requires SquareLength(k) == 1.0 && SquareLength(l) == 1.0
    requires Rodrigues(k, 0.0, -1.0) == r && Rodrigues(l, 0.0, -1.0) == r
    ensures k == l || k == Negated(l)
  {
    hide SquareLength, Rodrigues, Times, Square;
    HalfTurnProducts(k);
    HalfTurnProducts(l);
    SameProductsParallel(k, l);
  }

  // ---- every rotation vector ----

  /** The rotation vectors that are reported as they are: no turn; those below a half turn whose cosine is outside
      both windows; and of each two opposite half turns the upper one. */
  predicate Reported(t: Trig, v: Vec) {
    var q := Length(t, v);
    v == ZERO
    || (0.0000000001 <= q < t.pi && -1.0 + 0.000000000001 <= t.cos(q) <= 1.0 - 0.000000000001)
    || (q == t.pi && Upper(v))
  }

  lemma LongNeverReturns(t: Trig, v: Vec)
    requires Laws(t) && Length(t, v) > t.pi && IsRotation(FromRotationVector(t, v))
    ensures ToRotationVector(t, FromRotationVector(t, v)) != v
  {
    hide Laws, IsRotation, Length, FromRotationVector, ToRotationVector, CosineOfAngle;
    var r := FromRotationVector(t, v);
    PiLarge(t);
    TraceOfRotation(r);
    LengthIsAngle(t, r);
    if -1.0 < CosineOfAngle(r) < -1.0 + TINY { NearHalfTurnBranch(t, r); }
  }

  lemma TraceOfRotation(r: Mat)
    requires IsRotation(r)
    ensures -1.0 <= CosineOfAngle(r) <= 1.0
  {
    hide IsRotation;
    TraceBounds(r);
  }

  lemma TinyIsNoTurn(t: Trig, v: Vec)
    requires Laws(t) && Length(t, v) < SHORT
    ensures FromRotationVector(t, v) == IDENTITY
    ensures IsRotation(IDENTITY) && ToRotationVector(t, IDENTITY) == ZERO
  {
    hide Laws, IsRotation;
    IdentityIsRotation();
  }

  /** From a rotation vector to its matrix and back: the same vector exactly if it is one of these. */
  lemma VectorRoundTrip(t: Trig, v: Vec)
    requires Laws(t)
    ensures IsRotation(FromRotationVector(t, v))
    ensures ToRotationVector(t, FromRotationVector(t, v)) == v <==> Reported(t, v)
  {
    hide Laws, IsRotation, Length, FromRotationVector, ToRotationVector, CosineOfAngle, Upper;
    var q, r := Length(t, v), FromRotationVector(t, v);
    FromRotationVectorIsRotation(t, v);
    PiLarge(t);
    ZeroLength(t, v);
    if q < SHORT {
      TinyIsNoTurn(t, v);
    } else if q == t.pi {
      HalfTurnReturnsIff(t, v);
    } else if q > t.pi {
      LongNeverReturns(t, v);
    } else {
      TurnOf(t, v);
      LengthIsAngle(t, r);
      if -1.0 + TINY <= t.cos(q) <= 1.0 - TINY { ShortReturns(t, v); }
    }
  }

  /** So a rotation outside the windows has one rotation vector that is neither short nor as long as a half turn, and
      this is the one reported. */
  lemma ShortestIsReported(t: Trig, r: Mat, v: Vec)
    requires Laws(t) && IsRotation(r) && -1.0 + TINY <= CosineOfAngle(r) <= 1.0 - TINY
    requires FromRotationVector(t, v) == r && Length(t, v) < t.pi
    ensures v == ToRotationVector(t, r)
  {
    hide Laws, IsRotation, Length, FromRotationVector, ToRotationVector, CosineOfAngle;
    if Length(t, v) < SHORT {
      TinyIsNoTurn(t, v);
      CosineOfIdentity();
    } else {
      TurnOf(t, v);
      VectorRoundTrip(t, v);
    }
  }

  lemma CosineOfIdentity()
    ensures CosineOfAngle(IDENTITY) == 1.0
  {
  }
}
