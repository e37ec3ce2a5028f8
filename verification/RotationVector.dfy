/** The rotation-vector form of an orientation: unit axis times angle (conversion flag 3). */
module RotationVector {
  import opened Rotation
  import opened Trigonometry
  import opened Quaternion

  function Scale(k: Vec, s: real): Vec {
    Vec(k.x * s, k.y * s, k.z * s)
  }

  // ---- rotation vector to matrix ----

  function Sweep(a: real, b: real, v: real): real {
    a * b * v
  }

  /** The matrix of the unit axis k, with the sine, the cosine and one minus the cosine of the angle. */
  function Turned(k: Vec, s: real, c: real, v: real): Mat {
    Mat(
      Sweep(k.x, k.x, v) + c, Sweep(k.x, k.y, v) - Times(k.z, s), Sweep(k.x, k.z, v) + Times(k.y, s),
      Sweep(k.x, k.y, v) + Times(k.z, s), Sweep(k.y, k.y, v) + c, Sweep(k.y, k.z, v) - Times(k.x, s),
      Sweep(k.x, k.z, v) - Times(k.y, s), Sweep(k.y, k.z, v) + Times(k.x, s), Sweep(k.z, k.z, v) + c)
  }

  function Rodrigues(k: Vec, s: real, c: real): Mat {
    Turned(k, s, c, 1.0 - c)
  }

  const SHORT := 0.0000000001

  function FromRotationVector(t: Trig, a: Vec): Mat {
    var q := t.sqrt(SquareLength(a));
    if q < SHORT then IDENTITY else Rodrigues(Vec(a.x / q, a.y / q, a.z / q), t.sin(q), t.cos(q))
  }

  /** w and h are the cosine and sine of half the angle. */
  predicate HalfAngle(s: real, c: real, h: real, w: real) {
    2.0 * Square(w) == 1.0 + c && 2.0 * Square(h) == 1.0 - c && 2.0 * Times(w, h) == s
  }

  function HalfQuaternion(k: Vec, h: real, w: real): Quat {
    Quat(Times(k.x, h), Times(k.y, h), Times(k.z, h), w)
  }

  lemma HalfQuaternionNorm(k: Vec, s: real, c: real, h: real, w: real)
    requires SquareLength(k) == 1.0 && HalfAngle(s, c, h, w)
    ensures HalfQuaternion(k, h, w).Norm() == 1.0
  {
    assert Square(Times(k.x, h)) + Square(Times(k.y, h)) + Square(Times(k.z, h)) == SquareLength(k) * Square(h);
  }

  lemma SweepSum(x: real, y: real, z: real, v: real)
    ensures Sweep(x, x, v) + Sweep(y, y, v) + Sweep(z, z, v) == Times(Square(x) + Square(y) + Square(z), v)
  {
  }

  lemma SweepsOfUnit(k: Vec, v: real)
    requires SquareLength(k) == 1.0
    ensures Sweep(k.x, k.x, v) + Sweep(k.y, k.y, v) + Sweep(k.z, k.z, v) == v
  {
    SweepSum(k.x, k.y, k.z, v);
    assert Times(1.0, v) == v;
    hide Sweep, Square, Times;
  }

  lemma RegroupHalves(a: real, b: real, h: real, w: real)
    ensures 2.0 * Times(Times(a, h), Times(b, h)) == Sweep(a, b, 2.0 * Square(h))
    ensures 2.0 * Times(Times(a, h), w) == Times(a, 2.0 * Times(w, h))
  {
  }

  lemma HalfProducts(a: real, b: real, s: real, c: real, h: real, w: real)
    requires HalfAngle(s, c, h, w)
    ensures 2.0 * Times(Times(a, h), Times(b, h)) == Sweep(a, b, 1.0 - c)
    ensures 2.0 * Times(Times(a, h), w) == Times(a, s)
  {
    RegroupHalves(a, b, h, w);
    hide Times, Square, Sweep;
  }

  lemma HalfRepresents(k: Vec, s: real, c: real, h: real, w: real)
    requires SquareLength(k) == 1.0 && HalfAngle(s, c, h, w)
    ensures Represents(HalfQuaternion(k, h, w), Rodrigues(k, s, c))
  {
    hide Sweep, HalfAngle, Times, Square, SquareLength;
    SweepsOfUnit(k, 1.0 - c);
    HalfProducts(k.x, k.x, s, c, h, w);
    HalfProducts(k.y, k.y, s, c, h, w);
    HalfProducts(k.z, k.z, s, c, h, w);
    HalfProducts(k.x, k.y, s, c, h, w);
    HalfProducts(k.y, k.z, s, c, h, w);
    HalfProducts(k.x, k.z, s, c, h, w);
    HalfProducts(k.z, k.x, s, c, h, w);
    SquareAsTimes(Times(k.x, h));
    SquareAsTimes(Times(k.y, h));
    SquareAsTimes(Times(k.z, h));
  }

  /** Rodrigues' formula is the quaternion of half the angle. */
  lemma RodriguesAsQuaternion(k: Vec, s: real, c: real, h: real, w: real)
    requires SquareLength(k) == 1.0 && HalfAngle(s, c, h, w)
    ensures HalfQuaternion(k, h, w).Norm() == 1.0
    ensures Rodrigues(k, s, c) == FromQuaternion(HalfQuaternion(k, h, w))
  {
    HalfQuaternionNorm(k, s, c, h, w);
    hide *;
    HalfRepresents(k, s, c, h, w);
    RepresentsRebuilds(HalfQuaternion(k, h, w), Rodrigues(k, s, c));
  }

  // ---- every rotation vector gives a rotation ----

  lemma HalfAngleExists(t: Trig, s: real, c: real) returns (h: real, w: real)
    requires Laws(t) && Square(s) + Square(c) == 1.0
    ensures HalfAngle(s, c, h, w)
  {
    SquareSign(s);
    UnitBound(c, s, 0.0);
    UnitBound(-c, s, 0.0);
    SquareNegated(c);
    var a, b := (1.0 + c) / 2.0, (1.0 - c) / 2.0;
    RootPositive(t, a);
    RootPositive(t, b);
    w := t.sqrt(a);
    h := t.sqrt(b);
    TwiceProduct(s, c, h, w);
    if s < 0.0 {
      SquareNegated(h);
      h := -h;
    }
  }

  lemma TwiceProduct(s: real, c: real, h: real, w: real)
    requires Square(s) + Square(c) == 1.0 && h >= 0.0 && w >= 0.0
    requires 2.0 * Square(w) == 1.0 + c && 2.0 * Square(h) == 1.0 - c
    ensures 2.0 * Times(w, h) == Abs(s) && 2.0 * Times(w, -h) == -Abs(s)
  {
    assert Square(2.0 * Times(w, h)) == (2.0 * Square(w)) * (2.0 * Square(h)) == 1.0 - Square(c);
    SquareNegated(s);
    SquaresEqual(2.0 * Times(w, h), Abs(s));
  }

  lemma RodriguesIsRotation(t: Trig, k: Vec, s: real, c: real)
    requires Laws(t) && SquareLength(k) == 1.0 && Square(s) + Square(c) == 1.0
    ensures IsRotation(Rodrigues(k, s, c))
  {
    hide *;
    var h, w := HalfAngleExists(t, s, c);
    RodriguesAsQuaternion(k, s, c, h, w);
    QuaternionIsRotation(HalfQuaternion(k, h, w));
  }

  lemma Normalized(t: Trig, a: Vec)
    requires Laws(t) && t.sqrt(SquareLength(a)) > 0.0
    ensures var q := t.sqrt(SquareLength(a)); SquareLength(Vec(a.x / q, a.y / q, a.z / q)) == 1.0
  {
    hide Square, Laws;
    SquareSign(a.x);
    SquareSign(a.y);
    SquareSign(a.z);
    var n := SquareLength(a);
    var q := t.sqrt(n);
    RootPositive(t, n);
    UnitParts(q, a);
  }

  /** Every rotation vector gives a rotation. */
  lemma FromRotationVectorIsRotation(t: Trig, a: Vec)
    requires Laws(t)
    ensures IsRotation(FromRotationVector(t, a))
  {
    hide Rodrigues, Laws, IsRotation, SquareLength;
    IdentityIsRotation();
    if t.sqrt(SquareLength(a)) >= SHORT {
      NormalizedIsRotation(t, a);
    }
  }

  lemma NormalizedIsRotation(t: Trig, a: Vec)
    requires Laws(t) && t.sqrt(SquareLength(a)) > 0.0
    ensures var q := t.sqrt(SquareLength(a));
            IsRotation(Rodrigues(Vec(a.x / q, a.y / q, a.z / q), t.sin(q), t.cos(q)))
  {
    hide Rodrigues, IsRotation, SquareLength, Square;
    var q := t.sqrt(SquareLength(a));
    Normalized(t, a);
    assert AngleLaws(t, q);
    hide Laws;
    RodriguesIsRotation(t, Vec(a.x / q, a.y / q, a.z / q), t.sin(q), t.cos(q));
  }

  // ---- matrix to rotation vector ----

  const TINY := EPS * 0.000001

  function CosineOfAngle(r: Mat): real {
    (r.r00 + r.r11 + r.r22 - 1.0) / 2.0
  }

  function AxisLength(t: Trig, r: Mat): real {
    t.sqrt(SquareLength(Axis(r)))
  }

  lemma AxisByCosine(r: Mat)
    requires IsRotation(r)
    ensures SquareLength(Axis(r)) == 4.0 * Times(1.0 + CosineOfAngle(r), 1.0 - CosineOfAngle(r))
    ensures SquareLength(Axis(r)) == 4.0 * (1.0 - Square(CosineOfAngle(r)))
    ensures -1.0 <= CosineOfAngle(r) <= 1.0
  {
    hide Square, SquareLength, Times, IsRotation, Axis;
    var c := CosineOfAngle(r);
    TraceBounds(r);
    AxisNorm(r);
    SumTimesDifference(c);
    assert 1.0 + r.Trace() == 2.0 + 2.0 * c && 3.0 - r.Trace() == 2.0 - 2.0 * c;
  }

  lemma AxisLengthOf(t: Trig, r: Mat)
    requires Laws(t) && IsRotation(r)
    ensures AxisLength(t, r) >= 0.0 && Square(AxisLength(t, r)) == SquareLength(Axis(r))
    ensures SquareLength(Axis(r)) == 4.0 * (1.0 - Square(CosineOfAngle(r)))
    ensures -1.0 <= CosineOfAngle(r) <= 1.0
    ensures -1.0 < CosineOfAngle(r) < 1.0 ==> AxisLength(t, r) > 0.0
  {
    hide Square, SquareLength, Times, Laws, IsRotation, Axis, CosineOfAngle;
    var c := CosineOfAngle(r);
    AxisByCosine(r);
    if -1.0 < c < 1.0 {
      TimesSign(1.0 + c, 1.0 - c);
    }
    LengthNonNegative(Axis(r));
    RootPositive(t, SquareLength(Axis(r)));
  }

  lemma SumTimesDifference(c: real)
    ensures Times(2.0 + 2.0 * c, 2.0 - 2.0 * c) == 4.0 * (1.0 - Square(c)) == 4.0 * Times(1.0 + c, 1.0 - c)
  {
  }

  lemma LengthNonNegative(a: Vec)
    ensures SquareLength(a) >= 0.0
  {
    hide Square;
    SquareSign(a.x);
    SquareSign(a.y);
    SquareSign(a.z);
  }

  /** The axis of a rotation close to a half turn, from the diagonal, with signs from the off-diagonal entries. */
  function HalfTurnAxis(t: Trig, r: Mat): Vec {
    var a, b, c := t.sqrt((r.r00 + 1.0) / 2.0), t.sqrt((r.r11 + 1.0) / 2.0), t.sqrt((r.r22 + 1.0) / 2.0);
    var x := if r.r02 < 0.0 then -a else a;
    var y := if r.r21 < 0.0 then -b else b;
    Vec(if x * y * r.r01 < 0.0 then -x else x, y, c)
  }

  function ToRotationVector(t: Trig, r: Mat): Vec
    requires Laws(t) && IsRotation(r)
  {
    var cp := CosineOfAngle(r);
    if cp > 1.0 - TINY then
      Vec(0.0, 0.0, 0.0)
    else if cp < -1.0 + TINY then
      Scale(HalfTurnAxis(t, r), t.pi)
    else
      AxisLengthOf(t, r);
      var d := AxisLength(t, r);
      var angle := t.atan2(d / 2.0, cp);
      Vec(angle * (r.r21 - r.r12) / d, angle * (r.r02 - r.r20) / d, angle * (r.r10 - r.r01) / d)
  }

  // ---- the general branch ----

  lemma LengthOfScaled(t: Trig, k: Vec, s: real)
    requires Laws(t) && s >= 0.0 && SquareLength(k) == 1.0
    ensures t.sqrt(SquareLength(Scale(k, s))) == s
  {
    assert SquareLength(Scale(k, s)) == Times(SquareLength(k), Square(s));
    assert Times(1.0, Square(s)) == Square(s);
    hide Square, SquareLength;
    RootUnique(t, SquareLength(Scale(k, s)), s);
  }

  /** A unit axis times an angle is turned into Rodrigues' matrix of that axis and angle. */
  lemma FromScaled(t: Trig, k: Vec, s: real)
    requires Laws(t) && s >= SHORT && SquareLength(k) == 1.0
    ensures FromRotationVector(t, Scale(k, s)) == Rodrigues(k, t.sin(s), t.cos(s))
  {
    hide SquareLength, Rodrigues, Laws;
    LengthOfScaled(t, k, s);
    Unscaled(k.x, s);
    Unscaled(k.y, s);
    Unscaled(k.z, s);
    var a := Scale(k, s);
    assert a.x / s == k.x && a.y / s == k.y && a.z / s == k.z;
    hide Scale;
    assert FromRotationVector(t, a) == Rodrigues(Vec(a.x / s, a.y / s, a.z / s), t.sin(s), t.cos(s));
  }

  lemma Unscaled(a: real, s: real)
    requires s != 0.0
    ensures a * s / s == a
  {
  }

  lemma NotShort(t: Trig, s: real)
    requires Laws(t) && s > 0.0 && t.cos(s) <= 1.0 - TINY
    ensures s >= SHORT
  {
    assert AngleLaws(t, s);
    if s < SHORT {
      SquareMonotone(s, SHORT);
    }
  }

  lemma SquareMonotone(x: real, y: real)
    requires 0.0 < x < y
    ensures Square(x) < Square(y)
  {
    TimesSign(y - x, y + x);
    assert Times(y - x, y + x) == Square(y) - Square(x);
  }

  lemma Ratio(a: real, s: real, d: real)
    requires d != 0.0
    ensures s * a / d == a / d * s
  {
  }

  lemma HalfOf(c: real, m: real, d: real)
    requires m > 0.0 && 4.0 * Square(m) == 2.0 + 2.0 * c && Square(d) == 4.0 * (1.0 - Square(c))
    ensures HalfAngle(d / 2.0, c, d / (4.0 * m), m)
  {
    var h := d / (4.0 * m);
    assert 4.0 * m * h == d;
    HalfSquare(c, m, h);
  }

  lemma HalfSquare(c: real, m: real, h: real)
    requires m > 0.0 && 4.0 * Square(m) == 2.0 + 2.0 * c && Square(4.0 * m * h) == 4.0 * (1.0 - Square(c))
    ensures 2.0 * Square(h) == 1.0 - c
  {
    TimesSign(m, m);
    assert Square(4.0 * m * h) == 4.0 * ((4.0 * Square(m)) * Square(h));
    assert 4.0 * (1.0 - Square(c)) == 2.0 * ((2.0 + 2.0 * c) * (1.0 - c));
    assert Times(m, m) * (2.0 * Square(h) - (1.0 - c)) == 0.0;
    ProductZero(Times(m, m), 2.0 * Square(h) - (1.0 - c));
  }

  lemma ComponentOfRatio(a: real, d: real, m: real)
    requires d != 0.0 && m != 0.0
    ensures Times(a / d, d / (4.0 * m)) == Component(a, m)
  {
  }

  /** Rodrigues' matrix of a rotation's own axis and angle is the rotation. */
  lemma RodriguesOfAxis(r: Mat, d: real, m: real)
    requires IsRotation(r) && d > 0.0 && m > 0.0
    requires Square(d) == SquareLength(Axis(r)) && 4.0 * Square(m) == 1.0 + r.Trace()
    requires Square(d) == 4.0 * (1.0 - Square(CosineOfAngle(r)))
    ensures var a := Axis(r); Rodrigues(Vec(a.x / d, a.y / d, a.z / d), d / 2.0, CosineOfAngle(r)) == r
  {
    hide Square, Times, SquareLength, IsRotation, HalfAngle, Rodrigues, FromQuaternion, Represents, Component;
    var a, c, h := Axis(r), CosineOfAngle(r), d / (4.0 * m);
    var k := Vec(a.x / d, a.y / d, a.z / d);
    UnitParts(d, a);
    HalfOf(c, m, d);
    RodriguesAsQuaternion(k, d / 2.0, c, h, m);
    ComponentOfRatio(a.x, d, m);
    ComponentOfRatio(a.y, d, m);
    ComponentOfRatio(a.z, d, m);
    ScalarRepresents(r, m);
    RepresentsRebuilds(HalfQuaternion(k, h, m), r);
  }

  lemma AngleOf(t: Trig, r: Mat)
    requires Laws(t) && IsRotation(r) && -1.0 < CosineOfAngle(r) <= 1.0 - TINY
    ensures var d, c := AxisLength(t, r), CosineOfAngle(r);
            var s := t.atan2(d / 2.0, c);
            d > 0.0 && s >= SHORT && t.sin(s) == d / 2.0 && t.cos(s) == c
  {
    hide IsRotation, SquareLength;
    AxisLengthOf(t, r);
    var d, c := AxisLength(t, r), CosineOfAngle(r);
    assert 4.0 * Square(d / 2.0) == Square(d);
    hide Square;
    UnitAngle(t, d / 2.0, c);
    assert ArctangentLaws(t, d / 2.0, c);
    NotShort(t, t.atan2(d / 2.0, c));
  }

  lemma GeneralBranch(t: Trig, r: Mat)
    requires Laws(t) && IsRotation(r) && -1.0 + TINY <= CosineOfAngle(r) <= 1.0 - TINY
    ensures FromRotationVector(t, ToRotationVector(t, r)) == r
  {
    hide Laws, IsRotation, Square, SquareLength, FromRotationVector, Rodrigues, AxisLength;
    AxisLengthOf(t, r);
    AngleOf(t, r);
    var a, d, c := Axis(r), AxisLength(t, r), CosineOfAngle(r);
    var s := t.atan2(d / 2.0, c);
    var k := Vec(a.x / d, a.y / d, a.z / d);
    UnitParts(d, a);
    Ratio(a.x, s, d);
    Ratio(a.y, s, d);
    Ratio(a.z, s, d);
    assert ToRotationVector(t, r) == Scale(k, s);
    FromScaled(t, k, s);
    var m := Scalar(t, r);
    RootPositive(t, 1.0 + r.Trace());
    SquareOfTwice(m);
    RodriguesOfAxis(r, d, m);
  }

  // ---- close to no turn ----

  lemma NoTurnBranch(t: Trig, r: Mat)
    requires Laws(t) && IsRotation(r) && CosineOfAngle(r) > 1.0 - TINY
    ensures FromRotationVector(t, ToRotationVector(t, r)) == IDENTITY
  {
    assert SquareLength(Vec(0.0, 0.0, 0.0)) == 0.0;
    RootPositive(t, 0.0);
    hide Laws, IsRotation, SquareLength, Square;
  }

  // ---- exactly a half turn ----

  lemma DiagonalRoots(t: Trig, r: Mat)
    requires Laws(t) && IsRotation(r)
    ensures var a, b, c := t.sqrt((r.r00 + 1.0) / 2.0), t.sqrt((r.r11 + 1.0) / 2.0), t.sqrt((r.r22 + 1.0) / 2.0);
            && a >= 0.0 && 2.0 * Square(a) == r.r00 + 1.0
            && b >= 0.0 && 2.0 * Square(b) == r.r11 + 1.0
            && c >= 0.0 && 2.0 * Square(c) == r.r22 + 1.0
  {
    NormsOfRotation(r);
    hide Laws, IsRotation, Square;
    SquareNegated(r.r00);
    SquareNegated(r.r11);
    SquareNegated(r.r22);
    UnitBound(-r.r00, r.r01, r.r02);
    UnitBound(-r.r11, r.r10, r.r12);
    UnitBound(-r.r22, r.r20, r.r21);
    RootPositive(t, (r.r00 + 1.0) / 2.0);
    RootPositive(t, (r.r11 + 1.0) / 2.0);
    RootPositive(t, (r.r22 + 1.0) / 2.0);
  }

  lemma SquareLengthOfHalfTurn(t: Trig, r: Mat)
    requires Laws(t) && IsRotation(r)
    ensures SquareLength(HalfTurnAxis(t, r)) == 2.0 + CosineOfAngle(r)
    ensures var k := HalfTurnAxis(t, r);
            2.0 * Square(k.x) == r.r00 + 1.0 && 2.0 * Square(k.y) == r.r11 + 1.0 && 2.0 * Square(k.z) == r.r22 + 1.0
  {
    hide Laws, IsRotation, Square;
    DiagonalRoots(t, r);
    SquareNegated(t.sqrt((r.r00 + 1.0) / 2.0));
    SquareNegated(t.sqrt((r.r11 + 1.0) / 2.0));
  }

  /** A half turn is symmetric. */
  lemma HalfTurnSymmetric(r: Mat)
    requires IsRotation(r) && r.Trace() == -1.0
    ensures r.r12 == r.r21 && r.r02 == r.r20 && r.r01 == r.r10
  {
    hide IsRotation, Times, SquareLength;
    AxisNorm(r);
    ZeroTimes(3.0 - r.Trace());
    LengthZero(Axis(r));
  }

  lemma ZeroTimes(x: real)
    ensures Times(0.0, x) == 0.0
  {
  }

  lemma LengthZero(a: Vec)
    requires SquareLength(a) == 0.0
    ensures a == Vec(0.0, 0.0, 0.0)
  {
    hide Square;
    SquareSign(a.x);
    SquareSign(a.y);
    SquareSign(a.z);
  }

  /** The off-diagonal entries of a half turn, up to sign, and how their signs are related. */
  lemma HalfTurnEntries(r: Mat)
    requires IsRotation(r) && r.Trace() == -1.0
    ensures Square(r.r01) == Times(1.0 + r.r00, 1.0 + r.r11)
    ensures Square(r.r12) == Times(1.0 + r.r11, 1.0 + r.r22)
    ensures Square(r.r02) == Times(1.0 + r.r22, 1.0 + r.r00)
    ensures Times(r.r01, 1.0 + r.r22) == Times(r.r02, r.r12)
  {
    hide IsRotation, Times, Square;
    var s := Cycle(r);
    CycleIsRotation(r);
    CycleIsRotation(s);
    HalfTurnSymmetric(r);
    HalfTurnEntry(r);
    HalfTurnEntry(s);
    HalfTurnEntry(Cycle(s));
    HalfTurnSigns(r);
  }

  lemma HalfTurnEntry(r: Mat)
    requires IsRotation(r) && r.Trace() == -1.0
    ensures Square(r.r01) == Times(1.0 + r.r00, 1.0 + r.r11)
  {
    HalfTurnSymmetric(r);
    CycleIsRotation(r);
    CycleIsRotation(Cycle(r));
    FirstCofactor(Cycle(Cycle(r)));
    hide IsRotation;
    assert Square(r.r01) == r.r00 * r.r11 - r.r22;
    assert Times(1.0 + r.r00, 1.0 + r.r11) == 1.0 + r.r00 + r.r11 + r.r00 * r.r11;
  }

  lemma HalfTurnSigns(r: Mat)
    requires IsRotation(r) && r.Trace() == -1.0
    ensures Times(r.r01, 1.0 + r.r22) == Times(r.r02, r.r12)
  {
    HalfTurnSymmetric(r);
    MixedOfRotation(r);
    hide IsRotation;
  }

  lemma RootOfSquare(a: real, b: real, e: real)
    requires a >= 0.0 && b >= 0.0 && Square(e) == Times(2.0 * Square(a), 2.0 * Square(b))
    ensures 2.0 * Times(a, b) == Abs(e)
  {
    assert Square(2.0 * Times(a, b)) == Times(2.0 * Square(a), 2.0 * Square(b));
    SquareNegated(e);
    if a > 0.0 && b > 0.0 {
      TimesSign(a, b);
    } else {
      assert Times(a, b) == 0.0;
    }
    hide Square, Times;
    SquaresEqual(2.0 * Times(a, b), Abs(e));
  }

  lemma SignOf(a: real, c: real, e: real)
    requires 2.0 * Times(a, c) == Abs(e)
    ensures 2.0 * Times(if e < 0.0 then -a else a, c) == e
  {
    assert Times(-a, c) == -Times(a, c);
  }

  lemma DoubleProduct(x: real, y: real, c: real, e: real, f: real, g: real)
    requires c > 0.0 && 2.0 * Times(x, c) == f && 2.0 * Times(y, c) == g && Times(e, 2.0 * Square(c)) == Times(f, g)
    ensures 2.0 * Times(x, y) == e
  {
    TimesSign(c, c);
    assert Times(f, g) == 2.0 * Square(c) * (2.0 * Times(x, y)) by {
      DoubleDouble(x, y, c);
    }
    assert Times(c, c) * (2.0 * (2.0 * Times(x, y) - e)) == 0.0;
    ProductZero(Times(c, c), 2.0 * (2.0 * Times(x, y) - e));
  }

  lemma DoubleDouble(x: real, y: real, c: real)
    ensures Times(2.0 * Times(x, c), 2.0 * Times(y, c)) == 2.0 * Square(c) * (2.0 * Times(x, y))
  {
  }

  lemma TripleTimes(x: real, y: real, e: real)
    ensures x * y * e == Times(Times(x, y), e)
  {
  }

  lemma HalfTimes(e: real)
    ensures Times(e / 2.0, e) >= 0.0
    ensures Times(Abs(e) / 2.0, e) < 0.0 <==> e < 0.0
  {
    SquareSign(e);
    assert Times(e / 2.0, e) == Square(e) / 2.0;
    assert Times(-e / 2.0, e) == -(Square(e) / 2.0);
    hide Times, Square;
  }

  lemma TimesZero(x: real)
    ensures Times(x, 0.0) == 0.0
  {
  }

  /** The signs the source gives to the roots match the off-diagonal entries. */
  lemma SignsMatch(a: real, b: real, c: real, e: real, f: real, g: real)
    requires c >= 0.0
    requires 2.0 * Times(a, b) == Abs(e) && 2.0 * Times(a, c) == Abs(f) && 2.0 * Times(b, c) == Abs(g)
    requires Times(e, 2.0 * Square(c)) == Times(f, g)
    ensures var x := if f < 0.0 then -a else a;
            var y := if g < 0.0 then -b else b;
            var z := if x * y * e < 0.0 then -x else x;
            2.0 * Times(z, y) == e && 2.0 * Times(z, c) == f && 2.0 * Times(y, c) == g
  {
    hide Times, Square;
    var x := if f < 0.0 then -a else a;
    var y := if g < 0.0 then -b else b;
    SignOf(a, c, f);
    SignOf(b, c, g);
    TripleTimes(x, y, e);
    HalfTimes(e);
    if c > 0.0 {
      DoubleProduct(x, y, c, e, f, g);
    } else {
      TimesZero(a);
      TimesZero(b);
      TimesZero(-a);
      SignOf(a, b, e);
    }
  }

  lemma HalfTurnRepresents(t: Trig, r: Mat)
    requires Laws(t) && IsRotation(r) && r.Trace() == -1.0
    ensures var k := HalfTurnAxis(t, r); Represents(Quat(k.x, k.y, k.z, 0.0), r)
  {
    hide Laws, IsRotation, Times, Square, SquareLength;
    var a, b, c := t.sqrt((r.r00 + 1.0) / 2.0), t.sqrt((r.r11 + 1.0) / 2.0), t.sqrt((r.r22 + 1.0) / 2.0);
    var k := HalfTurnAxis(t, r);
    DiagonalRoots(t, r);
    SquareLengthOfHalfTurn(t, r);
    HalfTurnSymmetric(r);
    HalfTurnEntries(r);
    TimesCommutes(1.0 + r.r22, 1.0 + r.r00);
    RootOfSquare(a, b, r.r01);
    RootOfSquare(b, c, r.r12);
    RootOfSquare(a, c, r.r02);
    SignsMatch(a, b, c, r.r01, r.r02, r.r21);
    TimesZero(k.x);
    TimesZero(k.y);
    TimesZero(k.z);
  }

  lemma SineOfPi(t: Trig)
    requires Laws(t)
    ensures t.sin(t.pi) == 0.0 && t.cos(t.pi) == -1.0
  {
    assert AngleLaws(t, 0.0);
    assert 0.0 + t.pi == t.pi;
  }

  lemma HalfTurnIsQuaternion(k: Vec)
    requires SquareLength(k) == 1.0
    ensures Rodrigues(k, 0.0, -1.0) == FromQuaternion(Quat(k.x, k.y, k.z, 0.0))
  {
    HalfOfHalfTurn();
    TimesOne(k.x);
    TimesOne(k.y);
    TimesOne(k.z);
    hide SquareLength, HalfAngle, Rodrigues, FromQuaternion, Times;
    RodriguesAsQuaternion(k, 0.0, -1.0, 1.0, 0.0);
  }

  lemma TimesOne(x: real)
    ensures Times(x, 1.0) == x
  {
  }

  lemma HalfOfHalfTurn()
    ensures HalfAngle(0.0, -1.0, 1.0, 0.0)
  {
    assert Square(1.0) == 1.0 && Square(0.0) == 0.0 && Times(0.0, 1.0) == 0.0;
  }

  lemma HalfTurnBranch(t: Trig, r: Mat)
    requires Laws(t) && IsRotation(r) && CosineOfAngle(r) == -1.0
    ensures FromRotationVector(t, ToRotationVector(t, r)) == r
  {
    assert t.pi >= SHORT;
    hide Laws, IsRotation, SquareLength, Rodrigues, FromQuaternion, FromRotationVector, Represents, HalfTurnAxis;
    var k := HalfTurnAxis(t, r);
    SquareLengthOfHalfTurn(t, r);
    FromScaled(t, k, t.pi);
    SineOfPi(t);
    HalfTurnIsQuaternion(k);
    HalfTurnRepresents(t, r);
    RepresentsRebuilds(Quat(k.x, k.y, k.z, 0.0), r);
  }

  // ---- close to a half turn ----

  lemma TraceOfRodrigues(k: Vec, s: real, c: real)
    requires SquareLength(k) == 1.0
    ensures Rodrigues(k, s, c).Trace() == 1.0 + 2.0 * c
  {
    SweepsOfUnit(k, 1.0 - c);
    hide Sweep, Times, SquareLength;
  }

  lemma SquareLengthOfScaled(k: Vec, s: real)
    ensures SquareLength(Scale(k, s)) == Times(SquareLength(k), Square(s))
  {
  }

  lemma TimesNonNegative(x: real, y: real)
    requires x >= 0.0 && y >= 0.0
    ensures Times(x, y) >= 0.0
  {
    if x > 0.0 && y > 0.0 {
      TimesSign(x, y);
    } else {
      assert Times(x, y) == 0.0;
    }
  }

  lemma TimesMonotone(x: real, x': real, y: real, y': real)
    requires 0.0 <= x <= x' && 0.0 <= y <= y'
    ensures 0.0 <= Times(x, y) <= Times(x', y')
  {
    TimesNonNegative(x, y);
    TimesNonNegative(x' - x, y');
    TimesNonNegative(x, y' - y);
    assert Times(x', y') - Times(x, y) == Times(x' - x, y') + Times(x, y' - y);
  }

  lemma TimesLess(n: real, p: real)
    ensures Times(n, p) - p == Times(n - 1.0, p)
  {
  }

  /** The length of the returned vector when the squared length of the axis is 1 + d: a little more than pi. */
  lemma LengthPastPi(t: Trig, k: Vec, d: real)
    requires Laws(t) && 0.0 < d < TINY && SquareLength(k) == 1.0 + d
    ensures var q := t.sqrt(SquareLength(Scale(k, t.pi))); 0.0 <= q - t.pi <= 2.0 * d
  {
    hide Square, SquareLength, Scale;
    var n := t.sqrt(1.0 + d);
    RootPositive(t, 1.0 + d);
    AboveOne(n, d);
    SquareLengthOfScaled(k, t.pi);
    TimesLess(n, t.pi);
    TimesMonotone(n - 1.0, d / 2.0, t.pi, 4.0);
    SquareOfTimes(n, t.pi);
    assert Times(d / 2.0, 4.0) == 2.0 * d;
    hide Times;
    RootUnique(t, SquareLength(Scale(k, t.pi)), Times(n, t.pi));
  }

  lemma SquareOfTimes(x: real, y: real)
    ensures Square(Times(x, y)) == Times(Square(x), Square(y))
  {
  }

  lemma SquareOrdered(x: real, y: real)
    requires 0.0 <= x < y
    ensures Square(x) < Square(y)
  {
    if x > 0.0 {
      SquareMonotone(x, y);
    } else {
      SquareSign(x);
      SquareSign(y);
    }
  }

  lemma SquareAroundOne(d: real)
    ensures Square(1.0) == 1.0 && Square(1.0 + d / 2.0) == 1.0 + d + Square(d) / 4.0
  {
  }

  lemma AboveOne(n: real, d: real)
    requires n >= 0.0 && d > 0.0 && Square(n) == 1.0 + d
    ensures 1.0 <= n <= 1.0 + d / 2.0
  {
    hide Square;
    SquareAroundOne(d);
    SquareSign(d);
    if n < 1.0 {
      SquareOrdered(n, 1.0);
    } else if n > 1.0 + d / 2.0 {
      SquareOrdered(1.0 + d / 2.0, n);
    }
  }

  lemma CosinePastPi(t: Trig, q: real, d: real)
    requires Laws(t) && 0.0 < d < TINY && 0.0 <= q - t.pi <= 2.0 * d
    ensures t.cos(q) < -1.0 + d
  {
    hide Square, Times;
    var x := q - t.pi;
    assert AngleLaws(t, x) && x + t.pi == q;
    TimesMonotone(x, 2.0 * d, x, 2.0 * TINY);
    SquareAsTimes(x);
    DoubleTimes(d);
  }

  lemma DoubleTimes(d: real)
    requires d > 0.0
    ensures Times(2.0 * d, 2.0 * TINY) < 2.0 * d
  {
    assert Times(2.0 * d, 2.0 * TINY) == 4.0 * TINY * d;
  }

  lemma NearHalfTurnBranch(t: Trig, r: Mat)
    requires Laws(t) && IsRotation(r) && -1.0 < CosineOfAngle(r) < -1.0 + TINY
    ensures FromRotationVector(t, ToRotationVector(t, r)) != r
  {
    hide IsRotation, Square, SquareLength, Rodrigues, Laws, HalfTurnAxis;
    var k, d := HalfTurnAxis(t, r), 1.0 + CosineOfAngle(r);
    var v := Scale(k, t.pi);
    var q := t.sqrt(SquareLength(v));
    SquareLengthOfHalfTurn(t, r);
    LengthPastPi(t, k, d);
    CosinePastPi(t, q, d);
    assert q >= SHORT by {
      PiLarge(t);
    }
    Normalized(t, v);
    TraceOfRodrigues(Vec(v.x / q, v.y / q, v.z / q), t.sin(q), t.cos(q));
  }

  lemma PiLarge(t: Trig)
    requires Laws(t)
    ensures t.pi > 3.0
  {
  }

  /**
   * The rotation vector read off a rotation rebuilds it exactly if and only if
   * the cosine of the angle is outside both windows of 1e-12 or at the end of one:
   * the identity and the exact half turns are rebuilt, their neighbours are not.
   */
  lemma RotationVectorRoundTrip(t: Trig, r: Mat)
    requires Laws(t) && IsRotation(r)
    ensures FromRotationVector(t, ToRotationVector(t, r)) == r
       <==> CosineOfAngle(r) == 1.0 || CosineOfAngle(r) == -1.0
            || -1.0 + 0.000000000001 <= CosineOfAngle(r) <= 1.0 - 0.000000000001
  {
    hide Laws, IsRotation, FromRotationVector, ToRotationVector;
    TraceBounds(r);
    var c := CosineOfAngle(r);
    if c > 1.0 - TINY {
      NoTurnBranch(t, r);
    } else if c == -1.0 {
      HalfTurnBranch(t, r);
    } else if c < -1.0 + TINY {
      NearHalfTurnBranch(t, r);
    } else {
      GeneralBranch(t, r);
    }
  }
}
