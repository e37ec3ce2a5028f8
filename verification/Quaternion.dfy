/** The unit-quaternion form of an orientation (conversion flag 4). */
module Quaternion {
  import opened Rotation
  import opened Trigonometry

  /** Vector part x, y, z and scalar part w, in the order of the source's array. */
  datatype Quat = Quat(x: real, y: real, z: real, w: real) {
    function Norm(): real { Square(x) + Square(y) + Square(z) + Square(w) }

    function Negated(): Quat { Quat(-x, -y, -z, -w) }

    function Cycled(): Quat { Quat(y, z, x, w) }
  }

  // ---- quaternion to matrix ----

  function FromQuaternion(q: Quat): Mat {
    Mat(
      1.0 - 2.0 * q.y * q.y - 2.0 * q.z * q.z, 2.0 * (q.x * q.y - q.z * q.w), 2.0 * (q.x * q.z + q.y * q.w),
      2.0 * (q.x * q.y + q.z * q.w), 1.0 - 2.0 * q.x * q.x - 2.0 * q.z * q.z, 2.0 * (q.y * q.z - q.x * q.w),
      2.0 * (q.x * q.z - q.y * q.w), 2.0 * (q.y * q.z + q.x * q.w), 1.0 - 2.0 * q.x * q.x - 2.0 * q.y * q.y)
  }

  /** The ten products of two components. */
  datatype Products = Products(
    xx: real, yy: real, zz: real, ww: real, xy: real, xz: real, yz: real, xw: real, yw: real, zw: real)

  function ProductsOf(q: Quat): Products {
    Products(
      Square(q.x), Square(q.y), Square(q.z), Square(q.w),
      Times(q.x, q.y), Times(q.x, q.z), Times(q.y, q.z), Times(q.x, q.w), Times(q.y, q.w), Times(q.z, q.w))
  }

  predicate ConsistentSquares(p: Products) {
    && Square(p.xy) == Times(p.xx, p.yy) && Square(p.zw) == Times(p.zz, p.ww) && Square(p.xz) == Times(p.xx, p.zz)
    && Square(p.yw) == Times(p.yy, p.ww) && Square(p.yz) == Times(p.yy, p.zz) && Square(p.xw) == Times(p.xx, p.ww)
    && Times(p.xy, p.zw) == Times(p.xz, p.yw)
  }

  predicate ConsistentProducts(p: Products) {
    && Times(p.xz, p.yz) == Times(p.xy, p.zz) && Times(p.xz, p.xw) == Times(p.xx, p.zw)
    && Times(p.yw, p.yz) == Times(p.yy, p.zw) && Times(p.yw, p.xw) == Times(p.xy, p.ww)
    && Times(p.xy, p.yz) == Times(p.yy, p.xz) && Times(p.xy, p.xw) == Times(p.xx, p.yw)
    && Times(p.zw, p.yz) == Times(p.zz, p.yw) && Times(p.zw, p.xw) == Times(p.xz, p.ww)
  }

  lemma SquareRegroup(a: real, b: real)
    ensures Square(Times(a, b)) == Times(Square(a), Square(b))
  {
  }

  /** Two products that share a factor. */
  lemma SharedRegroup(a: real, b: real, c: real)
    ensures Times(Times(a, b), Times(a, c)) == Times(Square(a), Times(b, c)) == Times(Times(b, c), Square(a))
    ensures Times(a, b) == Times(b, a) && Times(a, c) == Times(c, a) && Times(b, c) == Times(c, b)
  {
  }

  lemma Regroup(a: real, b: real, c: real, d: real)
    ensures Times(Times(a, b), Times(c, d)) == Times(Times(a, c), Times(b, d))
  {
  }

  lemma ProductsConsistent(q: Quat)
    ensures ConsistentSquares(ProductsOf(q)) && ConsistentProducts(ProductsOf(q))
  {
    hide Times, Square;
    SquareRegroup(q.x, q.y);
    SquareRegroup(q.z, q.w);
    SquareRegroup(q.x, q.z);
    SquareRegroup(q.y, q.w);
    SquareRegroup(q.y, q.z);
    SquareRegroup(q.x, q.w);
    Regroup(q.x, q.y, q.z, q.w);
    SharedRegroup(q.z, q.x, q.y);
    SharedRegroup(q.x, q.z, q.w);
    SharedRegroup(q.y, q.w, q.z);
    SharedRegroup(q.w, q.y, q.x);
    SharedRegroup(q.y, q.x, q.z);
    SharedRegroup(q.x, q.y, q.w);
    SharedRegroup(q.z, q.w, q.y);
    SharedRegroup(q.w, q.z, q.x);
  }

  function FromProducts(p: Products): Mat {
    Mat(
      p.xx + p.ww - p.yy - p.zz, 2.0 * (p.xy - p.zw), 2.0 * (p.xz + p.yw),
      2.0 * (p.xy + p.zw), p.yy + p.ww - p.xx - p.zz, 2.0 * (p.yz - p.xw),
      2.0 * (p.xz - p.yw), 2.0 * (p.yz + p.xw), p.zz + p.ww - p.xx - p.yy)
  }

  function Sum(p: Products): real {
    p.xx + p.yy + p.zz + p.ww
  }

  lemma SquareOfPair(a: real, b: real)
    ensures Square(2.0 * (a + b)) == 4.0 * Square(a) + 4.0 * Square(b) + 8.0 * Times(a, b)
    ensures Square(2.0 * (a - b)) == 4.0 * Square(a) + 4.0 * Square(b) - 8.0 * Times(a, b)
  {
  }

  lemma FourSquares(a: real, b: real, c: real, d: real)
    ensures Square(a + d - b - c) + 4.0 * (Times(a, b) + Times(c, d) + Times(a, c) + Times(b, d)) == Square(a + b + c + d)
  {
  }

  lemma FirstRow(p: Products)
    requires ConsistentSquares(p)
    ensures var r := FromProducts(p); Dot(r.Row0(), r.Row0()) == Square(Sum(p))
  {
    hide Square, Times, Dot;
    NormAsSquares(FromProducts(p).Row0());
    SquareOfPair(p.xy, p.zw);
    SquareOfPair(p.xz, p.yw);
    FourSquares(p.xx, p.yy, p.zz, p.ww);
  }

  lemma OuterTerms(a: real, b: real, c: real, d: real, e: real, f: real)
    ensures Times(a + d - b - c, 2.0 * (e + f)) + Times(2.0 * (e - f), b + d - a - c)
         == 4.0 * Times(e, d) - 4.0 * Times(e, c) + 4.0 * Times(a, f) - 4.0 * Times(b, f)
  {
  }

  lemma InnerTerms(a: real, b: real, c: real, d: real)
    ensures Times(2.0 * (a + b), 2.0 * (c - d)) == 4.0 * Times(a, c) - 4.0 * Times(a, d) + 4.0 * Times(b, c) - 4.0 * Times(b, d)
  {
  }

  lemma DotAsTimes(a: Vec, b: Vec)
    ensures Dot(a, b) == Times(a.x, b.x) + Times(a.y, b.y) + Times(a.z, b.z)
  {
  }

  lemma FirstTwoRows(p: Products)
    requires ConsistentProducts(p)
    ensures var r := FromProducts(p); Dot(r.Row0(), r.Row1()) == 0.0
  {
    hide Square, Times, Dot;
    DotAsTimes(FromProducts(p).Row0(), FromProducts(p).Row1());
    OuterTerms(p.xx, p.yy, p.zz, p.ww, p.xy, p.zw);
    InnerTerms(p.xz, p.yw, p.yz, p.xw);
  }

  lemma FirstCofactors(p: Products)
    requires ConsistentSquares(p) && ConsistentProducts(p)
    ensures var r := FromProducts(p); Cross(r.Row1(), r.Row2()) == Vec(Sum(p) * r.r00, Sum(p) * r.r01, Sum(p) * r.r02)
  {
  }

  lemma OneMinus(a: real, b: real)
    ensures 1.0 - 2.0 * a * a - 2.0 * b * b == 1.0 - 2.0 * Square(a) - 2.0 * Square(b)
  {
  }

  lemma QuaternionTerms(q: Quat)
    ensures FromQuaternion(q) == Mat(
      1.0 - 2.0 * Square(q.y) - 2.0 * Square(q.z), 2.0 * (Times(q.x, q.y) - Times(q.z, q.w)), 2.0 * (Times(q.x, q.z) + Times(q.y, q.w)),
      2.0 * (Times(q.x, q.y) + Times(q.z, q.w)), 1.0 - 2.0 * Square(q.x) - 2.0 * Square(q.z), 2.0 * (Times(q.y, q.z) - Times(q.x, q.w)),
      2.0 * (Times(q.x, q.z) - Times(q.y, q.w)), 2.0 * (Times(q.y, q.z) + Times(q.x, q.w)), 1.0 - 2.0 * Square(q.x) - 2.0 * Square(q.y))
  {
    OneMinus(q.y, q.z);
    OneMinus(q.x, q.z);
    OneMinus(q.x, q.y);
    hide Square;
  }

  lemma FromQuaternionAsProducts(q: Quat)
    requires q.Norm() == 1.0
    ensures FromQuaternion(q) == FromProducts(ProductsOf(q)) && Sum(ProductsOf(q)) == 1.0
  {
    QuaternionTerms(q);
    hide Square, Times, FromQuaternion;
  }

  lemma CycledMatrix(q: Quat)
    ensures Cycle(FromQuaternion(q)) == FromQuaternion(q.Cycled())
  {
  }

  /** The first row is a unit vector orthogonal to the second and the cross product of the others. */
  lemma FirstRowFacts(q: Quat)
    requires q.Norm() == 1.0
    ensures var r := FromQuaternion(q);
            Dot(r.Row0(), r.Row0()) == 1.0 && Dot(r.Row0(), r.Row1()) == 0.0 && Cross(r.Row1(), r.Row2()) == r.Row0()
  {
    hide ConsistentSquares, ConsistentProducts, Dot, Cross, FromQuaternion, FromProducts, ProductsOf, Sum;
    var p := ProductsOf(q);
    ProductsConsistent(q);
    FromQuaternionAsProducts(q);
    FirstRow(p);
    FirstTwoRows(p);
    FirstCofactors(p);
  }

  /** A unit quaternion gives a rotation. */
  lemma QuaternionIsRotation(q: Quat)
    requires q.Norm() == 1.0
    ensures IsRotation(FromQuaternion(q))
  {
    hide Dot, Cross, FromQuaternion;
    var r := FromQuaternion(q);
    FirstRowFacts(q);
    FirstRowFacts(q.Cycled());
    FirstRowFacts(q.Cycled().Cycled());
    CycledMatrix(q);
    CycledMatrix(q.Cycled());
    assert Cycle(r).Row0() == Turn(r.Row1()) && Cycle(r).Row1() == Turn(r.Row2());
    assert Cycle(Cycle(r)).Row0() == Turn(Turn(r.Row2())) && Cycle(Cycle(r)).Row1() == Turn(Turn(r.Row0()));
    CrossTurns(r.Row1(), r.Row1());
    CrossTurns(r.Row1(), r.Row2());
    CrossTurns(r.Row2(), r.Row2());
    CrossTurns(r.Row2(), r.Row0());
    CrossTurns(Turn(r.Row2()), Turn(r.Row2()));
    CrossTurns(Turn(r.Row2()), Turn(r.Row0()));
    DotSymmetric(r.Row2(), r.Row0());
  }

  // ---- matrix to quaternion ----

  function Scalar(t: Trig, r: Mat): real {
    0.5 * t.sqrt(1.0 + r.Trace())
  }

  /** The output keeps its prior value when the scalar part is below the threshold. */
  function ToQuaternion(t: Trig, r: Mat, prior: Quat): Quat {
    var m := Scalar(t, r);
    if Abs(m) < EPS then prior
    else Quat((r.r21 - r.r12) / (4.0 * m), (r.r02 - r.r20) / (4.0 * m), (r.r10 - r.r01) / (4.0 * m), m)
  }

  // ---- quaternion to matrix and back ----

  lemma TraceOfQuaternion(q: Quat)
    requires q.Norm() == 1.0
    ensures 1.0 + FromQuaternion(q).Trace() == 4.0 * Square(q.w)
  {
    OneMinus(q.y, q.z);
    OneMinus(q.x, q.z);
    OneMinus(q.x, q.y);
    hide Square;
  }

  lemma SquareOfTwice(m: real)
    ensures Square(2.0 * m) == 4.0 * Square(m)
  {
  }

  lemma ScalarOfQuaternion(t: Trig, q: Quat)
    requires Laws(t) && q.Norm() == 1.0
    ensures Scalar(t, FromQuaternion(q)) == Abs(q.w)
  {
    hide Laws, Square, FromQuaternion;
    TraceOfQuaternion(q);
    SquareNegated(q.w);
    SquareOfTwice(Abs(q.w));
    RootUnique(t, 1.0 + FromQuaternion(q).Trace(), 2.0 * Abs(q.w));
  }

  lemma RatioOf(x: real, w: real)
    requires w != 0.0
    ensures 4.0 * x * w / (4.0 * w) == x && 4.0 * x * w / (4.0 * -w) == -x
  {
  }

  lemma AxisOfQuaternion(q: Quat)
    ensures Axis(FromQuaternion(q)) == Vec(4.0 * q.x * q.w, 4.0 * q.y * q.w, 4.0 * q.z * q.w)
  {
  }

  /** The conversion and back gives the quaternion with a positive scalar part, or nothing below the threshold. */
  lemma QuaternionRoundTrip(t: Trig, q: Quat, prior: Quat)
    requires Laws(t) && q.Norm() == 1.0
    ensures ToQuaternion(t, FromQuaternion(q), prior)
         == if Abs(q.w) < 0.000001 then prior else if q.w > 0.0 then q else q.Negated()
  {
    hide Laws, FromQuaternion, Scalar;
    ScalarOfQuaternion(t, q);
    AxisOfQuaternion(q);
    if Abs(q.w) >= EPS {
      RatioOf(q.x, q.w);
      RatioOf(q.y, q.w);
      RatioOf(q.z, q.w);
    }
  }

  /** A quaternion and its negation are the same rotation. */
  lemma NegatedSameRotation(q: Quat)
    ensures FromQuaternion(q.Negated()) == FromQuaternion(q)
  {
    hide FromQuaternion, Times, Square;
    QuaternionTerms(q);
    QuaternionTerms(q.Negated());
    SquareNegated(q.x);
    SquareNegated(q.y);
    SquareNegated(q.z);
    TimesNegated(q.x, q.y);
    TimesNegated(q.x, q.z);
    TimesNegated(q.y, q.z);
    TimesNegated(q.x, q.w);
    TimesNegated(q.y, q.w);
    TimesNegated(q.z, q.w);
  }

  lemma TimesNegated(a: real, b: real)
    ensures Times(-a, -b) == Times(a, b)
  {
  }

  // ---- matrix to quaternion and back ----

  function Component(a: real, m: real): real
    requires m != 0.0
  {
    a / (4.0 * m)
  }

  lemma ComponentProduct(a: real, b: real, m: real, s: real)
    requires m != 0.0 && Times(a, b) == Times(4.0 * Square(m), s)
    ensures 4.0 * Times(Component(a, m), Component(b, m)) == s
  {
    var x, y := Component(a, m), Component(b, m);
    assert a == 4.0 * m * x && b == 4.0 * m * y;
    ScaledProduct(m, x, y, s);
  }

  lemma TimesCommutes(a: real, b: real)
    ensures Times(a, b) == Times(b, a)
  {
  }

  lemma ScaledProduct(m: real, x: real, y: real, s: real)
    requires m != 0.0 && Times(4.0 * m * x, 4.0 * m * y) == Times(4.0 * Square(m), s)
    ensures 4.0 * (x * y) == s
  {
    SquareSign(m);
    assert Square(m) * (4.0 * (4.0 * (x * y) - s)) == Times(4.0 * m * x, 4.0 * m * y) - Times(4.0 * Square(m), s);
    ProductZero(Square(m), 4.0 * (4.0 * (x * y) - s));
  }

  lemma ComponentScalar(a: real, m: real)
    requires m != 0.0
    ensures 4.0 * Times(Component(a, m), m) == a
  {
  }

  /** The products of a quaternion's components are those the rotation prescribes. */
  predicate Represents(q: Quat, r: Mat) {
    && 4.0 * Square(q.x) == 1.0 + r.r00 - r.r11 - r.r22
    && 4.0 * Square(q.y) == 1.0 + r.r11 - r.r22 - r.r00
    && 4.0 * Square(q.z) == 1.0 + r.r22 - r.r00 - r.r11
    && 4.0 * Times(q.x, q.y) == r.r01 + r.r10 && 4.0 * Times(q.y, q.z) == r.r12 + r.r21 && 4.0 * Times(q.x, q.z) == r.r20 + r.r02
    && 4.0 * Times(q.x, q.w) == r.r21 - r.r12 && 4.0 * Times(q.y, q.w) == r.r02 - r.r20 && 4.0 * Times(q.z, q.w) == r.r10 - r.r01
  }

  lemma RepresentsRebuilds(q: Quat, r: Mat)
    requires Represents(q, r)
    ensures FromQuaternion(q) == r
  {
    QuaternionTerms(q);
    hide Times, Square, FromQuaternion;
  }

  lemma ScalarRepresents(r: Mat, m: real)
    requires IsRotation(r) && m != 0.0 && 4.0 * Square(m) == 1.0 + r.Trace()
    ensures var a := Axis(r); Represents(Quat(Component(a.x, m), Component(a.y, m), Component(a.z, m), m), r)
  {
    hide IsRotation, Times, Square, Component;
    var a := Axis(r);
    SquareAsTimes(Component(a.x, m));
    SquareAsTimes(Component(a.y, m));
    SquareAsTimes(Component(a.z, m));
    TimesCommutes(Component(a.z, m), Component(a.x, m));
    AxisSquares(r);
    AxisProducts(r);
    SquareAsTimes(a.x);
    SquareAsTimes(a.y);
    SquareAsTimes(a.z);
    ComponentProduct(a.x, a.x, m, 1.0 + r.r00 - r.r11 - r.r22);
    ComponentProduct(a.y, a.y, m, 1.0 + r.r11 - r.r22 - r.r00);
    ComponentProduct(a.z, a.z, m, 1.0 + r.r22 - r.r00 - r.r11);
    ComponentProduct(a.x, a.y, m, r.r01 + r.r10);
    ComponentProduct(a.y, a.z, m, r.r12 + r.r21);
    ComponentProduct(a.z, a.x, m, r.r20 + r.r02);
    ComponentScalar(a.x, m);
    ComponentScalar(a.y, m);
    ComponentScalar(a.z, m);
  }

  /**
   * The quaternion read off a rotation rebuilds it exactly unless the scalar
   * part is below the threshold and the prior value is not a quaternion of it.
   */
  lemma MatrixRoundTrip(t: Trig, r: Mat, prior: Quat)
    requires Laws(t) && IsRotation(r)
    ensures FromQuaternion(ToQuaternion(t, r, prior)) == r <==> Abs(Scalar(t, r)) >= 0.000001 || FromQuaternion(prior) == r
  {
    hide Laws, IsRotation, FromQuaternion;
    TraceBounds(r);
    RootPositive(t, 1.0 + r.Trace());
    var m := Scalar(t, r);
    SquareOfTwice(m);
    assert 2.0 * m == t.sqrt(1.0 + r.Trace());
    hide Square, Scalar, Represents;
    if Abs(m) >= EPS {
      ScalarRepresents(r, m);
      RepresentsRebuilds(ToQuaternion(t, r, prior), r);
    }
  }
}
