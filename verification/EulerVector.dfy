/**
 * Roll-pitch-yaw angles read as a rotation vector: the two mean the same
 * rotation exactly for angles that turn about one axis only.
 */
module EulerVector {
  import opened Rotation
  import opened Trigonometry
  import opened Quaternion
  import opened RotationVector
  import opened EulerAngles

  // ---- half angles ----

  /** An angle with its sine and cosine. */
  datatype Half = Half(angle: real, s: real, c: real) {
    function Flipped(): Half { Half(-angle, -s, c) }
  }

  /** What is used of the sine and cosine of an angle between zero and a quarter turn. */
  predicate Upper(x: real, s: real, c: real) {
    s > 0.0 && Times(s, c) <= x && Times(x, c) <= s
  }

  /** What is used of an angle between plus and minus a quarter turn. */
  predicate Proper(h: Half) {
    && h.c >= 0.0 && Square(h.s) + Square(h.c) == 1.0
    && (h.angle == 0.0 ==> h.s == 0.0 && h.c == 1.0)
    && (h.angle > 0.0 ==> Upper(h.angle, h.s, h.c))
    && (h.angle < 0.0 ==> Upper(-h.angle, -h.s, h.c))
  }

  function Halved(t: Trig, x: real): Half {
    Half(x / 2.0, t.sin(x / 2.0), t.cos(x / 2.0))
  }

  lemma HalfIsProper(t: Trig, x: real)
    requires Laws(t) && -t.pi <= x <= t.pi
    ensures Proper(Halved(t, x))
    ensures t.sin(x) == 2.0 * Times(t.sin(x / 2.0), t.cos(x / 2.0)) && t.cos(x) == 1.0 - 2.0 * Square(t.sin(x / 2.0))
  {
    var h := x / 2.0;
    assert AngleLaws(t, h) && AngleLaws(t, -h) && 2.0 * h == x;
    CosineInside(t, h);
    TimesSigns(t.sin(h), t.cos(h));
    hide Square, Times;
    assert AngleLaws(t, x) && AngleLaws(t, -x) && 2.0 * -h == -x;
  }

  lemma FlippedIsProper(h: Half)
    requires Proper(h)
    ensures Proper(h.Flipped())
  {
    SquareNegated(h.s);
    hide Square, Upper, Times;
    var f := h.Flipped();
    assert -f.angle == h.angle;
    assert -f.s == h.s;
  }

  // ---- the axis of roll, pitch and yaw together ----

  function Term(x: real, y: real, z: real): real {
    x * y * z
  }

  /** The vector part of the quaternion for the half angles of roll, pitch and yaw. */
  function AxisOfAngles(a: Half, b: Half, c: Half): Vec {
    Vec(
      Term(a.s, b.c, c.c) - Term(a.c, b.s, c.s),
      Term(a.c, b.s, c.c) + Term(a.s, b.c, c.s),
      Term(a.c, b.c, c.s) - Term(a.s, b.s, c.c))
  }

  lemma TermTimes(a: real, b: real, c: real, d: real, e: real, f: real)
    ensures Times(Term(a, b, c), Term(d, e, f)) == Term(Times(a, d), Times(b, e), Times(c, f))
  {
  }

  lemma SumTimes(x: real, y: real, u: real, v: real)
    ensures Times(x + y, u + v) == Times(x, u) + Times(x, v) + Times(y, u) + Times(y, v)
    ensures Times(x - y, u + v) == Times(x, u) + Times(x, v) - Times(y, u) - Times(y, v)
    ensures Times(x + y, u - v) == Times(x, u) - Times(x, v) + Times(y, u) - Times(y, v)
    ensures Times(x - y, u - v) == Times(x, u) - Times(x, v) - Times(y, u) + Times(y, v)
  {
  }

  lemma HalfSquares(h: Half)
    requires Proper(h)
    ensures Times(h.s, h.s) == Square(h.s) && Times(h.c, h.c) == 1.0 - Square(h.s) && Times(h.c, h.s) == Times(h.s, h.c)
  {
    SquareAsTimes(h.s);
    SquareAsTimes(h.c);
    TimesCommutes(h.c, h.s);
    hide Square, Times;
  }

  /** The products of the components of v are those a quaternion of r must have in its vector part. */
  predicate AlongAxis(v: Vec, r: Mat) {
    && 4.0 * Square(v.x) == 1.0 + r.r00 - r.r11 - r.r22
    && 4.0 * Square(v.y) == 1.0 + r.r11 - r.r22 - r.r00
    && 4.0 * Square(v.z) == 1.0 + r.r22 - r.r00 - r.r11
    && 4.0 * Times(v.x, v.y) == r.r01 + r.r10 && 4.0 * Times(v.y, v.z) == r.r12 + r.r21 && 4.0 * Times(v.x, v.z) == r.r20 + r.r02
  }

  /** The matrix of the doubled angles, from the squared sines A, B, C and the products P, Q, R of sine and cosine. */
  function Doubled(A: real, P: real, B: real, Q: real, C: real, R: real): Mat {
    Compose(2.0 * P, 1.0 - 2.0 * A, 2.0 * Q, 1.0 - 2.0 * B, 2.0 * R, 1.0 - 2.0 * C)
  }

  /** The components multiplied out, two terms by two. */
  datatype SixProducts = SixProducts(xx: real, yy: real, zz: real, xy: real, yz: real, xz: real)

  function Multiplied(A: real, P: real, B: real, Q: real, C: real, R: real): SixProducts {
    SixProducts(
      Term(A, 1.0 - B, 1.0 - C) - Term(P, Q, R) - Term(P, Q, R) + Term(1.0 - A, B, C),
      Term(1.0 - A, B, 1.0 - C) + Term(P, Q, R) + Term(P, Q, R) + Term(A, 1.0 - B, C),
      Term(1.0 - A, 1.0 - B, C) - Term(P, Q, R) - Term(P, Q, R) + Term(A, B, 1.0 - C),
      Term(P, Q, 1.0 - C) + Term(A, 1.0 - B, R) - Term(1.0 - A, B, R) - Term(P, Q, C),
      Term(1.0 - A, Q, R) - Term(P, B, 1.0 - C) + Term(P, 1.0 - B, C) - Term(A, Q, R),
      Term(P, 1.0 - B, R) - Term(A, Q, 1.0 - C) - Term(1.0 - A, Q, C) + Term(P, B, R))
  }

  lemma MultipliedXX(A: real, P: real, B: real, Q: real, C: real, R: real, r: Mat)
    requires r == Doubled(A, P, B, Q, C, R)
    ensures 4.0 * Multiplied(A, P, B, Q, C, R).xx == 1.0 + r.r00 - r.r11 - r.r22
  {
  }

  lemma MultipliedYY(A: real, P: real, B: real, Q: real, C: real, R: real, r: Mat)
    requires r == Doubled(A, P, B, Q, C, R)
    ensures 4.0 * Multiplied(A, P, B, Q, C, R).yy == 1.0 + r.r11 - r.r22 - r.r00
  {
  }

  lemma MultipliedZZ(A: real, P: real, B: real, Q: real, C: real, R: real, r: Mat)
    requires r == Doubled(A, P, B, Q, C, R)
    ensures 4.0 * Multiplied(A, P, B, Q, C, R).zz == 1.0 + r.r22 - r.r00 - r.r11
  {
  }

  lemma CosineOfYaw(P: real, Q: real, C: real)
    ensures Term(1.0 - 2.0 * C, 2.0 * P, 2.0 * Q) == 4.0 * (Term(P, Q, 1.0 - C) - Term(P, Q, C))
  {
  }

  lemma SineOfYaw(A: real, B: real, R: real)
    ensures Times(1.0 - 2.0 * B, 2.0 * R) - Times(1.0 - 2.0 * A, 2.0 * R) == 4.0 * (Term(A, 1.0 - B, R) - Term(1.0 - A, B, R))
  {
  }

  lemma ComposeEntries(sx: real, cx: real, sy: real, cy: real, sz: real, cz: real)
    ensures Compose(sx, cx, sy, cy, sz, cz).r01 + Compose(sx, cx, sy, cy, sz, cz).r10 == Term(cz, sx, sy) + Times(cy, sz) - Times(cx, sz)
  {
  }

  lemma MultipliedXY(A: real, P: real, B: real, Q: real, C: real, R: real, r: Mat)
    requires r == Doubled(A, P, B, Q, C, R)
    ensures 4.0 * Multiplied(A, P, B, Q, C, R).xy == r.r01 + r.r10
  {
    hide Term, Times, Compose;
    ComposeEntries(2.0 * P, 1.0 - 2.0 * A, 2.0 * Q, 1.0 - 2.0 * B, 2.0 * R, 1.0 - 2.0 * C);
    CosineOfYaw(P, Q, C);
    SineOfYaw(A, B, R);
  }

  lemma MultipliedYZ(A: real, P: real, B: real, Q: real, C: real, R: real, r: Mat)
    requires r == Doubled(A, P, B, Q, C, R)
    ensures 4.0 * Multiplied(A, P, B, Q, C, R).yz == r.r12 + r.r21
  {
  }

  lemma MultipliedXZ(A: real, P: real, B: real, Q: real, C: real, R: real, r: Mat)
    requires r == Doubled(A, P, B, Q, C, R)
    ensures 4.0 * Multiplied(A, P, B, Q, C, R).xz == r.r20 + r.r02
  {
  }

  lemma ComponentsMultiplied(a: Half, b: Half, c: Half)
    requires Proper(a) && Proper(b) && Proper(c)
    ensures var v := AxisOfAngles(a, b, c);
            Multiplied(Square(a.s), Times(a.s, a.c), Square(b.s), Times(b.s, b.c), Square(c.s), Times(c.s, c.c)) ==
            SixProducts(Times(v.x, v.x), Times(v.y, v.y), Times(v.z, v.z), Times(v.x, v.y), Times(v.y, v.z), Times(v.x, v.z))
  {
    hide Square, Times, Term, Proper;
    HalfSquares(a);
    HalfSquares(b);
    HalfSquares(c);
    SumTimes(Term(a.s, b.c, c.c), Term(a.c, b.s, c.s), Term(a.s, b.c, c.c), Term(a.c, b.s, c.s));
    TermTimes(a.s, b.c, c.c, a.s, b.c, c.c);
    TermTimes(a.s, b.c, c.c, a.c, b.s, c.s);
    TermTimes(a.c, b.s, c.s, a.s, b.c, c.c);
    TermTimes(a.c, b.s, c.s, a.c, b.s, c.s);
    SumTimes(Term(a.c, b.s, c.c), Term(a.s, b.c, c.s), Term(a.c, b.s, c.c), Term(a.s, b.c, c.s));
    TermTimes(a.c, b.s, c.c, a.c, b.s, c.c);
    TermTimes(a.c, b.s, c.c, a.s, b.c, c.s);
    TermTimes(a.s, b.c, c.s, a.c, b.s, c.c);
    TermTimes(a.s, b.c, c.s, a.s, b.c, c.s);
    SumTimes(Term(a.c, b.c, c.s), Term(a.s, b.s, c.c), Term(a.c, b.c, c.s), Term(a.s, b.s, c.c));
    TermTimes(a.c, b.c, c.s, a.c, b.c, c.s);
    TermTimes(a.c, b.c, c.s, a.s, b.s, c.c);
    TermTimes(a.s, b.s, c.c, a.c, b.c, c.s);
    TermTimes(a.s, b.s, c.c, a.s, b.s, c.c);
    SumTimes(Term(a.s, b.c, c.c), Term(a.c, b.s, c.s), Term(a.c, b.s, c.c), Term(a.s, b.c, c.s));
    TermTimes(a.s, b.c, c.c, a.c, b.s, c.c);
    TermTimes(a.s, b.c, c.c, a.s, b.c, c.s);
    TermTimes(a.c, b.s, c.s, a.c, b.s, c.c);
    TermTimes(a.c, b.s, c.s, a.s, b.c, c.s);
    SumTimes(Term(a.c, b.s, c.c), Term(a.s, b.c, c.s), Term(a.c, b.c, c.s), Term(a.s, b.s, c.c));
    TermTimes(a.c, b.s, c.c, a.c, b.c, c.s);
    TermTimes(a.c, b.s, c.c, a.s, b.s, c.c);
    TermTimes(a.s, b.c, c.s, a.c, b.c, c.s);
    TermTimes(a.s, b.c, c.s, a.s, b.s, c.c);
    SumTimes(Term(a.s, b.c, c.c), Term(a.c, b.s, c.s), Term(a.c, b.c, c.s), Term(a.s, b.s, c.c));
    TermTimes(a.s, b.c, c.c, a.c, b.c, c.s);
    TermTimes(a.s, b.c, c.c, a.s, b.s, c.c);
    TermTimes(a.c, b.s, c.s, a.c, b.c, c.s);
    TermTimes(a.c, b.s, c.s, a.s, b.s, c.c);
  }

  /** The vector part for the half angles lies along the axis of Rz * Ry * Rx. */
  lemma AnglesAlongAxis(a: Half, b: Half, c: Half, r: Mat)
    requires Proper(a) && Proper(b) && Proper(c)
    requires r == Doubled(Square(a.s), Times(a.s, a.c), Square(b.s), Times(b.s, b.c), Square(c.s), Times(c.s, c.c))
    ensures AlongAxis(AxisOfAngles(a, b, c), r)
  {
    var A, P, B, Q, C, R := Square(a.s), Times(a.s, a.c), Square(b.s), Times(b.s, b.c), Square(c.s), Times(c.s, c.c);
    var v := AxisOfAngles(a, b, c);
    hide Square, Times, Term, Doubled, Multiplied, Proper, AxisOfAngles;
    ComponentsMultiplied(a, b, c);
    MultipliedXX(A, P, B, Q, C, R, r);
    MultipliedYY(A, P, B, Q, C, R, r);
    MultipliedZZ(A, P, B, Q, C, R, r);
    MultipliedXY(A, P, B, Q, C, R, r);
    MultipliedYZ(A, P, B, Q, C, R, r);
    MultipliedXZ(A, P, B, Q, C, R, r);
    SquareAsTimes(v.x);
    SquareAsTimes(v.y);
    SquareAsTimes(v.z);
  }

  // ---- angles that point along their own axis ----

  lemma PairParallel(e: real, f: real, x: real, y: real, m: real)
    requires Square(e) == Square(Times(x, m)) && Square(f) == Square(Times(y, m)) && Times(e, f) == Times(Times(x, m), Times(y, m))
    ensures Times(e, y) == Times(f, x)
  {
    var d := Times(e, y) - Times(f, x);
    DifferenceSquared(e, f, x, y);
    ScaledSquares(x, y, m);
    assert Square(d) == 0.0;
    hide Square, Times;
    SquareSign(d);
  }

  lemma DifferenceSquared(e: real, f: real, x: real, y: real)
    ensures Square(Times(e, y) - Times(f, x))
         == Times(Square(e), Square(y)) - 2.0 * Times(Times(e, f), Times(x, y)) + Times(Square(f), Square(x))
  {
  }

  lemma ScaledSquares(x: real, y: real, m: real)
    ensures Times(Square(Times(x, m)), Square(y)) - 2.0 * Times(Times(Times(x, m), Times(y, m)), Times(x, y)) + Times(Square(Times(y, m)), Square(x)) == 0.0
  {
  }

  /** The angles point along the axis of the rotation they compose. */
  predicate Aligned(a: Half, b: Half, c: Half) {
    var v := AxisOfAngles(a, b, c);
    && Times(v.x, b.angle) == Times(v.y, a.angle)
    && Times(v.z, b.angle) == Times(v.y, c.angle)
    && Times(v.x, c.angle) == Times(v.z, a.angle)
  }

  lemma ParallelAligned(a: Half, b: Half, c: Half, m: real, r: Mat)
    requires AlongAxis(AxisOfAngles(a, b, c), r)
    requires AlongAxis(Vec(Times(a.angle, m), Times(b.angle, m), Times(c.angle, m)), r)
    ensures Aligned(a, b, c)
  {
    var v := AxisOfAngles(a, b, c);
    hide Square, Times, AxisOfAngles;
    PairParallel(v.x, v.y, a.angle, b.angle, m);
    PairParallel(v.y, v.z, b.angle, c.angle, m);
    PairParallel(v.x, v.z, a.angle, c.angle, m);
  }

  lemma TermSigns(x: real, y: real, z: real)
    ensures Term(-x, y, z) == Term(x, -y, z) == Term(x, y, -z) == -Term(x, y, z)
    ensures Term(-x, -y, z) == Term(x, -y, -z) == Term(-x, y, -z) == Term(x, y, z)
  {
  }

  lemma TimesSigns(x: real, y: real)
    ensures Times(-x, y) == Times(x, -y) == -Times(x, y) && Times(-x, -y) == Times(x, y)
  {
  }

  /** Changing the signs of two angles keeps them aligned. */
  lemma FlipFirstTwo(a: Half, b: Half, c: Half)
    requires Aligned(a, b, c)
    ensures Aligned(a.Flipped(), b.Flipped(), c)
  {
    hide Times, Term;
    TermSigns(a.s, b.c, c.c);
    TermSigns(a.c, b.s, c.s);
    TermSigns(a.c, b.s, c.c);
    TermSigns(a.s, b.c, c.s);
    TermSigns(a.s, b.s, c.c);
    var v := AxisOfAngles(a, b, c);
    assert AxisOfAngles(a.Flipped(), b.Flipped(), c) == Vec(-v.x, -v.y, v.z);
    TimesSigns(v.x, b.angle);
    TimesSigns(v.y, a.angle);
    TimesSigns(v.z, b.angle);
    TimesSigns(v.y, c.angle);
    TimesSigns(v.x, c.angle);
    TimesSigns(v.z, a.angle);
  }

  lemma FlipLastTwo(a: Half, b: Half, c: Half)
    requires Aligned(a, b, c)
    ensures Aligned(a, b.Flipped(), c.Flipped())
  {
    hide Times, Term;
    TermSigns(a.s, b.c, c.c);
    TermSigns(a.c, b.s, c.s);
    TermSigns(a.c, b.s, c.c);
    TermSigns(a.s, b.c, c.s);
    TermSigns(a.s, b.s, c.c);
    TermSigns(a.c, b.c, c.s);
    var v := AxisOfAngles(a, b, c);
    assert AxisOfAngles(a, b.Flipped(), c.Flipped()) == Vec(v.x, -v.y, -v.z);
    TimesSigns(v.x, b.angle);
    TimesSigns(v.y, a.angle);
    TimesSigns(v.z, b.angle);
    TimesSigns(v.y, c.angle);
    TimesSigns(v.x, c.angle);
    TimesSigns(v.z, a.angle);
  }

  // ---- aligned angles with no zero among them: the tangents ----

  lemma Scaling(k: real, x: real, y: real)
    requires k > 0.0
    ensures Times(k, x) > Times(k, y) <==> x > y
    ensures Times(k, x) >= Times(k, y) <==> x >= y
  {
    if x > y {
      TimesSign(k, x - y);
      assert Times(k, x - y) == Times(k, x) - Times(k, y);
    }
    if x < y {
      TimesSign(k, y - x);
      assert Times(k, y - x) == Times(k, y) - Times(k, x);
    }
  }

  /** All three cosines are positive, and A, B, C are the tangents. */
  predicate Tangents(a: Half, b: Half, c: Half, A: real, B: real, C: real) {
    a.c > 0.0 && b.c > 0.0 && c.c > 0.0 && a.s == Times(A, a.c) && b.s == Times(B, b.c) && c.s == Times(C, c.c)
  }

  lemma TangentsExist(a: Half, b: Half, c: Half) returns (A: real, B: real, C: real)
    requires a.c > 0.0 && b.c > 0.0 && c.c > 0.0
    ensures Tangents(a, b, c, A, B, C)
  {
    A, B, C := a.s / a.c, b.s / b.c, c.s / c.c;
  }

  function AxisOfTangents(A: real, B: real, C: real): Vec {
    Vec(A - Times(B, C), B + Times(A, C), C - Times(A, B))
  }

  lemma AxisAsTangents(a: Half, b: Half, c: Half, A: real, B: real, C: real)
    requires Tangents(a, b, c, A, B, C)
    ensures var k, v, w := Term(a.c, b.c, c.c), AxisOfAngles(a, b, c), AxisOfTangents(A, B, C);
            k > 0.0 && v.x == Times(k, w.x) && v.y == Times(k, w.y) && v.z == Times(k, w.z)
  {
    TimesSign(a.c, b.c);
    TimesSign(Times(a.c, b.c), c.c);
    TermOfTangents(a.c, b.c, c.c, A, B, C);
  }

  lemma TermOfTangents(x: real, y: real, z: real, A: real, B: real, C: real)
    ensures Term(Times(A, x), y, z) - Term(x, Times(B, y), Times(C, z)) == Times(Term(x, y, z), A - Times(B, C))
    ensures Term(x, Times(B, y), z) + Term(Times(A, x), y, Times(C, z)) == Times(Term(x, y, z), B + Times(A, C))
    ensures Term(x, y, Times(C, z)) - Term(Times(A, x), Times(B, y), z) == Times(Term(x, y, z), C - Times(A, B))
  {
  }

  lemma CancelFactor(k: real, x: real, y: real, u: real, v: real)
    requires k > 0.0 && Times(Times(k, x), u) == Times(Times(k, y), v)
    ensures Times(x, u) == Times(y, v)
  {
    assert k * (Times(x, u) - Times(y, v)) == Times(Times(k, x), u) - Times(Times(k, y), v);
    ProductZero(k, Times(x, u) - Times(y, v));
  }

  /** Alignment through the tangents alone. */
  lemma TangentsAligned(a: Half, b: Half, c: Half, A: real, B: real, C: real)
    requires Tangents(a, b, c, A, B, C) && Aligned(a, b, c)
    ensures var w := AxisOfTangents(A, B, C);
            Times(w.x, b.angle) == Times(w.y, a.angle) && Times(w.z, b.angle) == Times(w.y, c.angle)
  {
    hide Times, Term, AxisOfAngles, AxisOfTangents;
    var k, w := Term(a.c, b.c, c.c), AxisOfTangents(A, B, C);
    AxisAsTangents(a, b, c, A, B, C);
    CancelFactor(k, w.x, w.y, b.angle, a.angle);
    CancelFactor(k, w.z, w.y, b.angle, c.angle);
  }

  /** A tangent is at least its angle, and at most the angle times one plus its own square. */
  lemma TangentBounds(h: Half, T: real)
    requires Proper(h) && h.angle > 0.0 && h.c > 0.0 && h.s == Times(T, h.c)
    ensures T >= h.angle > 0.0 && T - h.angle <= Times(h.angle, Square(T))
  {
    TimesCommutes(T, h.c);
    TimesCommutes(h.angle, h.c);
    SquareSign(h.c);
    TangentFacts(T, h.c);
    hide Times, Square;
    Scaling(h.c, T, h.angle);
    assert Times(Square(h.c), T) <= h.angle;
    AngleFromSquare(h.angle, T, Square(h.c), Square(h.s));
  }

  lemma TangentFacts(T: real, c: real)
    ensures Times(Times(T, c), c) == Times(Square(c), T) && Square(Times(T, c)) == Times(Square(c), Square(T))
  {
  }

  lemma AngleFromSquare(x: real, T: real, cc: real, ss: real)
    requires cc > 0.0 && ss + cc == 1.0 && ss == Times(cc, Square(T)) && Times(cc, T) <= x && x > 0.0
    ensures T - x <= Times(x, Square(T))
  {
    assert Times(cc, x + Times(x, Square(T))) == Times(x, cc + Times(cc, Square(T))) == x;
    hide Times, Square;
    Scaling(cc, T, x + Times(x, Square(T)));
  }

  /** When the angles are positive, the tangent of yaw exceeds that of roll; and the other way round by symmetry. */
  lemma OneSign(A: real, B: real, C: real, b: real, c: real)
    requires A > 0.0 && 0.0 < b < 1.0 && b <= B && C >= c > 0.0 && C - c <= Times(c, Square(C))
    requires Times(C - Times(A, B), b) == Times(B + Times(A, C), c)
    ensures C > A
  {
    TimesSign(A, B);
    TimesSign(Times(A, B), b);
    Scaling(c, B, b);
    assert Times(C, b) > Times(b, c) + Times(c, Times(A, C));
    Scaling(b, Times(c, Square(C)), C - c);
    assert Times(b, C - c) == Times(C, b) - Times(b, c);
    assert Times(b, Times(c, Square(C))) == Times(Times(c, C), Times(b, C));
    assert Times(c, Times(A, C)) == Times(Times(c, C), A);
    TimesSign(c, C);
    Scaling(Times(c, C), Times(b, C), A);
    Scaling(C, 1.0, b);
    assert Times(C, 1.0) == C && Times(C, b) == Times(b, C);
  }

  /** When the pitch has the other sign, its tangent b, taken positive, exceeds that of yaw over the angle of roll. */
  lemma OtherSign(A: real, B: real, C: real, a: real, b: real)
    requires A >= a > 0.0 && B >= b > 0.0 && C > 0.0 && B - b <= Times(b, Square(B))
    requires Times(A + Times(B, C), b) == Times(B - Times(A, C), a)
    ensures Times(a, B) > C
  {
    TimesSign(A, C);
    TimesSign(Times(A, C), a);
    Scaling(b, A, a);
    assert Times(a, B) > Times(a, b) + Times(b, Times(B, C));
    Scaling(a, Times(b, Square(B)), B - b);
    assert Times(a, B - b) == Times(a, B) - Times(a, b);
    assert Times(a, Times(b, Square(B))) == Times(Times(b, B), Times(a, B));
    assert Times(b, Times(B, C)) == Times(Times(b, B), C);
    TimesSign(b, B);
    Scaling(Times(b, B), Times(a, B), C);
  }

  // ---- no aligned angles with more than one other than zero ----

  /** What is used of half a pitch: between plus and minus an eighth of a turn. */
  predicate Small(h: Half) {
    Proper(h) && h.c > 0.0 && -1.0 < h.angle < 1.0 && -h.c <= h.s <= h.c
  }

  lemma TermSign(x: real, y: real, z: real)
    requires x >= 0.0 && y >= 0.0 && z >= 0.0
    ensures Term(x, y, z) >= 0.0
    ensures Term(x, y, z) > 0.0 <==> x > 0.0 && y > 0.0 && z > 0.0
  {
    assert Term(x, y, z) == Times(Times(x, y), z);
    if x > 0.0 && y > 0.0 && z > 0.0 {
      TimesSign(x, y);
      TimesSign(Times(x, y), z);
    }
  }

  lemma SameSign(x: real, u: real, y: real, v: real)
    requires Times(x, u) == Times(y, v) && u > 0.0 && v > 0.0
    ensures y > 0.0 ==> x > 0.0
    ensures x > 0.0 ==> y > 0.0
  {
    if y > 0.0 { TimesSign(y, v); }
    if x > 0.0 { TimesSign(x, u); }
    if x <= 0.0 && y > 0.0 { NonPositiveProduct(x, u); }
    if y <= 0.0 && x > 0.0 { NonPositiveProduct(y, v); }
  }

  lemma NonPositiveProduct(x: real, u: real)
    requires x <= 0.0 && u > 0.0
    ensures Times(x, u) <= 0.0
  {
    if x < 0.0 { OppositeSigns(x, u); }
  }

  lemma PositiveCosines(a: Half, b: Half, c: Half)
    requires Proper(a) && Small(b) && Proper(c) && Aligned(a, b, c)
    requires a.angle > 0.0 && b.angle > 0.0 && c.angle > 0.0
    ensures a.c > 0.0 && c.c > 0.0
  {
    var v := AxisOfAngles(a, b, c);
    hide Times, Term;
    TermSign(a.c, b.s, c.c);
    TermSign(a.s, b.c, c.s);
    TermSign(a.s, b.c, c.c);
    TermSign(a.c, b.s, c.s);
    TermSign(a.c, b.c, c.s);
    TermSign(a.s, b.s, c.c);
    SameSign(v.x, b.angle, v.y, a.angle);
    SameSign(v.z, b.angle, v.y, c.angle);
  }

  lemma PositiveNotAligned(a: Half, b: Half, c: Half)
    requires Proper(a) && Small(b) && Proper(c) && a.angle > 0.0 && b.angle > 0.0 && c.angle > 0.0
    ensures !Aligned(a, b, c)
  {
    if Aligned(a, b, c) {
      hide Times, Term, Square, Aligned, Upper;
      PositiveCosines(a, b, c);
      var A, B, C := TangentsExist(a, b, c);
      TangentsAligned(a, b, c, A, B, C);
      TangentBounds(a, A);
      TangentBounds(b, B);
      TangentBounds(c, C);
      TimesCommutes(A, C);
      TimesCommutes(B, C);
      TimesCommutes(A, B);
      OneSign(A, B, C, b.angle, c.angle);
      OneSign(C, B, A, b.angle, a.angle);
    }
  }

  lemma MixedCosines(a: Half, b: Half, c: Half)
    requires Proper(a) && Small(b) && Proper(c) && Aligned(a, b, c)
    requires a.angle > 0.0 && b.angle < 0.0 && c.angle > 0.0
    ensures a.c > 0.0 && c.c > 0.0
  {
    var v := AxisOfAngles(a, b, c);
    hide Times, Term;
    TermSigns(a.c, b.s, c.c);
    TermSigns(a.c, b.s, c.s);
    TermSign(a.c, -b.s, c.c);
    TermSign(a.s, b.c, c.s);
    TermSign(a.s, b.c, c.c);
    TermSign(a.c, -b.s, c.s);
    TimesSigns(v.x, b.angle);
    TimesSigns(v.y, a.angle);
    SameSign(v.x, -b.angle, -v.y, a.angle);
    if v.y > 0.0 {
      SameSign(-v.x, -b.angle, v.y, a.angle);
    }
  }

  lemma MixedNotAligned(a: Half, b: Half, c: Half)
    requires Proper(a) && Small(b) && Proper(c) && a.angle > 0.0 && b.angle < 0.0 && c.angle > 0.0
    ensures !Aligned(a, b, c)
  {
    if Aligned(a, b, c) {
      hide Times, Term, Square, Aligned, Upper;
      MixedCosines(a, b, c);
      var A, N, C := TangentsExist(a, b, c);
      var B := -N;
      TangentsAligned(a, b, c, A, N, C);
      TangentBounds(a, A);
      TangentBounds(c, C);
      TimesSigns(N, b.c);
      FlippedIsProper(b);
      TangentBounds(b.Flipped(), B);
      TimesSigns(B, C);
      TimesSigns(A, B);
      TimesCommutes(A, C);
      TimesCommutes(A, B);
      TimesSigns(A + Times(B, C), -b.angle);
      TimesSigns(C + Times(A, B), -b.angle);
      TimesSigns(B - Times(A, C), a.angle);
      TimesSigns(B - Times(A, C), c.angle);
      OtherSign(A, B, C, a.angle, -b.angle);
      OtherSign(C, B, A, c.angle, -b.angle);
      TangentAtMostOne(B, b.c);
      Scaling(a.angle, 1.0, B);
      Scaling(c.angle, 1.0, B);
      TimesOne(a.angle);
      TimesOne(c.angle);
    }
  }

  lemma TangentAtMostOne(B: real, c: real)
    requires c > 0.0 && Times(B, c) <= c
    ensures B <= 1.0
  {
    Scaling(c, B, 1.0);
    TimesCommutes(B, c);
    TimesOne(c);
  }

  lemma ThreeNotAligned(a: Half, b: Half, c: Half)
    requires Proper(a) && Small(b) && Proper(c) && a.angle != 0.0 && b.angle != 0.0 && c.angle != 0.0
    ensures !Aligned(a, b, c)
  {
    hide Aligned, Proper, Small;
    if Aligned(a, b, c) {
      FlippedIsProper(a);
      FlippedIsProper(c);
      FlippedIsSmall(b);
      if a.angle > 0.0 && c.angle > 0.0 {
        SettledSigns(a, b, c);
      } else if a.angle < 0.0 && c.angle > 0.0 {
        FlipFirstTwo(a, b, c);
        SettledSigns(a.Flipped(), b.Flipped(), c);
      } else if a.angle > 0.0 {
        FlipLastTwo(a, b, c);
        SettledSigns(a, b.Flipped(), c.Flipped());
      } else {
        FlipFirstTwo(a, b, c);
        FlipLastTwo(a.Flipped(), b.Flipped(), c);
        FlippedIsSmall(b.Flipped());
        SettledSigns(a.Flipped(), b.Flipped().Flipped(), c.Flipped());
      }
    }
  }

  lemma FlippedIsSmall(h: Half)
    requires Small(h)
    ensures Small(h.Flipped())
  {
    FlippedIsProper(h);
    hide Proper;
  }

  lemma SettledSigns(a: Half, b: Half, c: Half)
    requires Proper(a) && Small(b) && Proper(c) && a.angle > 0.0 && b.angle != 0.0 && c.angle > 0.0
    ensures !Aligned(a, b, c)
  {
    hide Aligned, Proper, Small;
    if b.angle > 0.0 { PositiveNotAligned(a, b, c); } else { MixedNotAligned(a, b, c); }
  }

  lemma NonzeroProduct(x: real, y: real)
    requires x != 0.0 && y != 0.0
    ensures Times(x, y) != 0.0
  {
    if Times(x, y) == 0.0 { ProductZero(x, y); }
  }

  lemma ProperSine(h: Half)
    requires Proper(h)
    ensures h.s == 0.0 <==> h.angle == 0.0
  {
    hide Square, Times;
  }

  lemma TermWithOne(x: real, y: real)
    ensures Term(x, 1.0, y) == Term(1.0, x, y) == Term(x, y, 1.0) == Times(x, y)
    ensures Term(x, 0.0, y) == Term(0.0, x, y) == Term(x, y, 0.0) == 0.0
  {
  }

  lemma TwoNotAligned(a: Half, b: Half, c: Half)
    requires Proper(a) && Small(b) && Proper(c)
    requires (a.angle == 0.0 && b.angle != 0.0 && c.angle != 0.0) || (a.angle != 0.0 && b.angle == 0.0 && c.angle != 0.0)
          || (a.angle != 0.0 && b.angle != 0.0 && c.angle == 0.0)
    ensures !Aligned(a, b, c)
  {
    hide Times, Term, Square, Upper;
    ProperSine(a);
    ProperSine(b);
    ProperSine(c);
    var v := AxisOfAngles(a, b, c);
    TimesZero(v.x);
    TimesZero(v.y);
    TimesZero(v.z);
    if a.angle == 0.0 {
      TermWithOne(b.c, c.c);
      TermWithOne(b.s, c.s);
      NonzeroProduct(b.s, c.s);
      NonzeroProduct(v.x, b.angle);
    } else if b.angle == 0.0 {
      TermWithOne(a.c, c.c);
      TermWithOne(a.s, c.s);
      NonzeroProduct(a.s, c.s);
      NonzeroProduct(v.y, a.angle);
    } else {
      TermWithOne(a.c, b.c);
      TermWithOne(a.s, b.s);
      NonzeroProduct(a.s, b.s);
      NonzeroProduct(v.z, b.angle);
    }
  }

  // ---- angles read as a rotation vector ----

  /** At most one of the three angles is not zero. */
  predicate OneAxis(a: Vec) {
    (a.y == 0.0 && a.z == 0.0) || (a.x == 0.0 && a.z == 0.0) || (a.x == 0.0 && a.y == 0.0)
  }

  lemma PitchIsSmall(t: Trig, y: real)
    requires Laws(t) && -t.pi / 2.0 <= y <= t.pi / 2.0
    ensures Small(Halved(t, y))
  {
    HalfIsProper(t, y);
    CosineInside(t, y / 2.0);
    CosineInside(t, y);
    var h := Halved(t, y);
    assert Square(h.s) <= Square(h.c);
    hide Square, Upper, Times, Laws;
    SquareNegated(h.s);
    SquareNegated(h.c);
    RootsOrdered(h.s, h.c);
    RootsOrdered(-h.s, h.c);
  }

  lemma RootsOrdered(x: real, y: real)
    requires y >= 0.0 && Square(x) <= Square(y)
    ensures x <= y
  {
    if x > y { SquareOrdered(y, x); }
  }

  lemma EulerAsDoubled(t: Trig, v: Vec)
    requires Laws(t) && InRange(t, v)
    ensures var a, b, c := Halved(t, v.x), Halved(t, v.y), Halved(t, v.z);
            FromEuler(t, v) == Doubled(Square(a.s), Times(a.s, a.c), Square(b.s), Times(b.s, b.c), Square(c.s), Times(c.s, c.c))
  {
    hide Compose, Times, Square, Proper;
    assert -t.pi <= v.y <= t.pi;
    hide Laws;
    DoubledAngle(t, v.x);
    DoubledAngle(t, v.y);
    DoubledAngle(t, v.z);
  }

  lemma DoubledAngle(t: Trig, x: real)
    requires Laws(t) && -t.pi <= x <= t.pi
    ensures t.sin(x) == 2.0 * Times(Halved(t, x).s, Halved(t, x).c) && t.cos(x) == 1.0 - 2.0 * Square(Halved(t, x).s)
  {
    hide Laws, Times, Square, Proper;
    HalfIsProper(t, x);
  }

  lemma Regrouped(x: real, q: real, h: real)
    requires q != 0.0
    ensures Times(x / q, h) == Times(x / 2.0, 2.0 * h / q)
  {
  }

  /** Rodrigues' matrix has the rotation vector along its axis. */
  lemma VectorAlongAxis(t: Trig, v: Vec, q: real)
    requires Laws(t) && q > 0.0 && SquareLength(Vec(v.x / q, v.y / q, v.z / q)) == 1.0
    ensures var m := 2.0 * t.sin(q / 2.0) / q;
            AlongAxis(Vec(Times(v.x / 2.0, m), Times(v.y / 2.0, m), Times(v.z / 2.0, m)),
                      Rodrigues(Vec(v.x / q, v.y / q, v.z / q), t.sin(q), t.cos(q)))
  {
    var h, w := t.sin(q / 2.0), t.cos(q / 2.0);
    assert AngleLaws(t, q / 2.0) && 2.0 * (q / 2.0) == q;
    TimesCommutes(h, w);
    Regrouped(v.x, q, h);
    Regrouped(v.y, q, h);
    Regrouped(v.z, q, h);
    hide Laws, Times, Square, SquareLength, Rodrigues;
    HalfRepresents(Vec(v.x / q, v.y / q, v.z / q), t.sin(q), t.cos(q), h, w);
  }

  lemma SameMeansOneAxis(t: Trig, v: Vec)
    requires Laws(t) && InRange(t, v) && t.sqrt(SquareLength(v)) >= SHORT
    requires FromRotationVector(t, v) == FromEuler(t, v)
    ensures OneAxis(v)
  {
    var q := t.sqrt(SquareLength(v));
    var a, b, c := Halved(t, v.x), Halved(t, v.y), Halved(t, v.z);
    hide Laws, SquareLength, Rodrigues, FromEuler, Proper, Aligned, AlongAxis, Doubled, AxisOfAngles;
    Normalized(t, v);
    VectorAlongAxis(t, v, q);
    HalfIsProper(t, v.x);
    HalfIsProper(t, v.z);
    PitchIsSmall(t, v.y);
    SmallIsProper(b);
    EulerAsDoubled(t, v);
    AnglesAlongAxis(a, b, c, FromEuler(t, v));
    ParallelAligned(a, b, c, 2.0 * t.sin(q / 2.0) / q, FromEuler(t, v));
    hide Small;
    if !OneAxis(v) {
      if v.x != 0.0 && v.y != 0.0 && v.z != 0.0 { ThreeNotAligned(a, b, c); } else { TwoNotAligned(a, b, c); }
    }
  }

  lemma SmallIsProper(h: Half)
    requires Small(h)
    ensures Proper(h)
  {
  }

  // ---- turning about one axis ----

  lemma LengthOnAxis(t: Trig, v: Vec, x: real)
    requires Laws(t) && (v == Vec(x, 0.0, 0.0) || v == Vec(0.0, x, 0.0) || v == Vec(0.0, 0.0, x))
    ensures t.sqrt(SquareLength(v)) == Abs(x)
  {
    assert Square(0.0) == 0.0;
    SquareNegated(x);
    hide Square, Laws;
    RootUnique(t, SquareLength(v), Abs(x));
  }

  lemma SignedSine(t: Trig, x: real)
    requires Laws(t) && x != 0.0
    ensures x / Abs(x) == (if x < 0.0 then -1.0 else 1.0)
    ensures Times(x / Abs(x), t.sin(Abs(x))) == t.sin(x) && t.cos(Abs(x)) == t.cos(x) && Square(x / Abs(x)) == 1.0
  {
    assert AngleLaws(t, x);
    RatioSign(x);
    SquareNegated(1.0);
    TimesSigns(1.0, t.sin(Abs(x)));
    TimesCommutes(1.0, t.sin(Abs(x)));
    TimesOne(t.sin(Abs(x)));
    assert Square(1.0) == 1.0;
    hide Times, Square, Laws;
  }

  lemma RatioSign(x: real)
    requires x != 0.0
    ensures x / Abs(x) == if x < 0.0 then -1.0 else 1.0
  {
  }

  lemma SineOfZero(t: Trig)
    requires Laws(t)
    ensures t.sin(0.0) == 0.0 && t.cos(0.0) == 1.0
  {
  }

  lemma SweepOnAxis(k: real, v: real)
    requires Square(k) == 1.0
    ensures Sweep(k, k, v) == v && Sweep(k, 0.0, v) == 0.0 && Sweep(0.0, k, v) == 0.0 && Sweep(0.0, 0.0, v) == 0.0
  {
    assert Sweep(k, k, v) == Times(Square(k), v);
  }

  lemma ComposeOneAxis(s: real, c: real)
    ensures Compose(s, c, 0.0, 1.0, 0.0, 1.0) == Mat(1.0, 0.0, 0.0, 0.0, c, -s, 0.0, s, c)
    ensures Compose(0.0, 1.0, s, c, 0.0, 1.0) == Mat(c, 0.0, s, 0.0, 1.0, 0.0, -s, 0.0, c)
    ensures Compose(0.0, 1.0, 0.0, 1.0, s, c) == Mat(c, -s, 0.0, s, c, 0.0, 0.0, 0.0, 1.0)
  {
  }

  lemma OneAxisMeansSame(t: Trig, v: Vec)
    requires Laws(t) && OneAxis(v) && t.sqrt(SquareLength(v)) >= SHORT
    ensures FromRotationVector(t, v) == FromEuler(t, v)
  {
    hide Laws, Compose, Sweep, Times, Square, SquareLength;
    var x := if v.x != 0.0 then v.x else if v.y != 0.0 then v.y else v.z;
    LengthOnAxis(t, v, x);
    SignedSine(t, x);
    SineOfZero(t);
    var k, s, c := x / Abs(x), t.sin(Abs(x)), t.cos(x);
    ComposeOneAxis(t.sin(x), c);
    SweepOnAxis(k, 1.0 - c);
    ZeroTimes(s);
    assert 0.0 / Abs(x) == 0.0;
  }

  // ---- vectors too short to turn ----

  lemma EntryAtMostLength(t: Trig, v: Vec)
    requires Laws(t)
    ensures var q := t.sqrt(SquareLength(v));
            Abs(v.x) <= q && Abs(v.y) <= q && Abs(v.z) <= q
  {
    hide Square, Laws;
    SquareSign(v.x);
    SquareSign(v.y);
    SquareSign(v.z);
    SquareNegated(v.x);
    SquareNegated(v.y);
    SquareNegated(v.z);
    var q := t.sqrt(SquareLength(v));
    RootPositive(t, SquareLength(v));
    RootsOrdered(Abs(v.x), q);
    RootsOrdered(Abs(v.y), q);
    RootsOrdered(Abs(v.z), q);
  }

  lemma ZeroSine(t: Trig, x: real)
    requires Laws(t) && t.sin(x) == 0.0 && Abs(x) < SHORT
    ensures x == 0.0
  {
    assert AngleLaws(t, x) && AngleLaws(t, -x);
  }

  lemma IdentityAngles(sx: real, cx: real, sy: real, cy: real, sz: real, cz: real)
    requires Compose(sx, cx, sy, cy, sz, cz) == IDENTITY
    ensures sx == 0.0 && sy == 0.0 && sz == 0.0
  {
    assert cy * cz == 1.0 && cy * sx == 0.0 && cy * sz == 0.0;
    ProductZero(cy, sx);
    ProductZero(cy, sz);
  }

  lemma ShortIsSameIff(t: Trig, v: Vec)
    requires Laws(t) && t.sqrt(SquareLength(v)) < SHORT
    ensures FromRotationVector(t, v) == FromEuler(t, v) <==> v == Vec(0.0, 0.0, 0.0)
  {
    hide Laws, Compose, SquareLength;
    EntryAtMostLength(t, v);
    SineOfZero(t);
    ComposeOneAxis(0.0, 1.0);
    if FromEuler(t, v) == IDENTITY {
      IdentityAngles(t.sin(v.x), t.cos(v.x), t.sin(v.y), t.cos(v.y), t.sin(v.z), t.cos(v.z));
      ZeroSine(t, v.x);
      ZeroSine(t, v.y);
      ZeroSine(t, v.z);
    }
  }

  /**
   * Roll, pitch and yaw, read as a rotation vector, mean the rotation they compose
   * if and only if they are all zero, or only one is not and it is not too short
   * to be taken for a turn.
   */
  lemma ReadAsVectorIff(t: Trig, v: Vec)
    requires Laws(t) && InRange(t, v)
    ensures FromRotationVector(t, v) == FromEuler(t, v) <==>
            v == Vec(0.0, 0.0, 0.0) || (OneAxis(v) && t.sqrt(SquareLength(v)) >= 0.0000000001)
  {
    hide Laws, FromRotationVector, FromEuler, SquareLength;
    if t.sqrt(SquareLength(v)) < SHORT {
      ShortIsSameIff(t, v);
    } else {
      LengthOfZero(t);
      if OneAxis(v) { OneAxisMeansSame(t, v); }
      if FromRotationVector(t, v) == FromEuler(t, v) { SameMeansOneAxis(t, v); }
    }
  }

  lemma LengthOfZero(t: Trig)
    requires Laws(t)
    ensures t.sqrt(SquareLength(Vec(0.0, 0.0, 0.0))) == 0.0
  {
    LengthOnAxis(t, Vec(0.0, 0.0, 0.0), 0.0);
  }
}
