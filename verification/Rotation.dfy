/** Rotation matrices over the reals. */
module Rotation {
  datatype Vec = Vec(x: real, y: real, z: real)

  function Dot(a: Vec, b: Vec): real {
    a.x * b.x + a.y * b.y + a.z * b.z
  }

  function Minor(a: real, a': real, b: real, b': real): real {
    a * b' - a' * b
  }

  function Cross(a: Vec, b: Vec): Vec {
    Vec(Minor(a.y, a.z, b.y, b.z), Minor(a.z, a.x, b.z, b.x), Minor(a.x, a.y, b.x, b.y))
  }

  function Minus(a: Vec, b: Vec): Vec {
    Vec(a.x - b.x, a.y - b.y, a.z - b.z)
  }

  /** A 3 by 3 matrix, entry rij in row i and column j. */
  datatype Mat = Mat(
    r00: real, r01: real, r02: real,
    r10: real, r11: real, r12: real,
    r20: real, r21: real, r22: real)
  {
    function Row0(): Vec { Vec(r00, r01, r02) }

    function Row1(): Vec { Vec(r10, r11, r12) }

    function Row2(): Vec { Vec(r20, r21, r22) }

    function Transpose(): Mat { Mat(r00, r10, r20, r01, r11, r21, r02, r12, r22) }

    function Trace(): real { r00 + r11 + r22 }
  }

  const IDENTITY := Mat(1.0, 0.0, 0.0, 0.0, 1.0, 0.0, 0.0, 0.0, 1.0)

  /** Three unit vectors, orthogonal in pairs. */
  predicate Orthonormal(a: Vec, b: Vec, c: Vec) {
    && Dot(a, a) == 1.0 && Dot(b, b) == 1.0 && Dot(c, c) == 1.0
    && Dot(a, b) == 0.0 && Dot(a, c) == 0.0 && Dot(b, c) == 0.0
  }

  predicate RowsOrthonormal(r: Mat) {
    Orthonormal(r.Row0(), r.Row1(), r.Row2())
  }

  function Det(r: Mat): real {
    Dot(r.Row0(), Cross(r.Row1(), r.Row2()))
  }

  /** SO(3): the rows are orthonormal and right-handed. */
  predicate IsRotation(r: Mat) {
    RowsOrthonormal(r) && Det(r) == 1.0
  }

  lemma IdentityIsRotation()
    ensures IsRotation(IDENTITY)
  {
    hide Dot, Cross;
    UnitAxis(IDENTITY.Row0(), IDENTITY.Row1(), IDENTITY.Row2());
  }

  lemma UnitAxis(a: Vec, b: Vec, c: Vec)
    requires a.x == 1.0 && a.y == 0.0 && a.z == 0.0
    requires b.x == 0.0 && b.y == 1.0 && b.z == 0.0
    requires c.x == 0.0 && c.y == 0.0 && c.z == 1.0
    ensures Orthonormal(a, b, c) && Dot(a, Cross(b, c)) == 1.0
  {
  }

  // ---- each row is the cross product of the other two ----

  lemma Lagrange(a: Vec, b: Vec)
    ensures Dot(Cross(a, b), Cross(a, b)) == Dot(a, a) * Dot(b, b) - Dot(a, b) * Dot(a, b)
  {
  }

  lemma TripleCyclic(a: Vec, b: Vec, c: Vec)
    ensures Dot(a, Cross(b, c)) == Dot(b, Cross(c, a))
  {
  }

  function Times(x: real, y: real): real {
    x * y
  }

  function Square(x: real): real {
    x * x
  }

  lemma TimesSign(x: real, y: real)
    requires x > 0.0 && y > 0.0
    ensures Times(x, y) > 0.0
  {
  }

  lemma SquareAsTimes(x: real)
    ensures Square(x) == Times(x, x) == Times(-x, -x)
  {
  }

  lemma SquareNegated(x: real)
    ensures Square(-x) == Square(x)
  {
    SquareAsTimes(x);
    hide Square;
    SquareAsTimes(-x);
  }

  lemma SquareSign(x: real)
    ensures Square(x) >= 0.0
    ensures Square(x) == 0.0 <==> x == 0.0
  {
    if x == 0.0 {
      assert Square(x) == 0.0;
    } else {
      hide Square, Times;
      SquareAsTimes(x);
      if x > 0.0 {
        TimesSign(x, x);
      } else {
        TimesSign(-x, -x);
      }
    }
  }

  function SquareLength(a: Vec): real {
    Square(a.x) + Square(a.y) + Square(a.z)
  }

  lemma NormAsSquares(a: Vec)
    ensures Dot(a, a) == SquareLength(a)
  {
  }

  lemma NormVanishes(a: Vec)
    requires Dot(a, a) == 0.0
    ensures a == Vec(0.0, 0.0, 0.0)
  {
    hide Square, Dot;
    NormAsSquares(a);
    SquareSign(a.x);
    SquareSign(a.y);
    SquareSign(a.z);
  }

  lemma DotMinus(a: Vec, b: Vec)
    ensures Dot(Minus(a, b), Minus(a, b)) == Dot(a, a) + Dot(b, b) - 2.0 * Dot(a, b)
  {
  }

  /** Two unit vectors with scalar product one are equal. */
  lemma UnitVectorsMeet(a: Vec, b: Vec)
    requires Dot(a, a) == 1.0 && Dot(b, b) == 1.0 && Dot(a, b) == 1.0
    ensures a == b
  {
    hide Dot;
    DotMinus(a, b);
    NormVanishes(Minus(a, b));
  }

  /** A unit vector that completes two orthogonal unit vectors to a right-handed frame is their cross product. */
  lemma CompletesFrame(a: Vec, b: Vec, c: Vec)
    requires Dot(a, a) == 1.0 && Dot(b, b) == 1.0 && Dot(c, c) == 1.0 && Dot(b, c) == 0.0
    requires Dot(a, Cross(b, c)) == 1.0
    ensures a == Cross(b, c)
  {
    hide Dot, Cross;
    Lagrange(b, c);
    UnitVectorsMeet(a, Cross(b, c));
  }

  lemma DotSymmetric(a: Vec, b: Vec)
    ensures Dot(a, b) == Dot(b, a)
  {
  }

  /** The adjugate of a rotation is its transpose. */
  lemma RowsAreCrosses(r: Mat)
    requires IsRotation(r)
    ensures r.Row0() == Cross(r.Row1(), r.Row2())
    ensures r.Row1() == Cross(r.Row2(), r.Row0())
    ensures r.Row2() == Cross(r.Row0(), r.Row1())
  {
    hide Dot, Cross;
    var a, b, c := r.Row0(), r.Row1(), r.Row2();
    DotSymmetric(a, c);
    TripleCyclic(a, b, c);
    TripleCyclic(b, c, a);
    CompletesFrame(a, b, c);
    CompletesFrame(b, c, a);
    CompletesFrame(c, a, b);
  }

  lemma ColumnsFromCrosses(a: Vec, b: Vec, c: Vec)
    requires a == Cross(b, c) && b == Cross(c, a) && c == Cross(a, b) && Dot(a, Cross(b, c)) == 1.0
    ensures a.x * a.x + b.x * b.x + c.x * c.x == 1.0
    ensures a.x * a.y + b.x * b.y + c.x * c.y == 0.0
  {
    assert a.x * (b.y * c.z - b.z * c.y) + b.x * (c.y * a.z - c.z * a.y) + c.x * (a.y * b.z - a.z * b.y) == Dot(a, Cross(b, c));
    assert a.y * (b.y * c.z - b.z * c.y) + b.y * (c.y * a.z - c.z * a.y) + c.y * (a.y * b.z - a.z * b.y) == 0.0;
  }

  function Turn(a: Vec): Vec {
    Vec(a.y, a.z, a.x)
  }

  lemma CrossTurns(a: Vec, b: Vec)
    ensures Cross(Turn(a), Turn(b)) == Turn(Cross(a, b))
    ensures Dot(Turn(a), Turn(b)) == Dot(a, b)
  {
  }

  lemma ColumnsOfRotation(a: Vec, b: Vec, c: Vec)
    requires a == Cross(b, c) && b == Cross(c, a) && c == Cross(a, b) && Dot(a, Cross(b, c)) == 1.0
    ensures a.x * a.x + b.x * b.x + c.x * c.x == 1.0 && a.x * a.y + b.x * b.y + c.x * c.y == 0.0
    ensures a.y * a.y + b.y * b.y + c.y * c.y == 1.0 && a.y * a.z + b.y * b.z + c.y * c.z == 0.0
    ensures a.z * a.z + b.z * b.z + c.z * c.z == 1.0 && a.z * a.x + b.z * b.x + c.z * c.x == 0.0
  {
    hide Dot, Cross;
    var a1, b1, c1 := Turn(a), Turn(b), Turn(c);
    CrossTurns(a, b);
    CrossTurns(b, c);
    CrossTurns(c, a);
    CrossTurns(a, Cross(b, c));
    CrossTurns(a1, b1);
    CrossTurns(b1, c1);
    CrossTurns(c1, a1);
    CrossTurns(a1, Cross(b1, c1));
    ColumnsFromCrosses(a, b, c);
    ColumnsFromCrosses(a1, b1, c1);
    ColumnsFromCrosses(Turn(a1), Turn(b1), Turn(c1));
  }

  /** The columns of a rotation are orthonormal as well. */
  lemma ColumnsOrthonormal(r: Mat)
    requires IsRotation(r)
    ensures RowsOrthonormal(r.Transpose())
  {
    RowsAreCrosses(r);
    ColumnsOfRotation(r.Row0(), r.Row1(), r.Row2());
    hide Cross, Det;
  }

  // ---- the antisymmetric part of a rotation ----

  function Axis(r: Mat): Vec {
    Vec(r.r21 - r.r12, r.r02 - r.r20, r.r10 - r.r01)
  }

  /** The same rotation with the coordinates renamed in a cycle. */
  function Cycle(r: Mat): Mat {
    Mat(r.r11, r.r12, r.r10, r.r21, r.r22, r.r20, r.r01, r.r02, r.r00)
  }

  lemma CycleIsRotation(r: Mat)
    requires IsRotation(r)
    ensures IsRotation(Cycle(r))
  {
    hide Dot, Cross;
    var a, b, c := r.Row0(), r.Row1(), r.Row2();
    var s := Cycle(r);
    assert s.Row0() == Turn(b) && s.Row1() == Turn(c) && s.Row2() == Turn(a);
    CrossTurns(a, a);
    CrossTurns(b, b);
    CrossTurns(c, c);
    CrossTurns(b, c);
    CrossTurns(b, a);
    CrossTurns(c, a);
    CrossTurns(b, Cross(c, a));
    DotSymmetric(a, b);
    DotSymmetric(a, c);
    TripleCyclic(a, b, c);
  }

  lemma SquareOfDifference(a: real, m: real, n: real, p: real, q: real)
    requires a == m * n - p * q && Square(p) + Square(q) == 1.0 + Square(a) - Square(m) - Square(n)
    ensures Square(p - q) == Times(1.0 + (a + m + n), 1.0 + a - m - n)
  {
    assert Square(p - q) == Square(p) + Square(q) - 2.0 * (p * q);
    assert (1.0 + (a + m + n)) * (1.0 + a - m - n) == 1.0 + 2.0 * a + Square(a) - Square(m) - Square(n) - 2.0 * (m * n);
  }

  lemma NormsOfRotation(r: Mat)
    requires IsRotation(r)
    ensures Square(r.r00) + Square(r.r01) + Square(r.r02) == 1.0
    ensures Square(r.r10) + Square(r.r11) + Square(r.r12) == 1.0
    ensures Square(r.r20) + Square(r.r21) + Square(r.r22) == 1.0
    ensures Square(r.r00) + Square(r.r10) + Square(r.r20) == 1.0
  {
    ColumnsOrthonormal(r);
  }

  lemma FirstCofactor(r: Mat)
    requires IsRotation(r)
    ensures r.r00 == r.r11 * r.r22 - r.r12 * r.r21
  {
    RowsAreCrosses(r);
  }

  lemma FirstAxisSquare(r: Mat)
    requires IsRotation(r)
    ensures Square(Axis(r).x) == Times(1.0 + r.Trace(), 1.0 + r.r00 - r.r11 - r.r22)
  {
    NormsOfRotation(r);
    FirstCofactor(r);
    hide Square, Times, IsRotation;
    SquareOfDifference(r.r00, r.r11, r.r22, r.r21, r.r12);
  }

  predicate Mixed(a: real, b: real, p: real, q: real, u: real, v: real, m: real, n: real, k: real) {
    && a == u * v - k * b && b == p * q - a * k
    && m * b + a * n + q * u == 0.0 && m * a + b * n + v * p == 0.0
  }

  lemma ProductOfDifferences(a: real, b: real, p: real, q: real, u: real, v: real, m: real, n: real, k: real)
    requires Mixed(a, b, p, q, u, v, m, n, k)
    ensures Times(u - p, v - q) == Times(1.0 + (m + n + k), b + a)
  {
    assert (u - p) * (v - q) == u * v - q * u - v * p + p * q;
    assert (1.0 + (m + n + k)) * (b + a) == b + a + m * b + m * a + b * n + a * n + k * b + a * k;
  }

  lemma MixedOfRotation(r: Mat)
    requires IsRotation(r)
    ensures Mixed(r.r10, r.r01, r.r12, r.r20, r.r21, r.r02, r.r00, r.r11, r.r22)
  {
    ColumnsOrthonormal(r);
    RowsAreCrosses(r);
  }

  lemma FirstAxisProduct(r: Mat)
    requires IsRotation(r)
    ensures Times(Axis(r).x, Axis(r).y) == Times(1.0 + r.Trace(), r.r01 + r.r10)
  {
    MixedOfRotation(r);
    hide IsRotation, Times, Mixed;
    ProductOfDifferences(r.r10, r.r01, r.r12, r.r20, r.r21, r.r02, r.r00, r.r11, r.r22);
  }

  /** Squares and products of the antisymmetric part, through the trace and the symmetric part. */
  lemma AxisSquares(r: Mat)
    requires IsRotation(r)
    ensures Square(Axis(r).x) == Times(1.0 + r.Trace(), 1.0 + r.r00 - r.r11 - r.r22)
    ensures Square(Axis(r).y) == Times(1.0 + r.Trace(), 1.0 + r.r11 - r.r22 - r.r00)
    ensures Square(Axis(r).z) == Times(1.0 + r.Trace(), 1.0 + r.r22 - r.r00 - r.r11)
  {
    hide IsRotation, Square, Times;
    var s := Cycle(r);
    CycleIsRotation(r);
    CycleIsRotation(s);
    FirstAxisSquare(r);
    FirstAxisSquare(s);
    FirstAxisSquare(Cycle(s));
    assert s.Trace() == r.Trace() == Cycle(s).Trace();
  }

  lemma AxisProducts(r: Mat)
    requires IsRotation(r)
    ensures Times(Axis(r).x, Axis(r).y) == Times(1.0 + r.Trace(), r.r01 + r.r10)
    ensures Times(Axis(r).y, Axis(r).z) == Times(1.0 + r.Trace(), r.r12 + r.r21)
    ensures Times(Axis(r).z, Axis(r).x) == Times(1.0 + r.Trace(), r.r20 + r.r02)
  {
    hide IsRotation, Square, Times;
    var s := Cycle(r);
    CycleIsRotation(r);
    CycleIsRotation(s);
    FirstAxisProduct(r);
    FirstAxisProduct(s);
    FirstAxisProduct(Cycle(s));
    assert s.Trace() == r.Trace() == Cycle(s).Trace();
  }

  lemma UnitBound(a: real, b: real, c: real)
    requires Square(a) + Square(b) + Square(c) == 1.0
    ensures a <= 1.0
    ensures a == 1.0 ==> b == 0.0 && c == 0.0
  {
    SquareSign(b);
    SquareSign(c);
    if a >= 1.0 {
      assert Square(a) - 1.0 == Times(a - 1.0, a + 1.0);
      if a > 1.0 {
        TimesSign(a - 1.0, a + 1.0);
      }
    }
  }

  lemma TimesSum(x: real, a: real, b: real, c: real)
    ensures Times(x, a) + Times(x, b) + Times(x, c) == Times(x, a + b + c)
  {
  }

  /** The length of the antisymmetric part. */
  lemma AxisNorm(r: Mat)
    requires IsRotation(r)
    ensures SquareLength(Axis(r)) == Times(1.0 + r.Trace(), 3.0 - r.Trace())
  {
    hide IsRotation, Square, Times;
    AxisSquares(r);
    TimesSum(1.0 + r.Trace(), 1.0 + r.r00 - r.r11 - r.r22, 1.0 + r.r11 - r.r22 - r.r00, 1.0 + r.r22 - r.r00 - r.r11);
  }

  lemma DiagonalBound(r: Mat)
    requires IsRotation(r)
    ensures r.r00 <= 1.0 && r.r11 <= 1.0 && r.r22 <= 1.0
    ensures r.r00 == 1.0 && r.r11 == 1.0 && r.r22 == 1.0 ==> r == IDENTITY
  {
    NormsOfRotation(r);
    hide IsRotation, Square;
    UnitBound(r.r00, r.r01, r.r02);
    UnitBound(r.r11, r.r10, r.r12);
    UnitBound(r.r22, r.r20, r.r21);
  }

  lemma ProductSign(x: real, y: real)
    requires y > 0.0 && Times(x, y) >= 0.0
    ensures x >= 0.0
  {
    if x < 0.0 {
      OppositeSigns(x, y);
    }
  }

  lemma TraceBounds(r: Mat)
    requires IsRotation(r)
    ensures -1.0 <= r.Trace() <= 3.0
    ensures r.Trace() == 3.0 <==> r == IDENTITY
  {
    hide IsRotation, Square, Times;
    DiagonalBound(r);
    AxisNorm(r);
    SquareSign(Axis(r).x);
    SquareSign(Axis(r).y);
    SquareSign(Axis(r).z);
    if r.Trace() < 3.0 {
      ProductSign(1.0 + r.Trace(), 3.0 - r.Trace());
    }
  }

  lemma OppositeSigns(x: real, y: real)
    requires x < 0.0 && y > 0.0
    ensures Times(x, y) < 0.0
  {
    assert Times(x, y) == -Times(-x, y);
    TimesSign(-x, y);
  }

  // ---- dividing a vector by its length ----

  lemma ProductOfSquares(c: real, x: real)
    ensures Times(Square(c), Square(x)) == Square(c * x)
  {
  }

  lemma SquareOfRatio(c: real, p: real)
    requires c != 0.0
    ensures Times(Square(c), Square(p / c)) == Square(p)
  {
    ProductOfSquares(c, p / c);
    assert c * (p / c) == p;
  }

  lemma ProductZero(x: real, y: real)
    requires x * y == 0.0
    ensures x == 0.0 || y == 0.0
  {
    if x != 0.0 {
      assert y == x * y / x;
    }
  }

  lemma TimesIsFirst(x: real, y: real)
    requires x != 0.0 && Times(x, y) == x
    ensures y == 1.0
  {
    assert x * (y - 1.0) == 0.0;
    ProductZero(x, y - 1.0);
  }

  lemma UnitParts(q: real, a: Vec)
    requires q != 0.0 && Square(q) == SquareLength(a)
    ensures SquareLength(Vec(a.x / q, a.y / q, a.z / q)) == 1.0
  {
    hide Square, Times;
    SquareOfRatio(q, a.x);
    SquareOfRatio(q, a.y);
    SquareOfRatio(q, a.z);
    SquareSign(q);
    TimesSum(Square(q), Square(a.x / q), Square(a.y / q), Square(a.z / q));
    TimesIsFirst(Square(q), SquareLength(Vec(a.x / q, a.y / q, a.z / q)));
  }
}
