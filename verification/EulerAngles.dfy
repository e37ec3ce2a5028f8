/** The roll-pitch-yaw form of an orientation (conversion flag 2). */
module EulerAngles {
  import opened Rotation
  import opened Trigonometry

  // ---- angles to matrix ----

  /** Rz * Ry * Rx from the sines and cosines. */
  function Compose(sx: real, cx: real, sy: real, cy: real, sz: real, cz: real): Mat {
    Mat(
      cy * cz, cz * sx * sy - cx * sz, sx * sz + cx * cz * sy,
      cy * sz, cx * cz + sx * sy * sz, cx * sy * sz - cz * sx,
      -sy, cy * sx, cx * cy)
  }

  function Column(r: Mat, j: nat): Vec {
    match j
    case 0 => Vec(r.r00, r.r10, r.r20)
    case 1 => Vec(r.r01, r.r11, r.r21)
    case _ => Vec(r.r02, r.r12, r.r22)
  }

  /** The product of two matrices: first b, then a. */
  function Product(a: Mat, b: Mat): Mat {
    Mat(
      Dot(a.Row0(), Column(b, 0)), Dot(a.Row0(), Column(b, 1)), Dot(a.Row0(), Column(b, 2)),
      Dot(a.Row1(), Column(b, 0)), Dot(a.Row1(), Column(b, 1)), Dot(a.Row1(), Column(b, 2)),
      Dot(a.Row2(), Column(b, 0)), Dot(a.Row2(), Column(b, 1)), Dot(a.Row2(), Column(b, 2)))
  }

  /** Turns about the coordinate axes. */
  function AboutX(s: real, c: real): Mat {
    Mat(1.0, 0.0, 0.0, 0.0, c, -s, 0.0, s, c)
  }

  function AboutY(s: real, c: real): Mat {
    Mat(c, 0.0, s, 0.0, 1.0, 0.0, -s, 0.0, c)
  }

  function AboutZ(s: real, c: real): Mat {
    Mat(c, -s, 0.0, s, c, 0.0, 0.0, 0.0, 1.0)
  }

  lemma DotTimes(a: Vec, b: Vec)
    ensures Dot(a, b) == Times(a.x, b.x) + Times(a.y, b.y) + Times(a.z, b.z)
  {
  }

  lemma SimpleTimes(x: real)
    ensures Times(x, 0.0) == Times(0.0, x) == 0.0 && Times(x, 1.0) == Times(1.0, x) == x
  {
  }

  lemma NegatedTimes(x: real, y: real)
    ensures Times(-x, y) == Times(x, -y) == -Times(x, y)
  {
  }

  /** What the rows of the three turns make of a column. */
  lemma TurnedColumn(s: real, c: real, v: Vec)
    ensures Dot(AboutX(s, c).Row0(), v) == v.x && Dot(AboutX(s, c).Row1(), v) == Times(c, v.y) - Times(s, v.z)
    ensures Dot(AboutX(s, c).Row2(), v) == Times(s, v.y) + Times(c, v.z)
    ensures Dot(AboutY(s, c).Row0(), v) == Times(c, v.x) + Times(s, v.z) && Dot(AboutY(s, c).Row1(), v) == v.y
    ensures Dot(AboutY(s, c).Row2(), v) == Times(c, v.z) - Times(s, v.x)
    ensures Dot(AboutZ(s, c).Row0(), v) == Times(c, v.x) - Times(s, v.y)
    ensures Dot(AboutZ(s, c).Row1(), v) == Times(s, v.x) + Times(c, v.y) && Dot(AboutZ(s, c).Row2(), v) == v.z
  {
    DotTimes(AboutX(s, c).Row0(), v);
    DotTimes(AboutX(s, c).Row1(), v);
    DotTimes(AboutX(s, c).Row2(), v);
    DotTimes(AboutY(s, c).Row0(), v);
    DotTimes(AboutY(s, c).Row1(), v);
    DotTimes(AboutY(s, c).Row2(), v);
    DotTimes(AboutZ(s, c).Row0(), v);
    DotTimes(AboutZ(s, c).Row1(), v);
    DotTimes(AboutZ(s, c).Row2(), v);
    SimpleTimes(v.x);
    SimpleTimes(v.y);
    SimpleTimes(v.z);
    NegatedTimes(s, v.x);
    NegatedTimes(s, v.y);
    NegatedTimes(s, v.z);
    hide Dot, Times;
  }

  function Tilted(sx: real, cx: real, sy: real, cy: real): Mat {
    Mat(cy, Times(sy, sx), Times(sy, cx), 0.0, cx, -sx, -sy, Times(cy, sx), Times(cy, cx))
  }

  lemma TiltIsProduct(sx: real, cx: real, sy: real, cy: real)
    ensures Product(AboutY(sy, cy), AboutX(sx, cx)) == Tilted(sx, cx, sy, cy)
  {
    hide Dot, Times;
    var x := AboutX(sx, cx);
    TurnedColumn(sy, cy, Column(x, 0));
    TurnedColumn(sy, cy, Column(x, 1));
    TurnedColumn(sy, cy, Column(x, 2));
    SimpleTimes(sy);
    SimpleTimes(cy);
    hide AboutY;
  }

  lemma TwoFactors(x: real, y: real)
    ensures x * y == y * x == Times(x, y)
  {
  }

  lemma ThreeFactors(x: real, y: real, z: real)
    ensures x * y * z == y * x * z == x * z * y == Times(z, Times(x, y))
  {
  }

  lemma ComposeAsTimes(sx: real, cx: real, sy: real, cy: real, sz: real, cz: real)
    ensures Compose(sx, cx, sy, cy, sz, cz) == Mat(
      Times(cz, cy), Times(cz, Times(sy, sx)) - Times(sz, cx), Times(cz, Times(sy, cx)) + Times(sz, sx),
      Times(sz, cy), Times(sz, Times(sy, sx)) + Times(cz, cx), Times(sz, Times(sy, cx)) - Times(cz, sx),
      -sy, Times(cy, sx), Times(cy, cx))
  {
    TwoFactors(cz, cy);
    TwoFactors(sz, cy);
    TwoFactors(cy, sx);
    TwoFactors(cy, cx);
    TwoFactors(sz, cx);
    TwoFactors(sz, sx);
    TwoFactors(cz, cx);
    TwoFactors(cz, sx);
    ThreeFactors(sy, sx, cz);
    ThreeFactors(sy, cx, cz);
    ThreeFactors(sy, sx, sz);
    ThreeFactors(sy, cx, sz);
    hide Times;
    assert cz * sx * sy == Times(cz, Times(sy, sx)) by { Rotated(sy, sx, cz); }
    assert cx * cz * sy == Times(cz, Times(sy, cx)) by { Rotated(sy, cx, cz); }
  }

  lemma Rotated(x: real, y: real, z: real)
    ensures z * y * x == y * z * x == Times(z, Times(x, y))
  {
  }

  lemma ComposeIsProduct(sx: real, cx: real, sy: real, cy: real, sz: real, cz: real)
    ensures Compose(sx, cx, sy, cy, sz, cz) == Product(AboutZ(sz, cz), Product(AboutY(sy, cy), AboutX(sx, cx)))
  {
    hide Dot, Times, Compose, AboutZ, AboutY, AboutX;
    var m := Tilted(sx, cx, sy, cy);
    TiltIsProduct(sx, cx, sy, cy);
    TurnedColumn(sz, cz, Column(m, 0));
    TurnedColumn(sz, cz, Column(m, 1));
    TurnedColumn(sz, cz, Column(m, 2));
    SimpleTimes(sz);
    SimpleTimes(cz);
    NegatedTimes(sz, sx);
    NegatedTimes(cz, sx);
    ComposeAsTimes(sx, cx, sy, cy, sz, cz);
  }

  function FromEuler(t: Trig, a: Vec): Mat {
    Compose(t.sin(a.x), t.cos(a.x), t.sin(a.y), t.cos(a.y), t.sin(a.z), t.cos(a.z))
  }

  function Blend(p: real, a: real, q: real, b: real): real {
    p * a + q * b
  }

  function Combine(p: real, a: Vec, q: real, b: Vec): Vec {
    Vec(Blend(p, a.x, q, b.x), Blend(p, a.y, q, b.y), Blend(p, a.z, q, b.z))
  }

  lemma DotCombine(p: real, a: Vec, q: real, b: Vec, c: Vec)
    ensures Dot(Combine(p, a, q, b), c) == p * Dot(a, c) + q * Dot(b, c)
    ensures Dot(c, Combine(p, a, q, b)) == p * Dot(c, a) + q * Dot(c, b)
  {
  }

  /** Turning two of three orthonormal vectors in their plane. */
  lemma TurnedPair(c: real, s: real, a: Vec, b: Vec, e: Vec)
    requires s * s + c * c == 1.0 && Orthonormal(a, b, e) && Dot(a, Cross(b, e)) == 1.0
    ensures Orthonormal(Combine(c, a, -s, b), Combine(s, a, c, b), e)
    ensures Dot(Combine(c, a, -s, b), Cross(Combine(s, a, c, b), e)) == 1.0
  {
    var u, v := Combine(c, a, -s, b), Combine(s, a, c, b);
    assert Dot(u, u) == 1.0 && Dot(v, v) == 1.0 && Dot(u, v) == 0.0 && Dot(u, e) == 0.0 && Dot(v, e) == 0.0 by {
      hide Combine, Dot;
      DotCombine(c, a, -s, b, u);
      DotCombine(c, a, -s, b, a);
      DotCombine(c, a, -s, b, b);
      DotCombine(s, a, c, b, v);
      DotCombine(s, a, c, b, a);
      DotCombine(s, a, c, b, b);
      DotCombine(s, a, c, b, u);
      DotCombine(c, a, -s, b, e);
      DotCombine(s, a, c, b, e);
      DotSymmetric(a, b);
    }
    TurnedTriple(c, s, a, b, e);
  }

  lemma CrossCombine(p: real, a: Vec, q: real, b: Vec, e: Vec)
    ensures Cross(Combine(p, a, q, b), e) == Combine(p, Cross(a, e), q, Cross(b, e))
  {
    hide Minor, Blend;
    MinorCombine(p, a.y, a.z, q, b.y, b.z, e.y, e.z);
    MinorCombine(p, a.z, a.x, q, b.z, b.x, e.z, e.x);
    MinorCombine(p, a.x, a.y, q, b.x, b.y, e.x, e.y);
  }

  lemma MinorCombine(p: real, a: real, a': real, q: real, b: real, b': real, e: real, e': real)
    ensures Minor(Blend(p, a, q, b), Blend(p, a', q, b'), e, e') == Blend(p, Minor(a, a', e, e'), q, Minor(b, b', e, e'))
  {
  }

  function Opposite(a: Vec): Vec {
    Vec(-a.x, -a.y, -a.z)
  }

  lemma CrossSwaps(a: Vec, b: Vec)
    ensures Cross(a, b) == Opposite(Cross(b, a))
  {
  }

  lemma DotOpposite(a: Vec, b: Vec)
    ensures Dot(a, Opposite(b)) == -Dot(a, b)
  {
  }

  lemma TripleSwaps(a: Vec, b: Vec, e: Vec)
    ensures Dot(b, Cross(a, e)) == -Dot(a, Cross(b, e))
  {
    hide Dot, Cross, Opposite;
    TripleCyclic(b, a, e);
    CrossSwaps(e, b);
    DotOpposite(a, Cross(b, e));
  }

  lemma TurnedTriple(c: real, s: real, a: Vec, b: Vec, e: Vec)
    ensures Dot(Combine(c, a, -s, b), Cross(Combine(s, a, c, b), e)) == (s * s + c * c) * Dot(a, Cross(b, e))
  {
    hide Combine, Dot, Cross;
    var p, q := Cross(a, e), Cross(b, e);
    var m, w := Combine(s, p, c, q), Dot(a, q);
    CrossCombine(s, a, c, b, e);
    DotCombine(c, a, -s, b, m);
    TripleSwaps(a, b, e);
    TripleSwaps(a, a, e);
    TripleSwaps(b, b, e);
    assert Dot(a, p) == 0.0 && Dot(b, q) == 0.0 && Dot(b, p) == -w;
    DotCombine(s, p, c, q, a);
    DotCombine(s, p, c, q, b);
    assert Dot(a, m) == c * w;
    assert Dot(b, m) == s * -w;
    assert c * (c * w) + -s * (s * -w) == (s * s + c * c) * w;
  }

  /** The rows of Ry * Rx. */
  lemma TiltedFrame(sx: real, cx: real, sy: real, cy: real)
    requires sx * sx + cx * cx == 1.0 && sy * sy + cy * cy == 1.0
    ensures Orthonormal(Vec(cy, sx * sy, cx * sy), Vec(0.0, cx, -sx), Vec(-sy, cy * sx, cx * cy))
    ensures Dot(Vec(cy, sx * sy, cx * sy), Cross(Vec(0.0, cx, -sx), Vec(-sy, cy * sx, cx * cy))) == 1.0
  {
    assert cy * cy + (sx * sy) * (sx * sy) + (cx * sy) * (cx * sy) == cy * cy + (sx * sx + cx * cx) * (sy * sy);
    assert sy * sy + (cy * sx) * (cy * sx) + (cx * cy) * (cx * cy) == sy * sy + (sx * sx + cx * cx) * (cy * cy);
    assert cy * (-sy) + (sx * sy) * (cy * sx) + (cx * sy) * (cx * cy) == (sx * sx + cx * cx - 1.0) * (cy * sy);
  }

  lemma ComposeRows(sx: real, cx: real, sy: real, cy: real, sz: real, cz: real)
    ensures var r, a, b := Compose(sx, cx, sy, cy, sz, cz), Vec(cy, sx * sy, cx * sy), Vec(0.0, cx, -sx);
            r.Row0() == Combine(cz, a, -sz, b) && r.Row1() == Combine(sz, a, cz, b) && r.Row2() == Vec(-sy, cy * sx, cx * cy)
  {
  }

  /** Every choice of angles gives a rotation. */
  lemma ComposeIsRotation(sx: real, cx: real, sy: real, cy: real, sz: real, cz: real)
    requires sx * sx + cx * cx == 1.0 && sy * sy + cy * cy == 1.0 && sz * sz + cz * cz == 1.0
    ensures IsRotation(Compose(sx, cx, sy, cy, sz, cz))
  {
    hide Dot, Cross, Combine, Compose, Orthonormal;
    TiltedFrame(sx, cx, sy, cy);
    TurnedPair(cz, sz, Vec(cy, sx * sy, cx * sy), Vec(0.0, cx, -sx), Vec(-sy, cy * sx, cx * cy));
    ComposeRows(sx, cx, sy, cy, sz, cz);
  }

  /** The three angles turn about the fixed axes x, y and z, in this order. */
  lemma FromEulerIsProduct(t: Trig, a: Vec)
    ensures FromEuler(t, a) == Product(AboutZ(t.sin(a.z), t.cos(a.z)),
                                       Product(AboutY(t.sin(a.y), t.cos(a.y)), AboutX(t.sin(a.x), t.cos(a.x))))
  {
    hide Product, Compose;
    ComposeIsProduct(t.sin(a.x), t.cos(a.x), t.sin(a.y), t.cos(a.y), t.sin(a.z), t.cos(a.z));
  }

  lemma FromEulerIsRotation(t: Trig, a: Vec)
    requires Laws(t)
    ensures IsRotation(FromEuler(t, a))
  {
    assert AngleLaws(t, a.x) && AngleLaws(t, a.y) && AngleLaws(t, a.z);
    hide Laws, AngleLaws, Compose, IsRotation;
    ComposeIsRotation(t.sin(a.x), t.cos(a.x), t.sin(a.y), t.cos(a.y), t.sin(a.z), t.cos(a.z));
  }

  // ---- matrix to angles ----

  /** The length of the first column without its last entry: the cosine of the pitch. */
  function Reach(t: Trig, r: Mat): real {
    t.sqrt(Square(r.r00) + Square(r.r10))
  }

  function Pitch(t: Trig, r: Mat): real {
    t.atan2(-r.r20, Reach(t, r))
  }

  /** The branch condition of the conversion: the pitch is within EPS of a right angle. */
  predicate NearVertical(t: Trig, r: Mat) {
    Abs(Abs(Pitch(t, r)) - t.pi / 2.0) < EPS
  }

  lemma ReachZero(t: Trig, r: Mat)
    requires Laws(t)
    ensures Reach(t, r) >= 0.0 && Square(Reach(t, r)) == Square(r.r00) + Square(r.r10)
    ensures Reach(t, r) == 0.0 <==> r.r00 == 0.0 && r.r10 == 0.0
  {
    hide Square, Laws;
    SquareSign(r.r00);
    SquareSign(r.r10);
    RootPositive(t, Square(r.r00) + Square(r.r10));
  }

  /** The division by the cosine of the pitch is defined, for any matrix. */
  lemma CosineOfPitch(t: Trig, r: Mat)
    requires Laws(t) && !NearVertical(t, r)
    ensures t.cos(Pitch(t, r)) != 0.0
  {
    hide Square;
    var h, a := Reach(t, r), Pitch(t, r);
    assert ArctangentLaws(t, -r.r20, h);
    assert t.cos(a) == 0.0 ==> h == 0.0;
  }

  function ToEuler(t: Trig, r: Mat): Vec
    requires Laws(t)
  {
    var pitch := Pitch(t, r);
    if NearVertical(t, r) then
      if pitch > 0.0 then
        Vec(t.atan2(r.r01, r.r11), t.pi / 2.0, 0.0)
      else
        Vec(-t.atan2(r.r01, r.r11), -t.pi / 2.0, 0.0)
    else
      CosineOfPitch(t, r);
      var cp := t.cos(pitch);
      Vec(t.atan2(r.r21 / cp, r.r22 / cp), pitch, t.atan2(r.r10 / cp, r.r00 / cp))
  }

  // ---- away from the vertical ----

  lemma Recover(p: real, q: real, a: real, b: real, w: real, u: real, v: real)
    requires p * a + q * b + w * u == 0.0 && v == p * b - q * a
    ensures -(p * u * w) - v * q == a * (p * p + q * q)
    ensures p * v - u * w * q == b * (p * p + q * q)
  {
    assert w * u == -(p * a) - q * b;
    assert p * u * w == p * (w * u) == -(p * p * a) - p * q * b;
    assert u * w * q == q * (w * u) == -(p * q * a) - q * q * b;
    assert v * q == p * q * b - q * q * a;
    assert p * v == p * p * b - p * q * a;
  }

  lemma UnitRatios(c: real, p: real, q: real)
    requires c != 0.0 && Square(c) == Square(p) + Square(q)
    ensures Square(p / c) + Square(q / c) == 1.0
  {
    assert Square(0.0) == 0.0 && 0.0 / c == 0.0;
    hide Square;
    UnitParts(c, Vec(p, q, 0.0));
  }

  lemma Scaled(c: real, x: real, y: real, f: real, g: real, a: real, b: real, w: real)
    requires c != 0.0
    requires c * x * a + c * y * b + w * (c * f) == 0.0 && c * g == c * x * b - c * y * a
    ensures x * a + y * b + w * f == 0.0
    ensures g == x * b - y * a
  {
    assert c * (x * a + y * b + w * f) == c * x * a + c * y * b + w * (c * f);
    ProductZero(c, x * a + y * b + w * f);
    assert c * (x * b - y * a - g) == c * x * b - c * y * a - c * g;
    ProductZero(c, x * b - y * a - g);
  }

  lemma RecoverColumn(c: real, x: real, y: real, f: real, g: real, p: real, q: real, u: real, v: real, a: real, b: real, w: real)
    requires c != 0.0 && Square(x) + Square(y) == 1.0
    requires c * x == p && c * y == q && c * f == u && c * g == v
    requires p * a + q * b + w * u == 0.0 && v == p * b - q * a
    ensures -(x * f * w) - g * y == a
    ensures x * g - f * w * y == b
  {
    Scaled(c, x, y, f, g, a, b, w);
    Recover(x, y, a, b, w, f, g);
  }

  /** What the conversion needs of a rotation: its first column, its last row and two cofactors. */
  lemma RotationFacts(r: Mat)
    requires IsRotation(r)
    ensures Square(r.r00) + Square(r.r10) + Square(r.r20) == 1.0
    ensures Square(r.r20) + Square(r.r21) + Square(r.r22) == 1.0
    ensures r.r00 * r.r01 + r.r10 * r.r11 + r.r20 * r.r21 == 0.0
    ensures r.r00 * r.r02 + r.r10 * r.r12 + r.r20 * r.r22 == 0.0
    ensures r.r22 == r.r00 * r.r11 - r.r10 * r.r01
    ensures -r.r21 == r.r00 * r.r12 - r.r10 * r.r02
    ensures Square(r.r01) + Square(r.r11) + Square(r.r21) == 1.0
    ensures r.r02 == r.r10 * r.r21 - r.r11 * r.r20
    ensures r.r12 == r.r20 * r.r01 - r.r21 * r.r00
  {
    ColumnsOrthonormal(r);
    RowsAreCrosses(r);
  }

  lemma ComposeMatches(r: Mat, sx: real, cx: real, c: real, sz: real, cz: real)
    requires c * sx == r.r21 && c * cx == r.r22 && c * sz == r.r10 && c * cz == r.r00
    requires -(cz * sx * r.r20) - cx * sz == r.r01
    requires cz * cx - sx * r.r20 * sz == r.r11
    requires -(cz * cx * r.r20) - -sx * sz == r.r02
    requires cz * -sx - cx * r.r20 * sz == r.r12
    ensures Compose(sx, cx, -r.r20, c, sz, cz) == r
  {
  }

  predicate Scales(r: Mat, sx: real, cx: real, c: real, sz: real, cz: real) {
    c * sx == r.r21 && c * cx == r.r22 && c * sz == r.r10 && c * cz == r.r00
  }

  lemma SecondColumn(r: Mat, sx: real, cx: real, c: real, sz: real, cz: real)
    requires IsRotation(r) && c != 0.0 && Square(cz) + Square(sz) == 1.0 && Scales(r, sx, cx, c, sz, cz)
    ensures -(cz * sx * r.r20) - cx * sz == r.r01
    ensures cz * cx - sx * r.r20 * sz == r.r11
  {
    RotationFacts(r);
    hide IsRotation, Square;
    RecoverColumn(c, cz, sz, sx, cx, r.r00, r.r10, r.r21, r.r22, r.r01, r.r11, r.r20);
  }

  lemma ThirdColumn(r: Mat, sx: real, cx: real, c: real, sz: real, cz: real)
    requires IsRotation(r) && c != 0.0 && Square(cz) + Square(sz) == 1.0 && Scales(r, sx, cx, c, sz, cz)
    ensures -(cz * cx * r.r20) - -sx * sz == r.r02
    ensures cz * -sx - cx * r.r20 * sz == r.r12
  {
    RotationFacts(r);
    hide IsRotation, Square;
    RecoverColumn(c, cz, sz, cx, -sx, r.r00, r.r10, r.r22, -r.r21, r.r02, r.r12, r.r20);
  }

  lemma Recomposed(r: Mat, sx: real, cx: real, c: real, sz: real, cz: real)
    requires IsRotation(r) && c != 0.0 && Square(cz) + Square(sz) == 1.0 && Scales(r, sx, cx, c, sz, cz)
    ensures Compose(sx, cx, -r.r20, c, sz, cz) == r
  {
    SecondColumn(r, sx, cx, c, sz, cz);
    ThirdColumn(r, sx, cx, c, sz, cz);
    hide IsRotation, Square, Compose;
    ComposeMatches(r, sx, cx, c, sz, cz);
  }

  lemma RatioTimes(c: real, p: real)
    requires c != 0.0
    ensures c * (p / c) == p
  {
  }

  lemma AwayFromVertical(t: Trig, r: Mat)
    requires Laws(t) && IsRotation(r) && !NearVertical(t, r)
    ensures FromEuler(t, ToEuler(t, r)) == r
  {
    hide Square, Laws, IsRotation, Compose;
    RotationFacts(r);
    ReachZero(t, r);
    CosineOfPitch(t, r);
    SquareNegated(r.r20);
    var c := Reach(t, r);
    UnitAngle(t, -r.r20, c);
    UnitRatios(c, r.r00, r.r10);
    UnitRatios(c, r.r22, r.r21);
    UnitAngle(t, r.r10 / c, r.r00 / c);
    UnitAngle(t, r.r21 / c, r.r22 / c);
    RatioTimes(c, r.r00);
    RatioTimes(c, r.r10);
    RatioTimes(c, r.r21);
    RatioTimes(c, r.r22);
    Recomposed(r, r.r21 / c, r.r22 / c, c, r.r10 / c, r.r00 / c);
  }

  // ---- at and near the vertical ----

  lemma UnitSquare(x: real)
    requires Square(x) == 1.0
    ensures x == 1.0 || x == -1.0
  {
    assert (x - 1.0) * (x + 1.0) == Square(x) - 1.0;
    ProductZero(x - 1.0, x + 1.0);
  }

  lemma ThirdSquares(a: real, b: real, c: real)
    requires Square(a) + Square(b) + Square(c) == 1.0 && Square(a) == 1.0
    ensures b == 0.0 && c == 0.0
  {
    hide Square;
    SquareSign(b);
    SquareSign(c);
  }

  lemma UpOrDown(r: Mat)
    requires IsRotation(r) && r.r00 == 0.0 && r.r10 == 0.0
    ensures r.r20 == 1.0 || r.r20 == -1.0
    ensures r.r21 == 0.0 && r.r22 == 0.0
    ensures Square(r.r11) + Square(r.r01) == 1.0
    ensures r.r02 == -(r.r20 * r.r11) && r.r12 == r.r20 * r.r01
  {
    hide Square, IsRotation;
    RotationFacts(r);
    SquareSign(0.0);
    UnitSquare(r.r20);
    ThirdSquares(r.r20, r.r21, r.r22);
  }

  lemma ComposeVertical(sx: real, cx: real, sy: real)
    ensures Compose(sx, cx, sy, 0.0, 0.0, 1.0) == Mat(0.0, sx * sy, cx * sy, 0.0, cx, -sx, -sy, 0.0, 0.0)
  {
  }

  /** The angles the two vertical branches return. */
  lemma FromVertical(t: Trig, a: real, up: bool)
    requires Laws(t)
    ensures var p := if up then Vec(a, t.pi / 2.0, 0.0) else Vec(-a, -t.pi / 2.0, 0.0);
            var sy := if up then 1.0 else -1.0;
            FromEuler(t, p) == Compose(if up then t.sin(a) else -t.sin(a), t.cos(a), sy, 0.0, 0.0, 1.0)
  {
    assert AngleLaws(t, a) && AngleLaws(t, t.pi / 2.0);
    assert -t.pi / 2.0 == -(t.pi / 2.0);
  }

  lemma PitchVertical(t: Trig, r: Mat)
    requires Laws(t) && r.r00 == 0.0 && r.r10 == 0.0 && (r.r20 == 1.0 || r.r20 == -1.0)
    ensures Pitch(t, r) == (if r.r20 == -1.0 then t.pi / 2.0 else -t.pi / 2.0)
    ensures NearVertical(t, r)
  {
    ReachZero(t, r);
    assert ArctangentLaws(t, -r.r20, Reach(t, r));
    hide Square;
  }

  lemma AtVertical(t: Trig, r: Mat)
    requires Laws(t) && IsRotation(r) && r.r00 == 0.0 && r.r10 == 0.0
    ensures NearVertical(t, r)
    ensures FromEuler(t, ToEuler(t, r)) == r
  {
    hide Square, IsRotation, Compose, FromEuler, NearVertical, Pitch;
    UpOrDown(r);
    PitchVertical(t, r);
    assert t.pi > 0.0;
    hide Laws;
    UnitAngle(t, r.r01, r.r11);
    var a, up := t.atan2(r.r01, r.r11), r.r20 == -1.0;
    FromVertical(t, a, up);
    ComposeVertical(if up then t.sin(a) else -t.sin(a), t.cos(a), if up then 1.0 else -1.0);
  }

  lemma WindowLosesColumn(t: Trig, r: Mat)
    requires Laws(t) && NearVertical(t, r)
    ensures FromEuler(t, ToEuler(t, r)).r00 == 0.0 && FromEuler(t, ToEuler(t, r)).r10 == 0.0
  {
    hide Square, NearVertical;
    var a, up := t.atan2(r.r01, r.r11), Pitch(t, r) > 0.0;
    FromVertical(t, a, up);
  }

  /**
   * The angles read off a rotation rebuild it exactly unless the pitch is within
   * 0.000001 of the vertical without being vertical. The pitch is the angle of at
   * most a quarter turn whose sine is the negated last entry of the first column.
   */
  lemma EulerRoundTrip(t: Trig, r: Mat)
    requires Laws(t) && IsRotation(r)
    ensures FromEuler(t, ToEuler(t, r)) == r <==>
            Abs(Abs(Pitch(t, r)) - t.pi / 2.0) >= 0.000001 || (r.r00 == 0.0 && r.r10 == 0.0)
    ensures -t.pi / 2.0 <= Pitch(t, r) <= t.pi / 2.0 && t.sin(Pitch(t, r)) == -r.r20
  {
    hide *;
    PitchRange(t, r);
    SineOfPitch(t, r);
    WindowWidth(t, r);
    if r.r00 == 0.0 && r.r10 == 0.0 {
      AtVertical(t, r);
    } else if NearVertical(t, r) {
      WindowLosesColumn(t, r);
    } else {
      AwayFromVertical(t, r);
    }
  }

  lemma WindowWidth(t: Trig, r: Mat)
    ensures NearVertical(t, r) <==> Abs(Abs(Pitch(t, r)) - t.pi / 2.0) < 0.000001
  {
  }

  lemma SineOfPitch(t: Trig, r: Mat)
    requires Laws(t) && IsRotation(r)
    ensures t.sin(Pitch(t, r)) == -r.r20
  {
    hide Square, Laws, IsRotation;
    RotationFacts(r);
    ReachZero(t, r);
    SquareNegated(r.r20);
    UnitAngle(t, -r.r20, Reach(t, r));
  }

  // ---- the range of the angles ----

  /** Roll and yaw within half a turn, pitch within a quarter. */
  predicate InRange(t: Trig, a: Vec) {
    -t.pi <= a.x <= t.pi && -t.pi / 2.0 <= a.y <= t.pi / 2.0 && -t.pi <= a.z <= t.pi
  }

  lemma PitchRange(t: Trig, r: Mat)
    requires Laws(t)
    ensures -t.pi / 2.0 <= Pitch(t, r) <= t.pi / 2.0
  {
    var h, a := Reach(t, r), Pitch(t, r);
    ReachZero(t, r);
    assert ArctangentLaws(t, -r.r20, h);
    if h > 0.0 {
      var n := Square(h) + Square(-r.r20);
      SquareSign(h);
      SquareSign(-r.r20);
      RootPositive(t, n);
      var l := t.sqrt(n);
      assert l * t.cos(a) == h;
      hide Square;
      if a < -t.pi / 2.0 || a > t.pi / 2.0 {
        CosineOutside(t, a);
        NegativeProduct(l, t.cos(a));
      }
    }
  }

  lemma NegativeProduct(x: real, y: real)
    requires x >= 0.0 && y < 0.0
    ensures x * y <= 0.0
  {
  }

  lemma ToEulerInRange(t: Trig, r: Mat)
    requires Laws(t)
    ensures InRange(t, ToEuler(t, r))
  {
    PitchRange(t, r);
    hide Square;
    if NearVertical(t, r) {
      assert ArctangentLaws(t, r.r01, r.r11);
    } else {
      CosineOfPitch(t, r);
      var cp := t.cos(Pitch(t, r));
      assert ArctangentLaws(t, r.r21 / cp, r.r22 / cp) && ArctangentLaws(t, r.r10 / cp, r.r00 / cp);
    }
  }

  // ---- from angles to the rotation and back ----

  /** The angles that come back as they were: in range and outside the window; or exactly vertical without a yaw. */
  predicate Returned(t: Trig, a: Vec) {
    (-t.pi < a.x <= t.pi && -t.pi / 2.0 <= a.y <= t.pi / 2.0 && -t.pi < a.z <= t.pi
     && Abs(Abs(a.y) - t.pi / 2.0) >= 0.000001)
    || (a.y == t.pi / 2.0 && a.z == 0.0 && -t.pi < a.x <= t.pi)
    || (a.y == -t.pi / 2.0 && a.z == 0.0 && -t.pi <= a.x < t.pi)
  }

  lemma ComposeFirstColumn(sx: real, cx: real, sy: real, cy: real, sz: real, cz: real)
    requires Square(sz) + Square(cz) == 1.0
    ensures var r := Compose(sx, cx, sy, cy, sz, cz); Square(r.r00) + Square(r.r10) == Square(cy)
  {
    assert Square(cy * cz) + Square(cy * sz) == Square(cy) * (Square(sz) + Square(cz));
  }

  lemma RatioBack(c: real, x: real)
    requires c != 0.0
    ensures c * x / c == x && x * c / c == x
  {
  }

  lemma PitchBack(t: Trig, a: Vec)
    requires Laws(t) && -t.pi / 2.0 < a.y < t.pi / 2.0
    ensures t.cos(a.y) > 0.0 && Pitch(t, FromEuler(t, a)) == a.y
  {
    assert AngleLaws(t, a.z);
    hide Square, Times;
    CosineInside(t, a.y);
    ComposeFirstColumn(t.sin(a.x), t.cos(a.x), t.sin(a.y), t.cos(a.y), t.sin(a.z), t.cos(a.z));
    RootUnique(t, Square(t.cos(a.y)), t.cos(a.y));
    AngleRead(t, a.y);
  }

  lemma InsideReturns(t: Trig, a: Vec)
    requires Laws(t) && -t.pi < a.x <= t.pi && -t.pi < a.z <= t.pi && -t.pi / 2.0 < a.y < t.pi / 2.0
    requires Abs(Abs(a.y) - t.pi / 2.0) >= 0.000001
    ensures ToEuler(t, FromEuler(t, a)) == a
  {
    hide Laws, Square, Pitch, Compose;
    PitchBack(t, a);
    FromRatios(t.sin(a.x), t.cos(a.x), t.sin(a.y), t.cos(a.y), t.sin(a.z), t.cos(a.z));
    AngleRead(t, a.x);
    AngleRead(t, a.z);
  }

  lemma FromRatios(sx: real, cx: real, sy: real, cy: real, sz: real, cz: real)
    requires cy != 0.0
    ensures var r := Compose(sx, cx, sy, cy, sz, cz);
            r.r21 / cy == sx && r.r22 / cy == cx && r.r10 / cy == sz && r.r00 / cy == cz
  {
    RatioBack(cy, sx);
    RatioBack(cy, cx);
    RatioBack(cy, sz);
    RatioBack(cy, cz);
  }

  lemma VerticalReturns(t: Trig, a: Vec)
    requires Laws(t) && a.z == 0.0
    requires (a.y == t.pi / 2.0 && -t.pi < a.x <= t.pi) || (a.y == -t.pi / 2.0 && -t.pi <= a.x < t.pi)
    ensures ToEuler(t, FromEuler(t, a)) == a
  {
    assert AngleLaws(t, a.x) && AngleLaws(t, t.pi / 2.0) && -t.pi / 2.0 == -(t.pi / 2.0);
    var up := a.y == t.pi / 2.0;
    var r := FromEuler(t, a);
    ComposeVertical(t.sin(a.x), t.cos(a.x), if up then 1.0 else -1.0);
    PitchVertical(t, r);
    hide Square, Pitch, Compose;
    AngleRead(t, if up then a.x else -a.x);
  }

  lemma ReturnedInRange(t: Trig, r: Mat)
    requires Laws(t)
    ensures Returned(t, ToEuler(t, r))
  {
    PitchRange(t, r);
    WindowWidth(t, r);
    hide Square;
    if NearVertical(t, r) {
      assert ArctangentLaws(t, r.r01, r.r11);
    } else {
      CosineOfPitch(t, r);
      var cp := t.cos(Pitch(t, r));
      assert ArctangentLaws(t, r.r21 / cp, r.r22 / cp) && ArctangentLaws(t, r.r10 / cp, r.r00 / cp);
    }
  }

  /** From angles to a rotation and back: the same angles exactly if they are of that kind. */
  lemma AnglesReturnIff(t: Trig, a: Vec)
    requires Laws(t)
    ensures ToEuler(t, FromEuler(t, a)) == a <==> Returned(t, a)
  {
    hide Laws, FromEuler, ToEuler;
    ReturnedInRange(t, FromEuler(t, a));
    if Returned(t, a) {
      if Abs(Abs(a.y) - t.pi / 2.0) >= 0.000001 { InsideReturns(t, a); } else { VerticalReturns(t, a); }
    }
  }
}
