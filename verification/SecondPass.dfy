/** Starting the server again over a buffer that is already converted. */
module SecondPass {
  import opened Rotation
  import opened Trigonometry
  import opened EulerAngles
  import opened RotationVector
  import opened EulerVector
  import opened BscanServer

  // ---- the windows of the vertical ----

  /** Near the vertical the first column is almost its last entry. */
  lemma NearVerticalColumn(t: Trig, r: Mat)
    requires Laws(t) && IsRotation(r) && NearVertical(t, r)
    ensures Abs(r.r00) <= EPS && Abs(r.r10) <= EPS
  {
    var h, p := Reach(t, r), Pitch(t, r);
    RotationFacts(r);
    ReachZero(t, r);
    SquareNegated(r.r20);
    PitchRange(t, r);
    hide IsRotation, Square;
    UnitAngle(t, -r.r20, h);
    var d := t.pi / 2.0 - Abs(p);
    assert AngleLaws(t, p) && AngleLaws(t, -Abs(p)) && AngleLaws(t, d);
    assert -Abs(p) + t.pi / 2.0 == d;
    assert h <= EPS;
    SquareSign(r.r00);
    SquareSign(r.r10);
    SquareNegated(r.r00);
    SquareNegated(r.r10);
    RootsOrdered(Abs(r.r00), h);
    RootsOrdered(Abs(r.r10), h);
  }

  /** A rotation vector without a yaw entry is kept by its own rotation. */
  lemma FixedVector(k: Vec, s: real, c: real, x: real, y: real, q: real)
    requires k.z == 0.0 && SquareLength(k) == 1.0 && x == Times(q, k.x) && y == Times(q, k.y)
    ensures var r := Rodrigues(k, s, c);
            r.r01 == r.r10 && Times(r.r00, x) + Times(r.r01, y) == x && Times(r.r10, x) + Times(r.r11, y) == y
  {
    assert Times(0.0, s) == 0.0;
    assert Square(k.x) + Square(k.y) == 1.0;
    FixedEntry(k.x, k.y, 1.0 - c, c, q);
    FixedEntry(k.y, k.x, 1.0 - c, c, q);
    SweepCommutes(k.x, k.y, 1.0 - c);
    hide Times, Sweep, Square, SquareLength;
  }

  lemma FixedEntry(x: real, y: real, v: real, c: real, q: real)
    requires Square(x) + Square(y) == 1.0 && v == 1.0 - c
    ensures Times(Sweep(x, x, v) + c, Times(q, x)) + Times(Sweep(x, y, v), Times(q, y)) == Times(q, x)
  {
    assert Times(Sweep(x, x, v) + c, Times(q, x)) + Times(Sweep(x, y, v), Times(q, y))
        == q * x * v * (Square(x) + Square(y)) + q * x * c;
  }

  lemma SweepCommutes(x: real, y: real, v: real)
    ensures Sweep(x, y, v) == Sweep(y, x, v)
  {
  }

  /** The numbers of a vertical rotation and of its roll read as a vector do not fit together. */
  lemma NoFit(X: real, Y: real, h: real, S: real, C: real, r00: real, R: real)
    requires X > 0.0 && Y > 1.5 && X <= 2.0 * Y && h >= 0.0 && 0.0 <= R <= EPS && -EPS <= r00 <= EPS
    requires R == Times(h, S)
    requires Times(Times(h, C), Y) >= Y - Times(R, X)
    requires C > 0.0 ==> Times(X, C) <= S
    ensures Times(R, Y) > Times(X, 1.0 - r00)
  {
    var n := Times(h, C);
    TimesMonotone(R, EPS, X, 2.0 * Y);
    assert Times(EPS, 2.0 * Y) == 2.0 * EPS * Y;
    assert Times(n, Y) - Times(1.0 - 2.0 * EPS, Y) == Times(n - (1.0 - 2.0 * EPS), Y);
    assert Times(1.0 - 2.0 * EPS, Y) == Y - 2.0 * EPS * Y;
    ProductSign(n - (1.0 - 2.0 * EPS), Y);
    CosinePositive(h, C);
    FitAbove(X, h, S, C, n);
    TimesMonotone(Times(X, 1.0 - 2.0 * EPS), R, 1.5, Y);
    TimesMonotone(X, X, 1.0 - r00, 1.0 + EPS);
    RoomLeft(X);
  }

  lemma RoomLeft(X: real)
    requires X > 0.0
    ensures Times(Times(X, 1.0 - 2.0 * EPS), 1.5) > Times(X, 1.0 + EPS)
  {
    TimesSign(X, 0.5 - 4.0 * EPS);
    assert Times(Times(X, 1.0 - 2.0 * EPS), 1.5) - Times(X, 1.0 + EPS) == Times(X, 0.5 - 4.0 * EPS);
  }

  lemma CosinePositive(h: real, C: real)
    requires h >= 0.0 && Times(h, C) > 0.0
    ensures C > 0.0
  {
    TimesSigns(h, C);
    if C <= 0.0 { TimesNonNegative(h, -C); }
  }

  lemma FitAbove(X: real, h: real, S: real, C: real, n: real)
    requires X > 0.0 && h >= 0.0 && C > 0.0 && Times(X, C) <= S && n == Times(h, C) && n >= 1.0 - 2.0 * EPS
    ensures 0.0 <= Times(X, 1.0 - 2.0 * EPS) <= Times(h, S)
  {
    TimesNonNegative(X, C);
    TimesMonotone(h, h, Times(X, C), S);
    assert Times(h, Times(X, C)) == Times(X, n);
    TimesMonotone(X, X, 1.0 - 2.0 * EPS, n);
  }

  // ---- a converted waypoint whose angles are vertical ----

  /** The angles read off near the vertical give the second row and column of the matrix only its direction. */
  lemma VerticalEntries(t: Trig, r: Mat)
    requires Laws(t) && NearVertical(t, r)
    ensures var h, d := t.sqrt(Square(r.r11) + Square(r.r01)), FromEuler(t, ToEuler(t, r));
            h >= 0.0 && r.r01 == Times(h, d.r01) && r.r11 == Times(h, d.r11)
  {
    hide Square, NearVertical, Compose, Pitch;
    var a, up := t.atan2(r.r01, r.r11), Pitch(t, r) > 0.0;
    FromVertical(t, a, up);
    ComposeVertical(if up then t.sin(a) else -t.sin(a), t.cos(a), if up then 1.0 else -1.0);
    assert ArctangentLaws(t, r.r01, r.r11);
    SquareSign(r.r01);
    SquareSign(r.r11);
    RootPositive(t, Square(r.r11) + Square(r.r01));
  }

  /** Roll x at a pitch straight up or down. */
  lemma VerticalAngles(t: Trig, x: real, up: bool)
    requires Laws(t)
    ensures var d := FromEuler(t, Vec(x, if up then t.pi / 2.0 else -t.pi / 2.0, 0.0));
            d.r01 == (if up then t.sin(x) else -t.sin(x)) && d.r11 == t.cos(x)
  {
    hide Compose;
    assert AngleLaws(t, x);
    var a := if up then x else -x;
    FromVertical(t, a, up);
    ComposeVertical(if up then t.sin(a) else -t.sin(a), t.cos(a), if up then 1.0 else -1.0);
  }

  lemma VectorOfVertical(t: Trig, x: real, y: real)
    requires Laws(t) && (y == t.pi / 2.0 || y == -t.pi / 2.0)
    ensures var r := FromRotationVector(t, Vec(x, y, 0.0));
            r.r01 == r.r10 && Times(r.r00, x) + Times(r.r01, y) == x && Times(r.r10, x) + Times(r.r11, y) == y
  {
    hide Laws, Rodrigues, SquareLength, Square;
    var v := Vec(x, y, 0.0);
    var q := t.sqrt(SquareLength(v));
    PiLarge(t);
    EntryAtMostLength(t, v);
    Normalized(t, v);
    RatioBack(q, x);
    RatioBack(q, y);
    assert 0.0 / q == 0.0;
    FixedVector(Vec(x / q, y / q, 0.0), t.sin(q), t.cos(q), x, y, q);
  }

  lemma RatioBack(q: real, x: real)
    requires q != 0.0
    ensures x == Times(q, x / q)
  {
  }

  lemma SineAbove(t: Trig, x: real)
    requires Laws(t) && -t.pi <= x <= t.pi && x != 0.0
    ensures t.cos(x) > 0.0 ==> Times(Abs(x), t.cos(x)) <= Abs(t.sin(x))
  {
    assert AngleLaws(t, x) && AngleLaws(t, -x);
    hide Times, Square;
    if t.pi / 2.0 < x <= t.pi || -t.pi <= x < -t.pi / 2.0 { CosineOutside(t, x); }
  }

  lemma AbsTimes(x: real, y: real)
    ensures Abs(Times(x, y)) == Times(Abs(x), Abs(y)) && Times(x, y) <= Times(Abs(x), Abs(y))
  {
    TimesSigns(x, y);
    TimesNonNegative(Abs(x), Abs(y));
  }

  /** A vertical rotation with a roll is not restored by the second pass even inside the window. */
  lemma VerticalNotRestored(t: Trig, x: real, up: bool)
    requires Laws(t) && -t.pi <= x <= t.pi && x != 0.0
    requires NearVertical(t, FromRotationVector(t, Vec(x, if up then t.pi / 2.0 else -t.pi / 2.0, 0.0)))
    ensures var v := Vec(x, if up then t.pi / 2.0 else -t.pi / 2.0, 0.0);
            FromEuler(t, ToEuler(t, FromRotationVector(t, v))) != FromEuler(t, v)
  {
    var y := if up then t.pi / 2.0 else -t.pi / 2.0;
    var v := Vec(x, y, 0.0);
    var r := FromRotationVector(t, v);
    hide FromRotationVector, NearVertical, ToEuler, FromEuler, Square, Times, IsRotation;
    FromRotationVectorIsRotation(t, v);
    NearVerticalColumn(t, r);
    VectorOfVertical(t, x, y);
    VerticalEntries(t, r);
    VerticalAngles(t, x, up);
    SineAbove(t, x);
    PiLarge(t);
    hide Laws;
    if FromEuler(t, ToEuler(t, r)) == FromEuler(t, v) {
      var h, X, R := t.sqrt(Square(r.r11) + Square(r.r01)), Abs(x), Abs(r.r01);
      AbsTimes(h, FromEuler(t, v).r01);
      FirstRowSigns(x, y, r.r00, r.r01);
      SecondRowSigns(x, y, r.r01, r.r11);
      NoFit(X, t.pi / 2.0, h, Abs(t.sin(x)), t.cos(x), r.r00, R);
    }
  }

  lemma FirstRowSigns(x: real, y: real, a: real, e: real)
    requires Times(a, x) + Times(e, y) == x && a <= 1.0
    ensures Times(Abs(e), Abs(y)) == Times(Abs(x), 1.0 - a)
  {
    TimesOneMinus(x, a);
    hide Times;
    AbsTimes(e, y);
    AbsTimes(x, 1.0 - a);
  }

  lemma TimesOneMinus(x: real, a: real)
    ensures Times(x, 1.0 - a) == x - Times(a, x)
  {
  }

  lemma SecondRowSigns(x: real, y: real, e: real, f: real)
    requires Times(e, x) + Times(f, y) == y
    ensures Times(f, Abs(y)) >= Abs(y) - Times(Abs(e), Abs(x))
  {
    TimesSigns(f, y);
    TimesSigns(e, x);
    hide Times;
    AbsTimes(e, x);
  }

  // ---- which waypoints survive ----

  /** The angles turn about at most one axis, and not by less than the length that counts as a turn. */
  predicate Survives(t: Trig, a: Vec) {
    a == Vec(0.0, 0.0, 0.0) || (OneAxis(a) && t.sqrt(SquareLength(a)) >= 0.0000000001)
  }

  /** The rotation a converted waypoint drives to is never inside the window: regular, or exactly vertical. */
  lemma DrivenOutside(t: Trig, r: Mat)
    requires Laws(t) && IsRotation(r)
    ensures !InsideWindow(t, FromEuler(t, ToEuler(t, r)))
    ensures !NearVertical(t, r) ==> FromEuler(t, ToEuler(t, r)) == r
    ensures NearVertical(t, r) ==> ToEuler(t, r) == Vec(ToEuler(t, r).x, if Pitch(t, r) > 0.0 then t.pi / 2.0 else -t.pi / 2.0, 0.0)
  {
    hide Laws, IsRotation, FromEuler;
    EulerRoundTrip(t, r);
    if NearVertical(t, r) { WindowLosesColumn(t, r); }
  }

  /** Vertical angles with a roll: the second pass does not restore them. */
  lemma RolledVertical(t: Trig, r: Mat)
    requires Laws(t) && IsRotation(r) && NearVertical(t, r)
    requires var a := ToEuler(t, r); !Survives(t, a) && NearVertical(t, FromRotationVector(t, a))
    ensures var a := ToEuler(t, r); FromEuler(t, ToEuler(t, FromRotationVector(t, a))) != FromEuler(t, a)
  {
    hide IsRotation, FromEuler, FromRotationVector, SquareLength, NearVertical;
    var a, up := ToEuler(t, r), Pitch(t, r) > 0.0;
    DrivenOutside(t, r);
    ToEulerInRange(t, r);
    EntryAtMostLength(t, a);
    PiLarge(t);
    hide Laws;
    VerticalNotRestored(t, a.x, up);
  }

  /** Angles read off a matrix that is not near the vertical do not come back vertical. */
  lemma RegularNotVertical(t: Trig, r: Mat, s: Mat)
    requires Laws(t) && IsRotation(r) && !NearVertical(t, r) && NearVertical(t, s)
    ensures FromEuler(t, ToEuler(t, s)) != FromEuler(t, ToEuler(t, r))
  {
    hide Laws, IsRotation, FromEuler, ToEuler, NearVertical;
    DrivenOutside(t, r);
    WindowLosesColumn(t, s);
    if r.r00 == 0.0 && r.r10 == 0.0 { AtVertical(t, r); }
  }

  /**
   * A second pass over the same buffer keeps the orientation that a waypoint
   * drives to if and only if its converted angles turn about at most one axis.
   */
  lemma SecondPassKeepsIff(t: Trig, w: seq<real>)
    requires Laws(t) && IsWaypoint(w)
    ensures Driven(t, Converted(t, Converted(t, w))) == Driven(t, Converted(t, w)) <==>
            Survives(t, Orientation(Converted(t, w)))
  {
    hide Laws, IsRotation, FromEuler, ToEuler, NearVertical, FromRotationVector, Survives;
    var r, v := Pushed(t, w), Converted(t, w);
    var a := Orientation(v);
    var s := Pushed(t, v);
    FromRotationVectorIsRotation(t, Orientation(w));
    FromRotationVectorIsRotation(t, a);
    ToEulerInRange(t, r);
    DrivenOutside(t, r);
    SurvivesMeans(t, a);
    EulerRoundTrip(t, s);
    WindowWidth(t, s);
    if !Survives(t, a) && NearVertical(t, s) {
      if NearVertical(t, r) { RolledVertical(t, r); } else { RegularNotVertical(t, r, s); }
    }
  }

  lemma SurvivesMeans(t: Trig, a: Vec)
    requires Laws(t) && InRange(t, a)
    ensures FromRotationVector(t, a) == FromEuler(t, a) <==> Survives(t, a)
  {
    hide Laws, FromEuler, FromRotationVector;
    ReadAsVectorIff(t, a);
  }

  /** A waypoint after n passes. */
  function Passed(t: Trig, w: seq<real>, n: nat): (v: seq<real>)
    requires Laws(t) && IsWaypoint(w)
    ensures IsWaypoint(v)
  {
    if n == 0 then w else Converted(t, Passed(t, w, n - 1))
  }

  lemma StraightUpOrDown(t: Trig, up: bool)
    requires Laws(t)
    ensures var a := Vec(0.0, if up then t.pi / 2.0 else -t.pi / 2.0, 0.0); ToEuler(t, FromEuler(t, a)) == a
  {
    hide Compose, NearVertical, Pitch, Square;
    var s := if up then 1.0 else -1.0;
    FromVertical(t, 0.0, up);
    ComposeVertical(0.0, 1.0, s);
    assert FromEuler(t, Vec(0.0, if up then t.pi / 2.0 else -t.pi / 2.0, 0.0)) == Compose(0.0, 1.0, s, 0.0, 0.0, 1.0);
    var r := Mat(0.0, 0.0, s, 0.0, 1.0, 0.0, -s, 0.0, 0.0);
    PitchVertical(t, r);
    assert ArctangentLaws(t, 0.0, 1.0);
  }

  /** The angles of a surviving waypoint are read off the rotation they compose. */
  lemma SurvivorSettled(t: Trig, r: Mat)
    requires Laws(t) && IsRotation(r) && Survives(t, ToEuler(t, r))
    ensures ToEuler(t, FromRotationVector(t, ToEuler(t, r))) == ToEuler(t, r)
  {
    hide IsRotation, FromEuler, ToEuler, NearVertical, FromRotationVector, SquareLength;
    ToEulerInRange(t, r);
    DrivenOutside(t, r);
    SurvivesMeans(t, ToEuler(t, r));
    if NearVertical(t, r) {
      PiLarge(t);
      hide Laws;
      StraightUpOrDown(t, Pitch(t, r) > 0.0);
    }
  }

  lemma SameOrientation(w: seq<real>, a: Vec)
    requires IsWaypoint(w) && Orientation(w) == a
    ensures WithOrientation(w, a) == w
  {
  }

  /** A waypoint that survives the second pass survives any number of passes, unchanged. */
  lemma {:induction false} SurvivesForever(t: Trig, w: seq<real>, n: nat)
    requires Laws(t) && IsWaypoint(w) && Survives(t, Orientation(Converted(t, w))) && n >= 1
    ensures Passed(t, w, n) == Converted(t, w)
    decreases n
  {
    hide Laws, IsRotation, FromEuler, ToEuler, FromRotationVector, Survives;
    if n > 1 {
      SurvivesForever(t, w, n - 1);
      FromRotationVectorIsRotation(t, Orientation(w));
      SurvivorSettled(t, Pushed(t, w));
      SameOrientation(Converted(t, w), Orientation(Converted(t, w)));
    } else {
      assert Passed(t, w, 0) == w;
    }
  }

  // ---- a waypoint that does not survive ----

  /** The third of a turn that maps each axis to the next. */
  const THIRD := Mat(0.0, 0.0, 1.0, 1.0, 0.0, 0.0, 0.0, 1.0, 0.0)

  lemma ThirdIsRotation()
    ensures IsRotation(THIRD)
  {
    IdentityIsRotation();
    hide Dot, Cross;
    var a, b, c := IDENTITY.Row0(), IDENTITY.Row1(), IDENTITY.Row2();
    TripleCyclic(a, b, c);
    TripleCyclic(b, c, a);
    DotSymmetric(a, c);
    DotSymmetric(b, c);
    DotSymmetric(a, b);
  }

  lemma AnglesOfThird(t: Trig)
    requires Laws(t)
    ensures ToEuler(t, THIRD) == Vec(t.pi / 2.0, 0.0, t.pi / 2.0)
    ensures !NearVertical(t, THIRD)
  {
    assert Square(0.0) == 0.0 && Square(1.0) == 1.0;
    assert Reach(t, THIRD) == 1.0 by {
      RootUnique(t, 1.0, 1.0);
    }
    assert ArctangentLaws(t, 0.0, 1.0) && ArctangentLaws(t, 1.0, 0.0);
    hide Square;
    assert Pitch(t, THIRD) == 0.0;
  }

  /** For every position there is an orientation that the first pass keeps and the second does not. */
  lemma SecondPassTurnsAway(t: Trig, p: Vec) returns (w: seq<real>)
    requires Laws(t)
    ensures IsWaypoint(w) && Position(w) == p
    ensures Driven(t, Converted(t, w)) == Pushed(t, w)
    ensures Driven(t, Converted(t, Converted(t, w))) != Pushed(t, w)
  {
    hide FromRotationVector, ToEuler, NearVertical, FromEuler, ToRotationVector, IsRotation, SquareLength;
    ThirdIsRotation();
    PiLarge(t);
    hide Laws;
    RotationVectorRoundTrip(t, THIRD);
    w := WithOrientation([p.x, p.y, p.z, 0.0, 0.0, 0.0], ToRotationVector(t, THIRD));
    AnglesOfThird(t);
    OnePassKeepsPose(t, w);
    SecondPassKeepsIff(t, w);
  }

  // ---- rotations inside the windows ----

  lemma PlaneTurn(c: real, s: real)
    requires Square(s) + Square(c) == 1.0
    ensures IsRotation(Mat(c, -s, 0.0, s, c, 0.0, 0.0, 0.0, 1.0)) && IsRotation(Mat(c, 0.0, s, 0.0, 1.0, 0.0, -s, 0.0, c))
  {
    NoTurnOnCircle();
    hide Square, IsRotation, Compose;
    ComposeOneAxis(s, c);
    OnCirclesIsRotation(0.0, 1.0, 0.0, 1.0, s, c);
    OnCirclesIsRotation(0.0, 1.0, s, c, 0.0, 1.0);
  }

  lemma NoTurnOnCircle()
    ensures Square(0.0) + Square(1.0) == 1.0
  {
  }

  lemma OnCirclesIsRotation(sx: real, cx: real, sy: real, cy: real, sz: real, cz: real)
    requires Square(sx) + Square(cx) == 1.0 && Square(sy) + Square(cy) == 1.0 && Square(sz) + Square(cz) == 1.0
    ensures IsRotation(Compose(sx, cx, sy, cy, sz, cz))
  {
    hide IsRotation, Compose;
    ComposeIsRotation(sx, cx, sy, cy, sz, cz);
  }

  /** A rational point of the unit circle very close to (1, 0). */
  lemma RationalPoint() returns (c: real, s: real)
    ensures Square(s) + Square(c) == 1.0 && 1.0 - TINY < c < 1.0 && 0.0 < s < EPS / 2.0
  {
    var u := 0.0000001;
    var d := 1.0 + u * u;
    c, s := (1.0 - u * u) / d, 2.0 * u / d;
    assert c * d == 1.0 - u * u && s * d == 2.0 * u;
    OnCircle(c, s, d, u);
  }

  lemma OnCircle(c: real, s: real, d: real, u: real)
    requires d != 0.0 && d == 1.0 + u * u && c * d == 1.0 - u * u && s * d == 2.0 * u
    ensures Square(s) + Square(c) == 1.0
  {
    assert (Square(s) + Square(c) - 1.0) * Square(d) == Square(s * d) + Square(c * d) - Square(d) == 0.0;
    SquareSign(d);
    ProductZero(Square(s) + Square(c) - 1.0, Square(d));
  }

  /** Both windows of the rotation vector hold rotations other than the identity and the half turns. */
  lemma TurnWindowsInhabited() returns (near: Mat, half: Mat)
    ensures IsRotation(near) && 1.0 - TINY < CosineOfAngle(near) < 1.0
    ensures IsRotation(half) && -1.0 < CosineOfAngle(half) < -1.0 + TINY
  {
    var c, s := RationalPoint();
    SquareNegated(c);
    hide Square, IsRotation;
    PlaneTurn(c, s);
    PlaneTurn(-c, s);
    near, half := Mat(c, -s, 0.0, s, c, 0.0, 0.0, 0.0, 1.0), Mat(-c, -s, 0.0, s, -c, 0.0, 0.0, 0.0, 1.0);
  }

  /** A pitch whose cosine is small is near the vertical. */
  lemma SmallCosine(t: Trig, p: real, c: real, s: real)
    requires Laws(t) && 0.0 <= p <= t.pi / 2.0 && t.sin(p) == c && t.cos(p) == s
    requires 0.5 < c && 0.0 < s < EPS / 2.0
    ensures t.pi / 2.0 - p < EPS
  {
    hide Laws, Square, Times;
    ComplementAngle(t, p);
    HalfBound(t.pi / 2.0 - p, c, s);
  }

  lemma ComplementAngle(t: Trig, p: real)
    requires Laws(t) && 0.0 <= p <= t.pi / 2.0
    ensures var d := t.pi / 2.0 - p;
            t.sin(d) == t.cos(p) && t.cos(d) == t.sin(p) && Times(d, t.cos(d)) <= t.sin(d)
  {
    hide Square, Times;
    var d := t.pi / 2.0 - p;
    assert AngleLaws(t, -p) && AngleLaws(t, d) && AngleLaws(t, -d) && AngleLaws(t, p);
    assert -p + t.pi / 2.0 == d && -d + t.pi / 2.0 == p;
  }

  lemma HalfBound(d: real, c: real, s: real)
    requires d >= 0.0 && c > 0.5 && Times(d, c) <= s
    ensures d <= 2.0 * s
  {
    TimesMonotone(d, d, 0.5, c);
    assert Times(d, 0.5) == d / 2.0;
  }

  lemma SteepPitch(t: Trig, r: Mat, c: real, s: real)
    requires Laws(t) && Square(s) + Square(c) == 1.0 && 0.0 < c && 0.0 < s
    requires r.r00 == s && r.r10 == 0.0 && r.r20 == -c
    ensures 0.0 <= Pitch(t, r) <= t.pi / 2.0 && t.sin(Pitch(t, r)) == c && t.cos(Pitch(t, r)) == s
  {
    assert Square(0.0) == 0.0;
    hide Square;
    RootUnique(t, Square(s), s);
    assert -r.r20 == c;
    assert ArctangentLaws(t, c, s);
    PitchRange(t, r);
    hide Laws;
    UnitAngle(t, c, s);
  }

  /** The window of the vertical holds a rotation that is not vertical. */
  lemma VerticalWindowInhabited(t: Trig) returns (r: Mat)
    requires Laws(t)
    ensures IsRotation(r) && InsideWindow(t, r) && 0.0 < CosineOfAngle(r) < EPS
  {
    hide Square, IsRotation, Laws, Pitch;
    var c, s := RationalPoint();
    PlaneTurn(s, c);
    r := Mat(s, 0.0, c, 0.0, 1.0, 0.0, -c, 0.0, s);
    SquareOrder(s, c);
    SteepPitch(t, r, c, s);
    SmallCosine(t, Pitch(t, r), c, s);
  }

  /** So for every position there is a waypoint whose orientation the first pass does not keep. */
  lemma FirstPassTurnsAway(t: Trig, p: Vec) returns (w: seq<real>)
    requires Laws(t)
    ensures IsWaypoint(w) && Position(w) == p
    ensures Driven(t, Converted(t, w)) != Pushed(t, w)
  {
    hide FromRotationVector, ToEuler, NearVertical, FromEuler, ToRotationVector, IsRotation, Laws;
    var r := VerticalWindowInhabited(t);
    RotationVectorRoundTrip(t, r);
    w := WithOrientation([p.x, p.y, p.z, 0.0, 0.0, 0.0], ToRotationVector(t, r));
    OnePassKeepsPose(t, w);
  }

  lemma SquareOrder(s: real, c: real)
    ensures Square(s) + Square(c) == Square(c) + Square(s)
  {
  }
}
