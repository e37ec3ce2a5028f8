/** When operator== is transitive: exactly over middle values that no two unequal values can share. */
module JsonTransitivity {
  import opened JsonValue
  import Digits

  // ---- rounding to a double is monotone and idempotent ----

  lemma {:induction false} UlpRange(m: nat)
    ensures m < TWO_53 ==> Ulp(m) == 1
    ensures m >= TWO_53 ==> Ulp(m) >= 2 && TWO_52 * Ulp(m) <= m < TWO_53 * Ulp(m)
  {
    if m >= 2 * TWO_53 { UlpRange(m / 2); }
  }

  /** Larger numbers have the same gap or at least twice the gap. */
  lemma {:induction false} UlpOrder(a: nat, b: nat)
    requires a <= b
    ensures Ulp(a) == Ulp(b) || 2 * Ulp(a) <= Ulp(b)
    decreases b
  {
    UlpRange(b);
    if a >= TWO_53 { UlpOrder(a / 2, b / 2); }
  }

  /** The nearest multiple of u, ties to the even one. */
  function Nearest(m: nat, u: nat): (n: nat)
    requires u > 0
  {
    var q, r := m / u, m % u;
    if 2 * r < u || (2 * r == u && q % 2 == 0) then q else q + 1
  }

  lemma RoundIsNearest(m: nat)
    ensures RoundNat(m) == Nearest(m, Ulp(m)) * Ulp(m)
  {
  }

  lemma DivOrder(a: nat, b: nat, u: nat)
    requires u > 0 && a <= b
    ensures a / u <= b / u && (a / u == b / u ==> a % u <= b % u)
  {
    var p, q := a / u, b / u;
    assert a == p * u + a % u && b == q * u + b % u;
    if p > q { Digits.MulMonotone(q + 1, p, u); }
  }

  lemma NearestOrder(a: nat, b: nat, u: nat)
    requires u > 0 && a <= b
    ensures Nearest(a, u) <= Nearest(b, u)
  {
    DivOrder(a, b, u);
  }

  lemma QuotientRange(m: nat, u: nat)
    requires u > 0 && TWO_52 * u <= m < TWO_53 * u
    ensures TWO_52 <= m / u < TWO_53
  {
    var q, r := m / u, m % u;
    assert m == q * u + r;
    if q < TWO_52 { Digits.MulMonotone(q + 1, TWO_52, u); }
    if q >= TWO_53 { Digits.MulMonotone(TWO_53, q, u); }
  }

  /** A rounded number stays between the powers of two around it. */
  lemma RoundRange(m: nat)
    ensures m < TWO_53 ==> RoundNat(m) == m
    ensures m >= TWO_53 ==> TWO_52 <= Nearest(m, Ulp(m)) <= TWO_53
    ensures m >= TWO_53 ==> TWO_52 * Ulp(m) <= RoundNat(m) <= TWO_53 * Ulp(m)
    ensures m > 0 ==> RoundNat(m) > 0
  {
    UlpRange(m);
    if m >= TWO_53 {
      var u := Ulp(m);
      QuotientRange(m, u);
      RoundIsNearest(m);
      Digits.MulMonotone(TWO_52, Nearest(m, u), u);
      Digits.MulMonotone(Nearest(m, u), TWO_53, u);
    }
  }

  lemma RoundOrder(a: nat, b: nat)
    requires a <= b
    ensures RoundNat(a) <= RoundNat(b)
  {
    var u, w := Ulp(a), Ulp(b);
    UlpOrder(a, b);
    RoundRange(a);
    RoundRange(b);
    if u == w {
      RoundIsNearest(a);
      RoundIsNearest(b);
      NearestOrder(a, b, u);
      Digits.MulMonotone(Nearest(a, u), Nearest(b, u), u);
    } else {
      UlpRange(a);
      UlpRange(b);
      Digits.MulMonotone(2 * u, w, TWO_52);
    }
  }

  lemma MultipleRounds(m: nat, k: nat)
    requires m == k * Ulp(m)
    ensures RoundNat(m) == m
  {
    var u := Ulp(m);
    Digits.DivModUnique(k, 0, u);
    assert m / u == k && m % u == 0;
  }

  lemma RoundTwice(m: nat)
    ensures RoundNat(RoundNat(m)) == RoundNat(m)
  {
    UlpRange(m);
    RoundRange(m);
    if m >= TWO_53 {
      var u, k, n := Ulp(m), Nearest(m, Ulp(m)), RoundNat(m);
      RoundIsNearest(m);
      UlpRange(n);
      if m <= n { UlpOrder(m, n); } else { UlpOrder(n, m); }
      if k < TWO_53 {
        GapOfRounded(u, k, n);
        MultipleRounds(n, k);
      } else {
        GapAtTop(u, n);
        MultipleRounds(n, TWO_52);
      }
    }
  }

  lemma GapOfRounded(u: nat, k: nat, n: nat)
    requires n == k * u && TWO_52 <= k < TWO_53 && u >= 2
    requires TWO_52 * Ulp(n) <= n < TWO_53 * Ulp(n)
    requires Ulp(n) == u || 2 * Ulp(n) <= u || 2 * u <= Ulp(n)
    ensures Ulp(n) == u
  {
    Digits.MulMonotone(TWO_52, k, u);
    BelowTop(k, u);
  }

  lemma BelowTop(k: nat, u: nat)
    requires k < TWO_53 && u > 0
    ensures k * u < TWO_53 * u
  {
    Digits.MulMonotone(k + 1, TWO_53, u);
    assert (k + 1) * u == k * u + u;
  }

  lemma GapAtTop(u: nat, n: nat)
    requires n == TWO_53 * u && u >= 2
    requires TWO_52 * Ulp(n) <= n < TWO_53 * Ulp(n)
    requires Ulp(n) == u || 2 * Ulp(n) <= u || 2 * u <= Ulp(n)
    ensures Ulp(n) == 2 * u
  {
  }

  // ---- the cast takes the nearest double ----

  /** A whole number that a double can hold: at most 53 significant bits. */
  ghost predicate Representable(n: nat) {
    exists k: nat, e: nat :: HasForm(n, k, e)
  }

  predicate HasForm(n: nat, k: nat, e: nat) {
    k < TWO_53 && n == k * Digits.Power(2, e)
  }

  function Distance(a: int, b: int): nat {
    if a < b then b - a else a - b
  }

  lemma {:induction false} UlpIsPower(m: nat) returns (e: nat)
    ensures Ulp(m) == Digits.Power(2, e)
  {
    if m < TWO_53 {
      e := 0;
    } else {
      var d := UlpIsPower(m / 2);
      e := d + 1;
    }
  }

  function Scaled(k: nat, u: nat): nat {
    k * u
  }

  lemma NearestMultiple(m: nat, u: nat, j: nat)
    requires u > 0
    ensures var c := Nearest(m, u);
            Distance(Scaled(c, u), m) <= Distance(Scaled(j, u), m)
            && (Distance(Scaled(c, u), m) == Distance(Scaled(j, u), m) && j != c ==>
                  c % 2 == 0 && Distance(Scaled(j, u), Scaled(c, u)) == u)
  {
    hide Nearest, Scaled, Distance;
    var q, r := MultiplesAround(m, u, j);
    NearerOfTwo(m, u, Scaled(q, u), r, q % 2 == 0, Scaled(j, u));
  }

  lemma MultiplesAround(m: nat, u: nat, j: nat) returns (q: nat, r: nat)
    requires u > 0
    ensures m == Scaled(q, u) + r && r < u
    ensures Nearest(m, u) == if 2 * r < u || (2 * r == u && q % 2 == 0) then q else q + 1
    ensures Scaled(q + 1, u) == Scaled(q, u) + u
    ensures j < q ==> Scaled(j, u) + u <= Scaled(q, u)
    ensures j > q + 1 ==> Scaled(q, u) + u + u <= Scaled(j, u)
  {
    q, r := m / u, m % u;
    if j < q {
      Digits.MulMonotone(j + 1, q, u);
    } else if j > q + 1 {
      Digits.MulMonotone(q + 2, j, u);
    }
  }

  /** The same about the multiples themselves: low is the one below m, and n any other. */
  lemma NearerOfTwo(m: nat, u: nat, low: nat, r: nat, even: bool, n: nat)
    requires m == low + r && r < u
    requires n + u <= low || n == low || n == low + u || low + u + u <= n
    ensures var c := if 2 * r < u || (2 * r == u && even) then low else low + u;
            Distance(c, m) <= Distance(n, m)
            && (Distance(c, m) == Distance(n, m) && n != c ==> (even <==> c == low) && Distance(n, c) == u)
  {
  }

  lemma RoundedForm(m: nat)
    ensures Representable(RoundNat(m))
  {
    hide Digits.Power;
    var e := UlpIsPower(m);
    UlpRange(m);
    RoundRange(m);
    RoundIsNearest(m);
    var k := Nearest(m, Ulp(m));
    if m < TWO_53 {
      PowerZero();
      assert HasForm(m, m, 0);
    } else if k < TWO_53 {
      assert HasForm(RoundNat(m), k, e);
    } else {
      TopForm(e);
      assert HasForm(RoundNat(m), TWO_52, e + 1);
    }
  }

  lemma PowerZero()
    ensures Digits.Power(2, 0) == 1
  {
  }

  lemma TopForm(e: nat)
    ensures TWO_53 * Digits.Power(2, e) == TWO_52 * Digits.Power(2, e + 1)
  {
  }

  /** Numbers of the form k * 2^e with a smaller e than the gap's lie below all multiples in question. */
  lemma FinerIsFar(m: nat, n: nat, k: nat, d: nat, e: nat)
    requires m >= TWO_53 && Ulp(m) == Digits.Power(2, e) && d < e && HasForm(n, k, d)
    ensures Distance(RoundNat(m), m) < Distance(n, m)
  {
    hide RoundNat, Nearest, Ulp, HasForm, Scaled, Distance, Digits.Power;
    UlpRange(m);
    RoundIsNearestScaled(m);
    NearestMultiple(m, Ulp(m), TWO_52);
    FinerIsBelow(n, k, d, e);
    ScaledTop(m);
    FartherThan(m, n, Scaled(TWO_52, Ulp(m)), RoundNat(m));
  }

  lemma RoundIsNearestScaled(m: nat)
    ensures RoundNat(m) == Scaled(Nearest(m, Ulp(m)), Ulp(m))
  {
    RoundIsNearest(m);
  }

  lemma ScaledTop(m: nat)
    requires m >= TWO_53
    ensures Scaled(TWO_52, Ulp(m)) <= m
  {
    UlpRange(m);
  }

  lemma FinerIsBelow(n: nat, k: nat, d: nat, e: nat)
    requires d < e && HasForm(n, k, d)
    ensures n < Scaled(TWO_52, Digits.Power(2, e))
  {
    hide Digits.Power;
    var p, q := Digits.Power(2, d), Digits.Power(2, e - 1);
    Digits.PowerGrows(2, 0, d);
    Digits.PowerGrows(2, d, e - 1);
    PowerStep(e);
    Digits.MulMonotone(k + 1, TWO_53, p);
    assert (k + 1) * p == k * p + p;
    Digits.MulMonotone(p, q, TWO_53);
  }

  lemma FartherThan(m: nat, n: nat, low: nat, r: nat)
    requires n < low <= m && Distance(r, m) <= Distance(low, m)
    ensures Distance(r, m) < Distance(n, m)
  {
  }

  lemma PowerStep(e: nat)
    requires e > 0
    ensures Digits.Power(2, e) == 2 * Digits.Power(2, e - 1)
  {
  }

  /** static_cast<double> of a whole number gives a double, no double is nearer, and of two equally near ones it
      takes the one that twice their distance divides (the one with the even significand). */
  lemma RoundIsNearestDouble(m: nat, n: nat)
    requires Representable(n)
    ensures Representable(RoundNat(m))
    ensures Distance(RoundNat(m), m) <= Distance(n, m)
    ensures Distance(RoundNat(m), m) == Distance(n, m) && n != RoundNat(m) ==>
              RoundNat(m) % (2 * Distance(n, RoundNat(m))) == 0
  {
    hide Digits.Power, RoundNat;
    RoundedForm(m);
    var k: nat, d: nat :| HasForm(n, k, d);
    var u := Ulp(m);
    var e := UlpIsPower(m);
    RoundIsNearest(m);
    UlpRange(m);
    if m < TWO_53 {
      RoundRange(m);
    } else if d < e {
      FinerIsFar(m, n, k, d, e);
    } else {
      var j := k * Digits.Power(2, d - e);
      Digits.PowerSum(2, d - e, e);
      Digits.MulAssociates(k, Digits.Power(2, d - e), Digits.Power(2, e));
      assert n == j * u;
      NearestMultiple(m, u, j);
      if Nearest(m, u) % 2 == 0 { EvenMultiple(Nearest(m, u), u); }
    }
  }

  lemma EvenMultiple(c: nat, u: nat)
    requires c % 2 == 0 && u > 0
    ensures c * u % (2 * u) == 0
  {
    Digits.DivModUnique(c / 2, 0, 2 * u);
    assert c * u == (c / 2) * (2 * u);
  }

  // ---- numbers that several integers round to ----

  /** n fits one of the two integer types and compares equal to the floating-point number r. */
  predicate RoundsTo(n: int, r: real) {
    -TWO_63 <= n < TWO_64 && ToDouble(n) == Finite(r)
  }

  predicate IsNumber(j: Json) {
    j.Int? || j.UInt? || j.Float?
  }

  /** The integer that a number is, if it is one. */
  function Whole(j: Json): int
    requires j.Int? || j.UInt?
  {
    if j.Int? then j.i else j.u
  }

  /** Equality of two numbers: integers of one kind by value, integers of two kinds modulo 2^64, an integer and a
      floating-point number if the first rounds to the second, floating-point numbers by value without NaN. */
  lemma EqNumbers(a: Json, b: Json)
    requires IsNumber(a) && IsNumber(b)
    ensures Eq(a, b) <==>
            if a.Float? && b.Float? then a.d == b.d && !a.d.NaN?
            else if a.Float? then a.d.Finite? && RoundsTo(Whole(b), a.d.r)
            else if b.Float? then b.d.Finite? && RoundsTo(Whole(a), b.d.r)
            else if Kind(a) == Kind(b) then Whole(a) == Whole(b)
            else (Whole(a) - Whole(b)) % TWO_64 == 0
  {
    hide RoundNat;
  }

  /** The test looks at three integers only: the integer part of r and its neighbours. */
  predicate Crowded(r: real) {
    var n := r.Floor;
    (RoundsTo(n, r) && (RoundsTo(n - 1, r) || RoundsTo(n + 1, r))) || r == TWO_64 as real
  }

  lemma {:induction false} UlpInBinade(m: nat, k: nat)
    requires TWO_53 * Digits.Power(2, k) <= m < 2 * TWO_53 * Digits.Power(2, k)
    ensures Ulp(m) == 2 * Digits.Power(2, k)
    decreases k
  {
    if k > 0 { UlpInBinade(m / 2, k - 1); }
  }

  lemma PowersOfTwo()
    ensures Digits.Power(2, 10) == 0x400 && Digits.Power(2, 11) == 0x800
  {
    assert Digits.Power(2, 4) == 0x10;
    assert Digits.Power(2, 8) == 0x100;
  }

  lemma RoundOfPowers()
    ensures RoundNat(TWO_63) == TWO_63 && RoundNat(TWO_64) == TWO_64
    ensures RoundNat(TWO_64 - 1) == TWO_64 && RoundNat(TWO_64 - 2) == TWO_64
  {
    hide Ulp, Digits.Power;
    PowersOfTwo();
    UlpInBinade(TWO_63, 10);
    UlpInBinade(TWO_64, 11);
    UlpInBinade(TWO_64 - 1, 10);
    UlpInBinade(TWO_64 - 2, 10);
  }

  /** Between two numbers with the same rounding everything rounds alike, the rounded number included. */
  lemma RoundBetween(a: nat, b: nat, m: nat)
    requires a < b && RoundNat(a) == RoundNat(b) == m
    ensures RoundNat(m) == m
    ensures (m < b ==> RoundNat(m + 1) == m) && (m >= b ==> m >= 1 && RoundNat(m - 1) == m)
  {
    hide RoundNat;
    RoundTwice(a);
    if m < b {
      RoundOrder(m, m + 1);
      RoundOrder(m + 1, b);
    } else {
      RoundOrder(a, m - 1);
      RoundOrder(m - 1, m);
    }
  }

  lemma CrowdedPositive(r: real, a: nat, b: nat)
    requires a < b && RoundsTo(a, r) && RoundsTo(b, r)
    ensures Crowded(r)
  {
    hide RoundNat;
    var m := RoundNat(a);
    assert (m as real).Floor == m;
    RoundBetween(a, b, m);
    RoundOfPowers();
    RoundOrder(b, TWO_64);
  }

  lemma CrowdedNegative(r: real, a: int, b: int)
    requires 0 < a < b && RoundsTo(-a, r) && RoundsTo(-b, r)
    ensures Crowded(r)
  {
    hide RoundNat;
    var m := RoundNat(a);
    assert (-(m as real)).Floor == -m;
    RoundBetween(a, b, m);
    RoundRange(a);
    RoundOfPowers();
    RoundOrder(b, TWO_63);
    if m < b { assert RoundsTo(-m - 1, r); }
  }

  lemma RoundSign(n: int)
    ensures ToDouble(n).Finite?
    ensures n < 0 <==> ToDouble(n).r < 0.0
    ensures n > 0 <==> ToDouble(n).r > 0.0
  {
    hide RoundNat;
    RoundRange(if n < 0 then -n else n);
    assert RoundNat(0) == 0 by { RoundRange(0); }
  }

  /** A number is crowded exactly if two different integers compare equal to it. */
  lemma CrowdedIff(r: real)
    ensures Crowded(r) <==> exists a, b :: a != b && RoundsTo(a, r) && RoundsTo(b, r)
  {
    if Crowded(r) {
      var a, b := TwoThatRound(r);
    }
    forall a, b | a != b && RoundsTo(a, r) && RoundsTo(b, r) ensures Crowded(r) {
      AnyTwoCrowd(r, a, b);
    }
  }

  lemma AnyTwoCrowd(r: real, a: int, b: int)
    requires a != b && RoundsTo(a, r) && RoundsTo(b, r)
    ensures Crowded(r)
  {
    hide RoundNat, Crowded;
    RoundSign(a);
    RoundSign(b);
    if a >= 0 {
      CrowdedPositive(r, if a < b then a else b, if a < b then b else a);
    } else {
      CrowdedNegative(r, if a < b then -b else -a, if a < b then -a else -b);
    }
  }

  lemma TwoThatRound(r: real) returns (a: int, b: int)
    requires Crowded(r)
    ensures a != b && RoundsTo(a, r) && RoundsTo(b, r)
  {
    hide RoundNat;
    RoundOfPowers();
    a := r.Floor;
    if RoundsTo(a, r) && RoundsTo(a - 1, r) {
      b := a - 1;
    } else if RoundsTo(a, r) && RoundsTo(a + 1, r) {
      b := a + 1;
    } else {
      a, b := TWO_64 - 1, TWO_64 - 2;
    }
  }

  // ---- transitivity ----

  /** The values over which operator== is transitive. */
  predicate Sharp(j: Json) {
    Comparable(j) ==>
      match j
      case Int(i) => i >= 0
      case UInt(u) => u < TWO_63
      case Float(d) => d.Finite? ==> !Crowded(d.r)
      case Arr(xs) => forall i | 0 <= i < |xs| :: Sharp(xs[i])
      case Obj(m) => forall k | k in m.Keys :: Sharp(m[k])
      case _ => true
  }

  /** An integer of the two 64-bit ranges as a value. */
  function Number(n: int): Json
    requires -TWO_63 <= n < TWO_64
  {
    if n < TWO_63 then Int(n) else UInt(n)
  }

  lemma {:induction false} EqThroughSharp(a: Json, b: Json, c: Json)
    requires Sharp(b) && Eq(a, b) && Eq(b, c)
    ensures Eq(a, c)
    decreases b
  {
    hide ToDouble, Crowded;
    EqComparable(a, b);
    match b
    case Arr(ys) =>
      forall i | 0 <= i < |ys| ensures Eq(a.items[i], c.items[i]) { EqThroughSharp(a.items[i], ys[i], c.items[i]); }
    case Obj(m) =>
      forall k | k in m.Keys ensures Eq(a.fields[k], c.fields[k]) { EqThroughSharp(a.fields[k], m[k], c.fields[k]); }
    case Float(d) =>
      if d.Finite? {
        EqThroughFloat(a, d.r, c);
      } else {
        InfinityAlone(a, d);
        EqSymmetric(b, c);
        InfinityAlone(c, d);
      }
    case _ =>
  }

  lemma InfinityAlone(a: Json, d: Double)
    requires !d.Finite? && Eq(a, Float(d))
    ensures a == Float(d)
  {
    hide RoundNat;
  }

  lemma EqThroughFloat(a: Json, r: real, c: Json)
    requires !Crowded(r) && Eq(a, Float(Finite(r))) && Eq(Float(Finite(r)), c)
    ensures Eq(a, c)
  {
    hide ToDouble, Crowded;
    if !a.Float? && !c.Float? {
      var n := if a.Int? then a.i else a.u;
      var m := if c.Int? then c.i else c.u;
      if n != m { AnyTwoCrowd(r, n, m); }
    }
  }

  /** Over every other value it is not. */
  lemma {:induction false} NotThroughBlunt(b: Json) returns (a: Json, c: Json)
    requires !Sharp(b)
    ensures Eq(a, b) && Eq(b, c) && !Eq(a, c)
    decreases b
  {
    hide ToDouble, Crowded;
    match b
    case Int(i) =>
      a, c := UInt(i + TWO_64), Float(ToDouble(i));
      RoundSign(i);
      RoundSign(i + TWO_64);
    case UInt(u) =>
      a, c := Int(u - TWO_64), Float(ToDouble(u));
      RoundSign(u);
      RoundSign(u - TWO_64);
    case Float(d) =>
      var n, m := TwoThatRound(d.r);
      RoundSign(n);
      RoundSign(m);
      a, c := Number(n), Number(m);
    case Arr(ys) =>
      var i :| 0 <= i < |ys| && !Sharp(ys[i]);
      var x, z := NotThroughBlunt(ys[i]);
      a, c := Arr(ys[i := x]), Arr(ys[i := z]);
      ItemsEqual(ys, i, x, z);
    case Obj(m) =>
      var k :| k in m.Keys && !Sharp(m[k]);
      var x, z := NotThroughBlunt(m[k]);
      a, c := Obj(m[k := x]), Obj(m[k := z]);
      MembersEqual(m, k, x, z);
  }

  lemma ItemReplaced(ys: seq<Json>, i: nat, x: Json)
    requires i < |ys| && Comparable(Arr(ys)) && Eq(x, ys[i])
    ensures Eq(Arr(ys[i := x]), Arr(ys))
  {
    hide ToDouble;
    forall j | 0 <= j < |ys| ensures Eq(ys[i := x][j], ys[j]) { EqReflexive(ys[j]); }
  }

  lemma ItemsEqual(ys: seq<Json>, i: nat, x: Json, z: Json)
    requires i < |ys| && Comparable(Arr(ys)) && Eq(x, ys[i]) && Eq(ys[i], z) && !Eq(x, z)
    ensures Eq(Arr(ys[i := x]), Arr(ys)) && Eq(Arr(ys), Arr(ys[i := z])) && !Eq(Arr(ys[i := x]), Arr(ys[i := z]))
  {
    EqSymmetric(ys[i], z);
    ItemReplaced(ys, i, x);
    ItemReplaced(ys, i, z);
    EqSymmetric(Arr(ys), Arr(ys[i := z]));
    hide ToDouble, Comparable;
    assert ys[i := x][i] == x && ys[i := z][i] == z;
  }

  lemma MemberReplaced(m: map<string, Json>, k: string, x: Json)
    requires k in m.Keys && Comparable(Obj(m)) && Eq(x, m[k])
    ensures Eq(Obj(m[k := x]), Obj(m))
  {
    hide ToDouble;
    assert m[k := x].Keys == m.Keys;
    forall n | n in m.Keys ensures Eq(m[k := x][n], m[n]) { EqReflexive(m[n]); }
  }

  lemma MembersEqual(m: map<string, Json>, k: string, x: Json, z: Json)
    requires k in m.Keys && Comparable(Obj(m)) && Eq(x, m[k]) && Eq(m[k], z) && !Eq(x, z)
    ensures Eq(Obj(m[k := x]), Obj(m)) && Eq(Obj(m), Obj(m[k := z])) && !Eq(Obj(m[k := x]), Obj(m[k := z]))
  {
    EqSymmetric(m[k], z);
    MemberReplaced(m, k, x);
    MemberReplaced(m, k, z);
    EqSymmetric(Obj(m), Obj(m[k := z]));
    hide ToDouble, Comparable;
    assert m[k := x][k] == x && m[k := z][k] == z && k in m[k := x].Keys;
  }

  /** operator== is transitive over a middle value exactly if that value is sharp. */
  lemma TransitiveIffSharp(b: Json)
    ensures (forall a, c :: Eq(a, b) && Eq(b, c) ==> Eq(a, c)) <==> Sharp(b)
  {
    hide Eq, Sharp;
    if Sharp(b) {
      forall a, c | Eq(a, b) && Eq(b, c) ensures Eq(a, c) { EqThroughSharp(a, b, c); }
    } else {
      var a, c := NotThroughBlunt(b);
    }
  }

  /** Every floating-point number below 2^53 is sharp, whole or not. */
  lemma SmallFloatsSharp(r: real)
    requires -(TWO_53 as real) < r < TWO_53 as real
    ensures Sharp(Float(Finite(r)))
  {
    hide RoundNat;
    if Crowded(r) {
      var a, b := TwoThatRound(r);
      SmallIsExact(a, r);
      SmallIsExact(b, r);
    }
  }

  lemma SmallIsExact(n: int, r: real)
    requires RoundsTo(n, r) && -(TWO_53 as real) < r < TWO_53 as real
    ensures n as real == r
  {
    hide RoundNat;
    var m := if n < 0 then -n else n;
    RoundRange(m);
    UlpRange(m);
  }
}
