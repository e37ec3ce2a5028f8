/** JSON values as stored by the std::map-backed basic_json, and its operator==. */
module JsonValue {
  const TWO_52 := 0x10_0000_0000_0000
  const TWO_53 := 0x20_0000_0000_0000
  const TWO_63 := 0x8000_0000_0000_0000
  const TWO_64 := 0x1_0000_0000_0000_0000

  type int64 = x: int | -TWO_63 <= x < TWO_63
  type uint64 = x: int | 0 <= x < TWO_64

  /** A double: finite values are kept as reals. */
  datatype Double = Finite(r: real) | PosInf | NegInf | NaN

  datatype Json =
    | Null
    | Bool(b: bool)
    | Int(i: int64)
    | UInt(u: uint64)
    | Float(d: Double)
    | Str(s: string)
    | Binary(data: seq<bv8>, subtype: Option<uint64>)
    | Discarded
    | Arr(items: seq<Json>)
    | Obj(fields: map<string, Json>)

  import opened Wrappers

  // ---- static_cast<double>: round to nearest, ties to even ----

  /** The gap between neighbouring doubles at magnitude m. */
  function Ulp(m: nat): (u: nat)
    ensures u >= 1
  {
    if m < TWO_53 then 1 else 2 * Ulp(m / 2)
  }

  function RoundNat(m: nat): nat {
    var u := Ulp(m);
    var q, r := m / u, m % u;
    if 2 * r < u || (2 * r == u && q % 2 == 0) then q * u else (q + 1) * u
  }

  function ToDouble(n: int): Double {
    if n < 0 then Finite(-(RoundNat(-n) as real)) else Finite(RoundNat(n) as real)
  }

  function ToSigned(u: uint64): int64 {
    if u < TWO_63 then u else u - TWO_64
  }

  predicate DoubleEq(a: Double, b: Double) {
    a == b && !a.NaN?
  }

  /** operator==: equal types compare contents, two different number types compare after a cast,
      every other pair of types is unequal. NaN and discarded values equal nothing. */
  predicate Eq(a: Json, b: Json) {
    match (a, b)
    case (Null, Null) => true
    case (Bool(x), Bool(y)) => x == y
    case (Int(x), Int(y)) => x == y
    case (UInt(x), UInt(y)) => x == y
    case (Float(x), Float(y)) => DoubleEq(x, y)
    case (Str(x), Str(y)) => x == y
    case (Binary(x, s), Binary(y, t)) => x == y && s == t
    case (Arr(xs), Arr(ys)) => |xs| == |ys| && forall i | 0 <= i < |xs| :: Eq(xs[i], ys[i])
    case (Obj(m), Obj(n)) => m.Keys == n.Keys && forall k | k in m.Keys :: Eq(m[k], n[k])
    case (Int(x), Float(y)) => DoubleEq(ToDouble(x), y)
    case (Float(x), Int(y)) => DoubleEq(x, ToDouble(y))
    case (UInt(x), Float(y)) => DoubleEq(ToDouble(x), y)
    case (Float(x), UInt(y)) => DoubleEq(x, ToDouble(y))
    case (UInt(x), Int(y)) => ToSigned(x) == y
    case (Int(x), UInt(y)) => x == ToSigned(y)
    case _ => false
  }

  /** type(): which of the ten kinds a value is. */
  function Kind(j: Json): nat {
    match j
    case Null => 0
    case Obj(_) => 1
    case Arr(_) => 2
    case Str(_) => 3
    case Bool(_) => 4
    case Int(_) => 5
    case UInt(_) => 6
    case Float(_) => 7
    case Binary(_, _) => 8
    case Discarded => 9
  }

  /** No NaN and no discarded value anywhere inside. */
  predicate Comparable(j: Json) {
    match j
    case Float(d) => !d.NaN?
    case Discarded => false
    case Arr(xs) => forall i | 0 <= i < |xs| :: Comparable(xs[i])
    case Obj(m) => forall k | k in m.Keys :: Comparable(m[k])
    case _ => true
  }

  /** operator== is reflexive exactly on the comparable values. */
  lemma {:induction false} EqReflexive(j: Json)
    ensures Eq(j, j) <==> Comparable(j)
  {
    match j
    case Arr(xs) =>
      forall i | 0 <= i < |xs| ensures Eq(xs[i], xs[i]) <==> Comparable(xs[i]) { EqReflexive(xs[i]); }
    case Obj(m) =>
      forall k | k in m.Keys ensures Eq(m[k], m[k]) <==> Comparable(m[k]) { EqReflexive(m[k]); }
    case _ =>
  }

  lemma {:induction false} EqSymmetric(a: Json, b: Json)
    ensures Eq(a, b) == Eq(b, a)
  {
    match (a, b)
    case (Arr(xs), Arr(ys)) =>
      if |xs| == |ys| {
        forall i | 0 <= i < |xs| ensures Eq(xs[i], ys[i]) == Eq(ys[i], xs[i]) { EqSymmetric(xs[i], ys[i]); }
      }
    case (Obj(m), Obj(n)) =>
      if m.Keys == n.Keys {
        forall k | k in m.Keys ensures Eq(m[k], n[k]) == Eq(n[k], m[k]) { EqSymmetric(m[k], n[k]); }
      }
    case _ =>
  }

  /** Only comparable values are equal to anything. */
  lemma {:induction false} EqComparable(a: Json, b: Json)
    requires Eq(a, b)
    ensures Comparable(a) && Comparable(b)
  {
    match (a, b)
    case (Arr(xs), Arr(ys)) =>
      forall i | 0 <= i < |xs| ensures Comparable(xs[i]) && Comparable(ys[i]) { EqComparable(xs[i], ys[i]); }
    case (Obj(m), Obj(n)) =>
      forall k | k in m.Keys ensures Comparable(m[k]) && Comparable(n[k]) { EqComparable(m[k], n[k]); }
    case _ =>
  }

  // ---- what equality means ----

  /** No number and no discarded value anywhere inside. */
  predicate NumberFree(j: Json) {
    match j
    case Int(_) => false
    case UInt(_) => false
    case Float(_) => false
    case Discarded => false
    case Arr(xs) => forall i | 0 <= i < |xs| :: NumberFree(xs[i])
    case Obj(m) => forall k | k in m.Keys :: NumberFree(m[k])
    case _ => true
  }

  /** Every number inside is of one of the three number kinds, no NaN among them, and nothing is discarded. */
  predicate NumbersAre(j: Json, kind: nat) {
    match j
    case Int(_) => kind == Kind(j)
    case UInt(_) => kind == Kind(j)
    case Float(d) => kind == Kind(j) && !d.NaN?
    case Discarded => false
    case Arr(xs) => forall i | 0 <= i < |xs| :: NumbersAre(xs[i], kind)
    case Obj(m) => forall k | k in m.Keys :: NumbersAre(m[k], kind)
    case _ => true
  }

  /** Two values between which the number kinds cannot make a difference. */
  ghost predicate NumbersAgree(a: Json, b: Json) {
    NumberFree(a) || NumberFree(b) || exists kind :: NumbersAre(a, kind) && NumbersAre(b, kind)
  }

  /** Where numbers do not interfere, equal values are the same value. */
  lemma EqIsIdentity(a: Json, b: Json)
    requires NumbersAgree(a, b)
    ensures Eq(a, b) <==> a == b
  {
    hide Eq, NumberFree, NumbersAre;
    if NumberFree(a) {
      EqWithoutNumbers(a, b);
    } else if NumberFree(b) {
      EqWithoutNumbers(b, a);
      EqSymmetric(a, b);
    } else {
      var kind :| NumbersAre(a, kind) && NumbersAre(b, kind);
      EqOfOneKind(a, b, kind);
    }
  }

  lemma {:induction false} EqWithoutNumbers(a: Json, b: Json)
    requires NumberFree(a)
    ensures Eq(a, b) <==> a == b
  {
    match (a, b)
    case (Arr(xs), Arr(ys)) =>
      if |xs| == |ys| {
        forall i | 0 <= i < |xs| ensures Eq(xs[i], ys[i]) <==> xs[i] == ys[i] { EqWithoutNumbers(xs[i], ys[i]); }
      }
    case (Obj(m), Obj(n)) =>
      if m.Keys == n.Keys {
        forall k | k in m.Keys ensures Eq(m[k], n[k]) <==> m[k] == n[k] { EqWithoutNumbers(m[k], n[k]); }
        assert (forall k | k in m.Keys :: m[k] == n[k]) ==> m == n;
      }
    case _ =>
  }

  lemma {:induction false} EqOfOneKind(a: Json, b: Json, kind: nat)
    requires NumbersAre(a, kind) && NumbersAre(b, kind)
    ensures Eq(a, b) <==> a == b
  {
    match (a, b)
    case (Arr(xs), Arr(ys)) =>
      if |xs| == |ys| {
        forall i | 0 <= i < |xs| ensures Eq(xs[i], ys[i]) <==> xs[i] == ys[i] { EqOfOneKind(xs[i], ys[i], kind); }
      }
    case (Obj(m), Obj(n)) =>
      if m.Keys == n.Keys {
        forall k | k in m.Keys ensures Eq(m[k], n[k]) <==> m[k] == n[k] { EqOfOneKind(m[k], n[k], kind); }
        assert (forall k | k in m.Keys :: m[k] == n[k]) ==> m == n;
      }
    case _ =>
  }

  /** operator== is not transitive: 2^53 + 1 rounds to the double 2^53. */
  lemma EqNotTransitive()
    ensures Eq(Int(TWO_53 + 1), Float(Finite(TWO_53 as real)))
    ensures Eq(Float(Finite(TWO_53 as real)), Int(TWO_53))
    ensures !Eq(Int(TWO_53 + 1), Int(TWO_53))
  {
    assert Ulp(TWO_52) == 1;
    assert Ulp(TWO_53 + 1) == 2 && Ulp(TWO_53) == 2;
  }

  // ---- iteration order of std::map: keys ascending ----

  /** std::less on strings, reflexive form: lexicographic by code unit. */
  predicate KeyAtMost(a: string, b: string) {
    a == [] || (b != [] && (a[0] < b[0] || (a[0] == b[0] && KeyAtMost(a[1..], b[1..]))))
  }

  /** Two strings agree before the place k and differ there, one of them by ending. */
  predicate PartAt(a: string, b: string, k: nat) {
    k <= |a| && k <= |b| && a[..k] == b[..k] && (k < |a| && k < |b| ==> a[k] != b[k])
  }

  /** The order is decided where the strings part: there the lesser one ends or has the lesser code unit. */
  lemma {:induction false} KeyAtMostIff(a: string, b: string, k: nat)
    requires PartAt(a, b, k)
    ensures KeyAtMost(a, b) <==> k == |a| || (k < |b| && a[k] < b[k])
    decreases k
  {
    if k > 0 {
      assert a[0] == a[..k][0] == b[..k][0] == b[0];
      assert a[1..][..k - 1] == a[..k][1..] && b[1..][..k - 1] == b[..k][1..];
      KeyAtMostIff(a[1..], b[1..], k - 1);
    }
  }

  lemma {:induction false} KeyAtMostTotal(a: string, b: string)
    ensures KeyAtMost(a, b) || KeyAtMost(b, a)
    ensures KeyAtMost(a, b) && KeyAtMost(b, a) ==> a == b
  {
    if a != [] && b != [] && a[0] == b[0] {
      KeyAtMostTotal(a[1..], b[1..]);
      assert a == [a[0]] + a[1..] && b == [b[0]] + b[1..];
    }
  }

  lemma {:induction false} KeyAtMostTransitive(a: string, b: string, c: string)
    requires KeyAtMost(a, b) && KeyAtMost(b, c)
    ensures KeyAtMost(a, c)
  {
    if a != [] && a[0] == b[0] && b[0] == c[0] {
      KeyAtMostTransitive(a[1..], b[1..], c[1..]);
    }
  }

  predicate IsLeastKey(k: string, keys: set<string>) {
    k in keys && forall j | j in keys :: KeyAtMost(k, j)
  }

  lemma {:induction false} LeastKeyExists(keys: set<string>)
    requires keys != {}
    ensures exists k :: IsLeastKey(k, keys)
  {
    var x :| x in keys;
    var rest := keys - {x};
    if rest == {} {
      KeyAtMostTotal(x, x);
      assert keys == {x};
      assert IsLeastKey(x, keys);
    } else {
      LeastKeyExists(rest);
      var y :| IsLeastKey(y, rest);
      KeyAtMostTotal(x, y);
      KeyAtMostTotal(x, x);
      var k := if KeyAtMost(x, y) then x else y;
      forall j | j in keys ensures KeyAtMost(k, j) {
        if j != x && k == x { KeyAtMostTransitive(x, y, j); }
      }
      assert IsLeastKey(k, keys);
    }
  }

  lemma LeastKeyUnique(keys: set<string>)
    ensures forall j, k | IsLeastKey(j, keys) && IsLeastKey(k, keys) :: j == k
  {
    forall j, k | IsLeastKey(j, keys) && IsLeastKey(k, keys) ensures j == k { KeyAtMostTotal(j, k); }
  }

  function SortedKeys(keys: set<string>): (ks: seq<string>)
    ensures |ks| == |keys|
    ensures forall k :: k in ks <==> k in keys
    ensures forall i, j | 0 <= i < j < |ks| :: ks[i] != ks[j]
  {
    if keys == {} then [] else
      LeastKeyExists(keys);
      LeastKeyUnique(keys);
      var k :| IsLeastKey(k, keys);
      [k] + SortedKeys(keys - {k})
  }

  /** SortedKeys really is the ascending order. */
  lemma {:induction false} SortedKeysAscend(keys: set<string>)
    ensures forall i, j | 0 <= i < j < |SortedKeys(keys)| :: KeyAtMost(SortedKeys(keys)[i], SortedKeys(keys)[j])
  {
    if keys != {} {
      var k, tail := SortedKeys(keys)[0], SortedKeys(keys)[1..];
      SortedKeysStep(keys);
      SortedKeysAscend(keys - {k});
      forall i, j | 0 <= i < j < |SortedKeys(keys)| ensures KeyAtMost(SortedKeys(keys)[i], SortedKeys(keys)[j]) {
        assert SortedKeys(keys)[j] == tail[j - 1] && tail[j - 1] in keys;
        if i > 0 { assert SortedKeys(keys)[i] == tail[i - 1]; }
      }
    }
  }

  lemma SortedKeysStep(keys: set<string>)
    requires keys != {}
    ensures IsLeastKey(SortedKeys(keys)[0], keys)
    ensures SortedKeys(keys)[1..] == SortedKeys(keys - {SortedKeys(keys)[0]})
  {
    LeastKeyExists(keys);
    LeastKeyUnique(keys);
    var k :| IsLeastKey(k, keys);
    assert SortedKeys(keys) == [k] + SortedKeys(keys - {k});
  }
}
