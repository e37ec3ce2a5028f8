/** diff: a patch that turns one value into another, and the proof that it does. */
module JsonDiff {
  import opened Wrappers
  import opened JsonValue
  import opened JsonPointer
  import opened JsonPatch
  import Digits

  // ---- the operations diff emits, with pointers relative to the compared values ----

  function Diff(source: Json, target: Json): seq<Op>
    decreases source
  {
    if Eq(source, target) then []
    else if source.Arr? && target.Arr? then
      ArrayDiff(source, target, Min(|source.items|, |target.items|))
      + Removals(|target.items|, |source.items|)
      + Appends(target.items, |source.items|)
    else if source.Obj? && target.Obj? then
      ObjectDiff(source, target, KeysOf(source.fields))
      + Additions(source.fields, target.fields, KeysOf(target.fields))
    else
      [Replace([], target)]
  }

  function Min(a: nat, b: nat): nat {
    if a < b then a else b
  }

  /** First pass over arrays: the first n common elements. */
  function ArrayDiff(source: Json, target: Json, n: nat): seq<Op>
    requires source.Arr? && target.Arr? && n <= |source.items| && n <= |target.items|
    decreases source, n
  {
    if n == 0 then [] else
      ArrayDiff(source, target, n - 1)
      + AllUnder([Decimal(n - 1)], Diff(source.items[n - 1], target.items[n - 1]))
  }

  /** Second pass: remove indices lo..hi, the highest first. */
  function Removals(lo: nat, hi: nat): seq<Op> {
    if hi <= lo then [] else [Remove([Decimal(hi - 1)])] + Removals(lo, hi - 1)
  }

  /** Append the elements of target from index n on. */
  function Appends(target: seq<Json>, n: nat): seq<Op> {
    if n >= |target| then [] else Appends(target[..|target| - 1], n) + [Add(["-"], target[|target| - 1])]
  }

  function KeysOf(m: map<string, Json>): (ks: seq<string>)
    ensures |ks| == |m| && forall k :: k in ks <==> k in m
    ensures Distinct(ks) && Within(ks, m)
  {
    assert |m| == |m.Keys|;
    SortedKeys(m.Keys)
  }

  predicate Distinct(ks: seq<string>) {
    forall i, j | 0 <= i < j < |ks| :: ks[i] != ks[j]
  }

  predicate Within(ks: seq<string>, m: map<string, Json>) {
    forall i | 0 <= i < |ks| :: ks[i] in m
  }

  /** First pass over objects: the members of source in the order of ks. */
  function ObjectDiff(source: Json, target: Json, ks: seq<string>): seq<Op>
    requires source.Obj? && target.Obj? && Within(ks, source.fields)
    decreases source, |ks|
  {
    if ks == [] then [] else
      var most, k := ks[..|ks| - 1], ks[|ks| - 1];
      ObjectDiff(source, target, most) + MemberDiff(source, target, k)
  }

  function MemberDiff(source: Json, target: Json, k: string): seq<Op>
    requires source.Obj? && target.Obj? && k in source.fields
    decreases source, 0
  {
    if k in target.fields then AllUnder([k], Diff(source.fields[k], target.fields[k])) else [Remove([k])]
  }

  /** Second pass: the members that only target has. */
  function Additions(source: map<string, Json>, target: map<string, Json>, ks: seq<string>): seq<Op>
    requires Within(ks, target)
  {
    if ks == [] then [] else
      var most, k := ks[..|ks| - 1], ks[|ks| - 1];
      Additions(source, target, most) + Addition(source, target, k)
  }

  function Addition(source: map<string, Json>, target: map<string, Json>, k: string): seq<Op>
    requires k in target
  {
    if k in source then [] else [Add([k], target[k])]
  }

  // ---- what applying them gives ----

  /** Parts of source that already equal target are kept, the rest comes from target. */
  function Merged(source: Json, target: Json): Json
    decreases source
  {
    if Eq(source, target) then source
    else if source.Arr? && target.Arr? then
      var xs, ys := source.items, target.items;
      Arr(seq(|ys|, i requires 0 <= i < |ys| => if i < |xs| then Merged(xs[i], ys[i]) else ys[i]))
    else if source.Obj? && target.Obj? then
      var m, n := source.fields, target.fields;
      Obj(map k | k in n.Keys :: if k in m then Merged(m[k], n[k]) else n[k])
    else target
  }

  lemma {:induction false} MergedEqTarget(source: Json, target: Json)
    ensures Eq(Merged(source, target), target) <==> Comparable(target)
    decreases source
  {
    if Eq(Merged(source, target), target) { EqComparable(Merged(source, target), target); }
    EqReflexive(target);
    if Comparable(target) && !Eq(source, target) {
      if source.Arr? && target.Arr? {
        var xs, ys := source.items, target.items;
        forall i | 0 <= i < |ys| ensures Eq(Merged(source, target).items[i], ys[i]) {
          EqReflexive(ys[i]);
          if i < |xs| { MergedEqTarget(xs[i], ys[i]); }
        }
      } else if source.Obj? && target.Obj? {
        var m, n := source.fields, target.fields;
        forall k | k in n.Keys ensures Eq(Merged(source, target).fields[k], n[k]) {
          EqReflexive(n[k]);
          if k in m { MergedEqTarget(m[k], n[k]); }
        }
      }
    }
  }

  /** Every array inside is short enough for size_type to index, as every std::vector is. */
  predicate Indexable(j: Json) {
    match j
    case Arr(xs) => |xs| < TWO_64 && forall i | 0 <= i < |xs| :: Indexable(xs[i])
    case Obj(m) => forall k | k in m.Keys :: Indexable(m[k])
    case _ => true
  }

  lemma {:induction false} DiffInside(source: Json, target: Json)
    ensures AllInside(Diff(source, target))
  {
    if !Eq(source, target) {
      if source.Arr? && target.Arr? {
        ArrayDiffInside(source, target, Min(|source.items|, |target.items|));
        RemovalsInside(|target.items|, |source.items|);
        AppendsInside(target.items, |source.items|);
      } else if source.Obj? && target.Obj? {
        ObjectDiffInside(source, target, KeysOf(source.fields));
        AdditionsInside(source.fields, target.fields, KeysOf(target.fields));
      }
    }
  }

  lemma {:induction false} ArrayDiffInside(source: Json, target: Json, n: nat)
    requires source.Arr? && target.Arr? && n <= |source.items| && n <= |target.items|
    ensures AllInside(ArrayDiff(source, target, n))
  {
    hide Diff;
    if n > 0 {
      ArrayDiffInside(source, target, n - 1);
      UnderStaysInside([Decimal(n - 1)], Diff(source.items[n - 1], target.items[n - 1]));
    }
  }

  lemma {:induction false} RemovalsInside(lo: nat, hi: nat)
    ensures AllInside(Removals(lo, hi))
  {
    if hi > lo { RemovalsInside(lo, hi - 1); }
  }

  lemma {:induction false} AppendsInside(target: seq<Json>, n: nat)
    ensures AllInside(Appends(target, n))
  {
    if n < |target| { AppendsInside(target[..|target| - 1], n); }
  }

  lemma {:induction false} ObjectDiffInside(source: Json, target: Json, ks: seq<string>)
    requires source.Obj? && target.Obj? && Within(ks, source.fields)
    ensures AllInside(ObjectDiff(source, target, ks))
  {
    hide Diff;
    if ks != [] {
      var k := ks[|ks| - 1];
      ObjectDiffInside(source, target, ks[..|ks| - 1]);
      if k in target.fields { UnderStaysInside([k], Diff(source.fields[k], target.fields[k])); }
    }
  }

  lemma {:induction false} AdditionsInside(source: map<string, Json>, target: map<string, Json>, ks: seq<string>)
    requires Within(ks, target)
    ensures AllInside(Additions(source, target, ks))
  {
    if ks != [] { AdditionsInside(source, target, ks[..|ks| - 1]); }
  }

  // ---- applying each pass ----

  /** The array part of the way through: the first n elements merged. */
  function MergedPrefix(source: Json, target: Json, n: nat): Json
    requires source.Arr? && target.Arr? && n <= |source.items| && n <= |target.items|
  {
    Arr(seq(|source.items|, i requires 0 <= i < |source.items| =>
      if i < n then Merged(source.items[i], target.items[i]) else source.items[i]))
  }

  lemma {:induction false} ApplyDiff(source: Json, target: Json)
    requires Indexable(source)
    ensures ApplyOps(source, Diff(source, target)) == Outcome(Merged(source, target), None)
    decreases source
  {
    if !Eq(source, target) {
      if source.Arr? && target.Arr? {
        ApplyArrays(source, target);
      } else if source.Obj? && target.Obj? {
        ApplyObjects(source, target);
      } else {
        assert [Replace([], target)][1..] == [];
      }
    }
  }

  lemma {:induction false} ApplyArrays(source: Json, target: Json)
    requires Indexable(source) && source.Arr? && target.Arr? && !Eq(source, target)
    ensures ApplyOps(source, Diff(source, target)) == Outcome(Merged(source, target), None)
    decreases source, 1, 0
  {
    var xs, ys := source.items, target.items;
    var n := Min(|xs|, |ys|);
    var common, removals, appends := ArrayDiff(source, target, n), Removals(|ys|, |xs|), Appends(ys, |xs|);
    ApplyCommon(source, target, n);
    var mid := MergedPrefix(source, target, n);
    ApplyRemovals(mid.items, |ys|, |xs|);
    var cut := if |ys| < |xs| then mid.items[..|ys|] else mid.items;
    ApplyAppends(cut, ys, |xs|);
    var end := if |xs| < |ys| then cut + ys[|xs|..] else cut;
    MergedArrayForm(source, target, end);
    ApplyInTurn(source, common, mid, removals, Arr(cut));
    ApplyInTurn(source, common + removals, Arr(cut), appends, Arr(end));
  }

  lemma MergedArrayForm(source: Json, target: Json, end: seq<Json>)
    requires source.Arr? && target.Arr? && !Eq(source, target)
    requires var xs, ys := source.items, target.items;
             var mid := MergedPrefix(source, target, Min(|xs|, |ys|)).items;
             var cut := if |ys| < |xs| then mid[..|ys|] else mid;
             end == if |xs| < |ys| then cut + ys[|xs|..] else cut
    ensures Merged(source, target) == Arr(end)
  {
    assert Merged(source, target).items == end;
  }

  lemma {:induction false} ApplyCommon(source: Json, target: Json, n: nat)
    requires Indexable(source) && source.Arr? && target.Arr? && n <= |source.items| && n <= |target.items|
    ensures ApplyOps(source, ArrayDiff(source, target, n)) == Outcome(MergedPrefix(source, target, n), None)
    decreases source, 0, n
  {
    hide Decimal, ApplyOps, Diff, Merged;
    if n == 0 {
      ApplyNone(source);
      assert MergedPrefix(source, target, 0).items == source.items;
    } else {
      var i := n - 1;
      var x, y := source.items[i], target.items[i];
      ApplyCommon(source, target, i);
      ApplyDiff(x, y);
      var before := MergedPrefix(source, target, i);
      ApplyElement(source, target, i);
      ApplyInTurn(source, ArrayDiff(source, target, i), before, AllUnder([Decimal(i)], Diff(x, y)), MergedPrefix(source, target, n));
    }
  }

  lemma ApplyElement(source: Json, target: Json, i: nat)
    requires source.Arr? && target.Arr? && i < |source.items| < TWO_64 && i < |target.items|
    requires ApplyOps(source.items[i], Diff(source.items[i], target.items[i]))
             == Outcome(Merged(source.items[i], target.items[i]), None)
    ensures ApplyOps(MergedPrefix(source, target, i), AllUnder([Decimal(i)], Diff(source.items[i], target.items[i])))
            == Outcome(MergedPrefix(source, target, i + 1), None)
  {
    hide Diff, Merged, ApplyOps, Decimal;
    var x, y := source.items[i], target.items[i];
    var before := MergedPrefix(source, target, i);
    IndexIsChild(before, i);
    ApplyAtChild(before, Decimal(i), x, y);
    assert before.items[i := Merged(x, y)] == MergedPrefix(source, target, i + 1).items;
  }

  lemma IndexIsChild(j: Json, i: nat)
    requires j.Arr? && i < |j.items| && i < TWO_64 - 1
    ensures Child(j, Decimal(i)) == Success(j.items[i])
    ensures forall v :: SetChild(j, Decimal(i), v) == Arr(j.items[i := v])
  {
    ArrayIndexIffDecimal(Decimal(i), i);
    DashIsNoIndex();
  }

  /** The diff of one child, applied where that child sits. */
  lemma ApplyAtChild(parent: Json, token: string, x: Json, y: Json)
    requires Child(parent, token) == Success(x)
    requires ApplyOps(x, Diff(x, y)) == Outcome(Merged(x, y), None)
    ensures ApplyOps(parent, AllUnder([token], Diff(x, y))) == Outcome(SetChild(parent, token, Merged(x, y)), None)
  {
    hide Diff, Merged;
    DiffInside(x, y);
    assert At(parent, [token]) == Success(x);
    Locality(parent, [token], Diff(x, y));
    assert Put(parent, [token], Merged(x, y)) == SetChild(parent, token, Merged(x, y));
  }

  lemma {:induction false} ApplyRemovals(xs: seq<Json>, lo: nat, hi: nat)
    requires |xs| < TWO_64 && (hi == |xs| || hi <= lo)
    ensures ApplyOps(Arr(xs), Removals(lo, hi)) == Outcome(Arr(if lo < hi then xs[..lo] else xs), None)
    decreases hi
  {
    if lo < hi {
      var shorter := xs[..hi - 1];
      RemoveLast(xs);
      hide ApplyOp;
      ApplyRemovals(shorter, lo, hi - 1);
      assert Removals(lo, hi)[1..] == Removals(lo, hi - 1);
      assert lo < hi - 1 ==> shorter[..lo] == xs[..lo];
      assert lo == hi - 1 ==> shorter == xs[..lo];
    }
  }

  lemma RemoveLast(xs: seq<Json>)
    requires 0 < |xs| < TWO_64
    ensures ApplyOp(Arr(xs), Remove([Decimal(|xs| - 1)])) == Outcome(Arr(xs[..|xs| - 1]), None)
  {
    hide ArrayIndex, Decimal;
    var n := |xs| - 1;
    var ptr := [Decimal(n)];
    ArrayIndexIffDecimal(ptr[0], n);
    assert Parent(ptr) == [] && Last(ptr) == ptr[0];
    assert xs[..n] + xs[n + 1..] == xs[..n];
  }

  lemma {:induction false} ApplyAppends(xs: seq<Json>, target: seq<Json>, n: nat)
    ensures ApplyOps(Arr(xs), Appends(target, n)) == Outcome(Arr(if n < |target| then xs + target[n..] else xs), None)
    decreases |target|
  {
    hide ApplyOps;
    if |target| <= n {
      ApplyNone(Arr(xs));
    } else {
      var most, last := target[..|target| - 1], target[|target| - 1];
      ApplyAppends(xs, most, n);
      var ys := if n < |most| then xs + most[n..] else xs;
      ApplyAppend(ys, last);
      ApplyInTurn(Arr(xs), Appends(most, n), Arr(ys), [Add(["-"], last)], Arr(ys + [last]));
      assert ys + [last] == xs + target[n..];
    }
  }

  lemma ApplyAppend(xs: seq<Json>, v: Json)
    ensures ApplyOps(Arr(xs), [Add(["-"], v)]) == Outcome(Arr(xs + [v]), None)
  {
    assert Parent(["-"]) == [] && Last(["-"]) == "-";
    assert ApplyOp(Arr(xs), Add(["-"], v)) == Outcome(Arr(xs + [v]), None);
    assert [Add(["-"], v)][1..] == [];
  }

  /** The object part of the way through: the members ks of source handled. */
  function MergedMembers(source: Json, target: Json, ks: seq<string>): map<string, Json>
    requires source.Obj? && target.Obj?
  {
    var m, t := source.fields, target.fields;
    map k | k in m.Keys && (k in ks ==> k in t) :: if k in ks then Merged(m[k], t[k]) else m[k]
  }

  lemma {:induction false} ApplyObjects(source: Json, target: Json)
    requires Indexable(source) && source.Obj? && target.Obj? && !Eq(source, target)
    ensures ApplyOps(source, Diff(source, target)) == Outcome(Merged(source, target), None)
    decreases source, 1, 0
  {
    hide ApplyOps, ObjectDiff, Additions, MergedMembers, WithAdditions;
    var m, t := source.fields, target.fields;
    var ms, ts := KeysOf(m), KeysOf(t);
    ApplyMembers(source, target, ms);
    var mid := MergedMembers(source, target, ms);
    ApplyAdditions(mid, m, t, ts);
    MergedObjectForm(source, target, ms, ts);
    ApplyInTurn(source, ObjectDiff(source, target, ms), Obj(mid), Additions(m, t, ts), Merged(source, target));
  }

  lemma MergedObjectForm(source: Json, target: Json, ms: seq<string>, ts: seq<string>)
    requires source.Obj? && target.Obj? && !Eq(source, target)
    requires forall k :: k in ms <==> k in source.fields
    requires forall k :: k in ts <==> k in target.fields
    ensures Merged(source, target)
            == Obj(WithAdditions(MergedMembers(source, target, ms), source.fields, target.fields, ts))
  {
    var m, t := source.fields, target.fields;
    assert WithAdditions(MergedMembers(source, target, ms), m, t, ts) == Merged(source, target).fields;
  }

  lemma {:induction false} ApplyMembers(source: Json, target: Json, ks: seq<string>)
    requires Indexable(source) && source.Obj? && target.Obj? && Within(ks, source.fields) && Distinct(ks)
    ensures ApplyOps(source, ObjectDiff(source, target, ks)) == Outcome(Obj(MergedMembers(source, target, ks)), None)
    decreases source, 0, |ks|
  {
    if ks == [] {
      assert MergedMembers(source, target, []) == source.fields;
    } else {
      var most, k := ks[..|ks| - 1], ks[|ks| - 1];
      ApplyMembers(source, target, most);
      if k in target.fields { ApplyDiff(source.fields[k], target.fields[k]); }
      assert k !in most && ks == most + [k];
      ApplyMember(source, target, most, k);
      ApplyInTurn(source, ObjectDiff(source, target, most), Obj(MergedMembers(source, target, most)),
                  MemberDiff(source, target, k), Obj(MergedMembers(source, target, ks)));
    }
  }

  lemma ApplyMember(source: Json, target: Json, most: seq<string>, k: string)
    requires source.Obj? && target.Obj? && k in source.fields && k !in most
    requires k in target.fields ==>
               ApplyOps(source.fields[k], Diff(source.fields[k], target.fields[k]))
               == Outcome(Merged(source.fields[k], target.fields[k]), None)
    ensures ApplyOps(Obj(MergedMembers(source, target, most)), MemberDiff(source, target, k))
            == Outcome(Obj(MergedMembers(source, target, most + [k])), None)
  {
    hide Diff, Merged;
    var m, t := source.fields, target.fields;
    var before := MergedMembers(source, target, most);
    if k in t {
      ApplyAtChild(Obj(before), k, m[k], t[k]);
      assert before[k := Merged(m[k], t[k])] == MergedMembers(source, target, most + [k]);
    } else {
      ApplyRemoveMember(before, k);
      assert before - {k} == MergedMembers(source, target, most + [k]);
    }
  }

  lemma ApplyRemoveMember(m: map<string, Json>, k: string)
    requires k in m
    ensures ApplyOps(Obj(m), [Remove([k])]) == Outcome(Obj(m - {k}), None)
  {
    assert Parent([k]) == [] && Last([k]) == k;
    assert ApplyOp(Obj(m), Remove([k])) == Outcome(Obj(m - {k}), None);
    assert [Remove([k])][1..] == [];
  }

  lemma ApplyAddMember(m: map<string, Json>, k: string, v: Json)
    ensures ApplyOps(Obj(m), [Add([k], v)]) == Outcome(Obj(m[k := v]), None)
  {
    assert Parent([k]) == [] && Last([k]) == k;
    assert ApplyOp(Obj(m), Add([k], v)) == Outcome(Obj(m[k := v]), None);
    assert [Add([k], v)][1..] == [];
  }

  function WithAdditions(base: map<string, Json>, source: map<string, Json>, target: map<string, Json>, ks: seq<string>): map<string, Json> {
    base + map k | k in target.Keys && k !in source && k in ks :: target[k]
  }

  lemma {:induction false} ApplyAdditions(base: map<string, Json>, source: map<string, Json>, target: map<string, Json>, ks: seq<string>)
    requires Within(ks, target)
    ensures ApplyOps(Obj(base), Additions(source, target, ks)) == Outcome(Obj(WithAdditions(base, source, target, ks)), None)
    decreases |ks|
  {
    hide ApplyOps, WithAdditions;
    if ks == [] {
      NoneAdded(base, source, target);
      ApplyNone(Obj(base));
    } else {
      var most, k := ks[..|ks| - 1], ks[|ks| - 1];
      ApplyAdditions(base, source, target, most);
      var before := WithAdditions(base, source, target, most);
      assert ks == most + [k];
      OneMoreAdded(base, source, target, most, k);
      if k in source {
        assert Additions(source, target, ks) == Additions(source, target, most);
      } else {
        ApplyAddMember(before, k, target[k]);
        ApplyInTurn(Obj(base), Additions(source, target, most), Obj(before), [Add([k], target[k])], Obj(before[k := target[k]]));
      }
    }
  }

  lemma ApplyNone(doc: Json)
    ensures ApplyOps(doc, []) == Outcome(doc, None)
  {
  }

  lemma NoneAdded(base: map<string, Json>, source: map<string, Json>, target: map<string, Json>)
    ensures WithAdditions(base, source, target, []) == base
  {
  }

  lemma OneMoreAdded(base: map<string, Json>, source: map<string, Json>, target: map<string, Json>, most: seq<string>, k: string)
    requires k in target
    ensures WithAdditions(base, source, target, most + [k])
            == if k in source then WithAdditions(base, source, target, most)
               else WithAdditions(base, source, target, most)[k := target[k]]
  {
  }

  /** The patch is empty exactly when the values are equal. */
  lemma {:induction false} EmptyDiffIffEq(source: Json, target: Json)
    ensures Diff(source, target) == [] <==> Eq(source, target)
    decreases source
  {
    if Diff(source, target) == [] {
      if source.Arr? && target.Arr? {
        EmptyArrayDiff(source, target);
      } else if source.Obj? && target.Obj? {
        EmptyObjectDiff(source, target);
      }
    }
  }

  lemma {:induction false} EmptyArrayDiff(source: Json, target: Json)
    requires source.Arr? && target.Arr? && Diff(source, target) == []
    ensures Eq(source, target)
    decreases source, 1, 0
  {
    var xs, ys := source.items, target.items;
    if !Eq(source, target) {
      EmptyPasses(ArrayDiff(source, target, Min(|xs|, |ys|)), Removals(|ys|, |xs|), Appends(ys, |xs|));
      EmptyCommon(source, target, Min(|xs|, |ys|));
    }
  }

  lemma EmptyPasses(a: seq<Op>, b: seq<Op>, c: seq<Op>)
    requires a + b + c == []
    ensures a == [] && b == [] && c == []
  {
    assert |a| + |b| + |c| == 0;
  }

  lemma {:induction false} EmptyCommon(source: Json, target: Json, n: nat)
    requires source.Arr? && target.Arr? && n <= |source.items| && n <= |target.items|
    requires ArrayDiff(source, target, n) == []
    ensures forall i | 0 <= i < n :: Eq(source.items[i], target.items[i])
    decreases source, 0, n
  {
    hide Diff;
    if n > 0 {
      var d := Diff(source.items[n - 1], target.items[n - 1]);
      EmptyPasses(ArrayDiff(source, target, n - 1), AllUnder([Decimal(n - 1)], d), []);
      EmptyCommon(source, target, n - 1);
      assert |AllUnder([Decimal(n - 1)], d)| == 0;
      EmptyDiffIffEq(source.items[n - 1], target.items[n - 1]);
    }
  }

  lemma {:induction false} EmptyObjectDiff(source: Json, target: Json)
    requires source.Obj? && target.Obj? && Diff(source, target) == []
    ensures Eq(source, target)
    decreases source, 1, 0
  {
    var m, t := source.fields, target.fields;
    var ms, ts := KeysOf(m), KeysOf(t);
    if !Eq(source, target) {
      assert Diff(source, target) == ObjectDiff(source, target, ms) + Additions(m, t, ts);
      EmptyPasses(ObjectDiff(source, target, ms), Additions(m, t, ts), []);
      EmptyMembers(source, target, ms);
      NoAdditions(m, t, ts);
      MembersEqual(source, target, ms, ts);
    }
  }

  lemma MembersEqual(source: Json, target: Json, ms: seq<string>, ts: seq<string>)
    requires source.Obj? && target.Obj?
    requires forall k :: k in ms <==> k in source.fields
    requires forall k :: k in ts <==> k in target.fields
    requires forall k | k in ms :: k in source.fields && k in target.fields && Eq(source.fields[k], target.fields[k])
    requires forall k | k in ts :: k in source.fields
    ensures Eq(source, target)
  {
    forall k ensures k in source.fields.Keys <==> k in target.fields.Keys {
      assert k in ms <==> k in source.fields;
      assert k in ts <==> k in target.fields;
    }
    assert source.fields.Keys == target.fields.Keys;
    forall k | k in source.fields.Keys ensures Eq(source.fields[k], target.fields[k]) { assert k in ms; }
  }

  lemma {:induction false} EmptyMembers(source: Json, target: Json, ks: seq<string>)
    requires source.Obj? && target.Obj? && Within(ks, source.fields)
    requires ObjectDiff(source, target, ks) == []
    ensures forall k | k in ks :: k in source.fields && k in target.fields && Eq(source.fields[k], target.fields[k])
    decreases source, 0, |ks|
  {
    hide Diff;
    if ks != [] {
      var most, k := ks[..|ks| - 1], ks[|ks| - 1];
      EmptyPasses(ObjectDiff(source, target, most), MemberDiff(source, target, k), []);
      EmptyMembers(source, target, most);
      assert |MemberDiff(source, target, k)| == 0;
      EmptyDiffIffEq(source.fields[k], target.fields[k]);
      assert ks == most + [k];
    }
  }

  lemma {:induction false} NoAdditions(source: map<string, Json>, target: map<string, Json>, ks: seq<string>)
    requires Within(ks, target) && Additions(source, target, ks) == []
    ensures forall k | k in ks :: k in source
    decreases |ks|
  {
    if ks != [] {
      hide Within;
      var most, k := ks[..|ks| - 1], ks[|ks| - 1];
      OneMoreKey(source, target, ks);
      NoAdditions(source, target, most);
      assert ks == most + [k];
    }
  }

  lemma OneMoreKey(source: map<string, Json>, target: map<string, Json>, ks: seq<string>)
    requires ks != [] && Within(ks, target) && Additions(source, target, ks) == []
    ensures Within(ks[..|ks| - 1], target) && Additions(source, target, ks[..|ks| - 1]) == [] && ks[|ks| - 1] in source
  {
    var most, k := ks[..|ks| - 1], ks[|ks| - 1];
    EmptyPasses(Additions(source, target, most), Addition(source, target, k), []);
    assert |Addition(source, target, k)| == 0;
  }

  /** The promise of diff, for every pair of values: applying diff(source, target) to source never fails, and
      the result equals target exactly when target holds no NaN and no discarded value (such a target equals
      nothing, itself included). */
  lemma DiffRoundTrip(source: Json, target: Json)
    requires Indexable(source)
    ensures var r := Patch(source, Arr(EncodeAll(Diff(source, target))));
            r.error == None && (Eq(r.doc, target) <==> Comparable(target))
  {
    PatchEncoded(source, Diff(source, target));
    ApplyDiff(source, target);
    MergedEqTarget(source, target);
  }

  /** Where the number kinds cannot make a difference, the merge is the target itself. */
  lemma {:induction false} MergedIsTarget(source: Json, target: Json)
    requires NumbersAgree(source, target)
    ensures Merged(source, target) == target
    decreases source
  {
    hide Eq, NumbersAgree;
    EqIsIdentity(source, target);
    if Eq(source, target) {
    } else if source.Arr? && target.Arr? {
      var xs, ys := source.items, target.items;
      forall i | 0 <= i < |xs| && i < |ys| ensures Merged(xs[i], ys[i]) == ys[i] {
        PartsAgree(source, target, xs[i], ys[i]);
        MergedIsTarget(xs[i], ys[i]);
      }
      assert Merged(source, target).items == ys;
    } else if source.Obj? && target.Obj? {
      var m, n := source.fields, target.fields;
      forall k | k in m.Keys && k in n.Keys ensures Merged(m[k], n[k]) == n[k] {
        PartsAgree(source, target, m[k], n[k]);
        MergedIsTarget(m[k], n[k]);
      }
      assert Merged(source, target).fields == n;
    }
  }

  predicate IsPart(j: Json, part: Json) {
    (j.Arr? && part in j.items) || (j.Obj? && exists k | k in j.fields.Keys :: j.fields[k] == part)
  }

  lemma PartsAgree(a: Json, b: Json, x: Json, y: Json)
    requires NumbersAgree(a, b) && IsPart(a, x) && IsPart(b, y)
    ensures NumbersAgree(x, y)
  {
    if !NumberFree(a) && !NumberFree(b) {
      var kind :| NumbersAre(a, kind) && NumbersAre(b, kind);
      assert NumbersAre(x, kind) && NumbersAre(y, kind);
    }
  }

  /** Such a target is reached literally, not just up to operator==. */
  lemma DiffRoundTripExact(source: Json, target: Json)
    requires Indexable(source) && NumbersAgree(source, target)
    ensures Patch(source, Arr(EncodeAll(Diff(source, target)))) == Outcome(target, None)
  {
    PatchEncoded(source, Diff(source, target));
    ApplyDiff(source, target);
    MergedIsTarget(source, target);
  }

  // ---- a diff touches nothing that is equal ----

  /** Two values that cannot be compared part by part. */
  predicate Unlike(x: Json, y: Json) {
    !Eq(x, y) && !(x.Arr? && y.Arr?) && !(x.Obj? && y.Obj?)
  }

  /** v is an element of the array b at a place that the array a does not have. */
  predicate Surplus(a: Result<Json, Error>, b: Result<Json, Error>, v: Json) {
    a.Success? && b.Success? && a.value.Arr? && b.value.Arr? &&
    exists i | |a.value.items| <= i < |b.value.items| :: b.value.items[i] == v
  }

  /** What the difference of two values calls for: a replacement where both have values that are not alike, a
      removal where only source has one, and an addition where only target has one. */
  predicate CalledFor(source: Json, target: Json, op: Op) {
    match op
    case Replace(p, v) => At(source, p).Success? && At(target, p) == Success(v) && Unlike(At(source, p).value, v)
    case Remove(p) => At(source, p).Success? && At(target, p).Failure?
    case Add(p, v) =>
      (At(source, p).Failure? && At(target, p) == Success(v)) ||
      (p != [] && Last(p) == "-" && Surplus(At(source, Parent(p)), At(target, Parent(p)), v))
    case _ => false
  }

  predicate AllCalledFor(source: Json, target: Json, ops: seq<Op>) {
    forall i | 0 <= i < |ops| :: CalledFor(source, target, ops[i])
  }

  lemma AtOne(j: Json, token: string)
    ensures At(j, [token]) == Child(j, token)
  {
    hide Child;
    assert [token][1..] == [];
  }

  lemma AtInChild(source: Json, target: Json, token: string, x: Json, y: Json, p: Pointer)
    requires Child(source, token) == Success(x) && Child(target, token) == Success(y)
    ensures At(source, [token] + p) == At(x, p) && At(target, [token] + p) == At(y, p)
  {
    hide Child;
    AtOne(source, token);
    AtOne(target, token);
    AtConcat(source, [token], p);
    AtConcat(target, [token], p);
  }

  lemma CalledForUnder(source: Json, target: Json, token: string, x: Json, y: Json, op: Op)
    requires Child(source, token) == Success(x) && Child(target, token) == Success(y) && CalledFor(x, y, op)
    ensures CalledFor(source, target, Under([token], op))
  {
    hide Child, At, Unlike, Surplus, Parent, Last, CalledFor;
    var p := op.path;
    OnlyThree(x, y, op);
    AtInChild(source, target, token, x, y, p);
    if p != [] {
      ConcatParent([token], p);
      AtInChild(source, target, token, x, y, Parent(p));
    }
    CalledForMoved(source, target, [token] + p, x, y, op);
  }

  lemma OnlyThree(x: Json, y: Json, op: Op)
    requires CalledFor(x, y, op)
    ensures op.Replace? || op.Remove? || op.Add?
  {
  }

  lemma CalledForMoved(source: Json, target: Json, q: Pointer, x: Json, y: Json, op: Op)
    requires CalledFor(x, y, op) && At(source, q) == At(x, op.path) && At(target, q) == At(y, op.path)
    requires op.path != [] ==> q != [] && Last(q) == Last(op.path)
    requires op.path != [] ==>
               At(source, Parent(q)) == At(x, Parent(op.path)) && At(target, Parent(q)) == At(y, Parent(op.path))
    ensures op.Replace? ==> CalledFor(source, target, Replace(q, op.value))
    ensures op.Remove? ==> CalledFor(source, target, Remove(q))
    ensures op.Add? ==> CalledFor(source, target, Add(q, op.value))
  {
    hide At, Unlike, Surplus, Parent, Last;
  }

  lemma AllCalledForUnder(source: Json, target: Json, token: string, x: Json, y: Json, ops: seq<Op>)
    requires Child(source, token) == Success(x) && Child(target, token) == Success(y) && AllCalledFor(x, y, ops)
    ensures AllCalledFor(source, target, AllUnder([token], ops))
  {
    hide CalledFor, Child, Under;
    forall i | 0 <= i < |ops| ensures CalledFor(source, target, AllUnder([token], ops)[i]) {
      CalledForUnder(source, target, token, x, y, ops[i]);
    }
  }

  /** Every operation of a diff is called for, at whatever depth: what is equal in source and target is not touched. */
  lemma {:induction false} DiffIsCalledFor(source: Json, target: Json)
    requires Indexable(source)
    ensures AllCalledFor(source, target, Diff(source, target))
    decreases source
  {
    hide CalledFor, ArrayDiff, ObjectDiff, Removals, Appends, Additions, Eq;
    if !Eq(source, target) {
      if source.Arr? && target.Arr? {
        ArrayIsCalledFor(source, target, Min(|source.items|, |target.items|));
        RemovalsCalledFor(source, target, |source.items|);
        AppendsCalledFor(source, target, target.items);
      } else if source.Obj? && target.Obj? {
        ObjectIsCalledFor(source, target, KeysOf(source.fields));
        AdditionsCalledFor(source, target, KeysOf(target.fields));
      } else {
        WholeIsCalledFor(source, target);
      }
    }
  }

  lemma WholeIsCalledFor(source: Json, target: Json)
    requires Unlike(source, target)
    ensures CalledFor(source, target, Replace([], target))
  {
  }

  lemma {:induction false} ArrayIsCalledFor(source: Json, target: Json, n: nat)
    requires Indexable(source) && source.Arr? && target.Arr? && n <= |source.items| && n <= |target.items|
    ensures AllCalledFor(source, target, ArrayDiff(source, target, n))
    decreases source, n
  {
    hide Diff, CalledFor;
    if n > 0 {
      var x, y := source.items[n - 1], target.items[n - 1];
      ArrayIsCalledFor(source, target, n - 1);
      DiffIsCalledFor(x, y);
      IndexIsChild(source, n - 1);
      IndexIsChild(target, n - 1);
      AllCalledForUnder(source, target, Decimal(n - 1), x, y, Diff(x, y));
    }
  }

  lemma {:induction false} RemovalsCalledFor(source: Json, target: Json, hi: nat)
    requires Indexable(source) && source.Arr? && target.Arr? && hi <= |source.items|
    ensures AllCalledFor(source, target, Removals(|target.items|, hi))
  {
    hide CalledFor;
    if hi > |target.items| {
      RemovalsCalledFor(source, target, hi - 1);
      RemovalCalledFor(source, target, hi - 1);
    }
  }

  lemma RemovalCalledFor(source: Json, target: Json, i: nat)
    requires Indexable(source) && source.Arr? && target.Arr? && |target.items| <= i < |source.items|
    ensures CalledFor(source, target, Remove([Decimal(i)]))
  {
    hide ArrayIndex, Decimal, At;
    IndexIsChild(source, i);
    ArrayIndexIffDecimal(Decimal(i), i);
    AtOne(source, Decimal(i));
    AtOne(target, Decimal(i));
  }

  lemma {:induction false} AppendsCalledFor(source: Json, target: Json, ys: seq<Json>)
    requires source.Arr? && target.Arr? && ys <= target.items
    ensures AllCalledFor(source, target, Appends(ys, |source.items|))
    decreases |ys|
  {
    hide CalledFor;
    if |ys| > |source.items| {
      AppendsCalledFor(source, target, ys[..|ys| - 1]);
      AppendCalledFor(source, target, |ys| - 1);
    }
  }

  lemma AppendCalledFor(source: Json, target: Json, i: nat)
    requires source.Arr? && target.Arr? && |source.items| <= i < |target.items|
    ensures CalledFor(source, target, Add(["-"], target.items[i]))
  {
    assert Parent(["-"]) == [];
  }

  lemma {:induction false} ObjectIsCalledFor(source: Json, target: Json, ks: seq<string>)
    requires Indexable(source) && source.Obj? && target.Obj? && Within(ks, source.fields)
    ensures AllCalledFor(source, target, ObjectDiff(source, target, ks))
    decreases source, |ks|
  {
    hide Diff, CalledFor;
    if ks != [] {
      var k := ks[|ks| - 1];
      ObjectIsCalledFor(source, target, ks[..|ks| - 1]);
      if k in target.fields {
        var x, y := source.fields[k], target.fields[k];
        DiffIsCalledFor(x, y);
        AllCalledForUnder(source, target, k, x, y, Diff(x, y));
      } else {
        MemberRemovalCalledFor(source, target, k);
      }
    }
  }

  lemma MemberRemovalCalledFor(source: Json, target: Json, k: string)
    requires source.Obj? && target.Obj? && k in source.fields && k !in target.fields
    ensures CalledFor(source, target, Remove([k]))
  {
  }

  lemma {:induction false} AdditionsCalledFor(source: Json, target: Json, ks: seq<string>)
    requires source.Obj? && target.Obj? && Within(ks, target.fields)
    ensures AllCalledFor(source, target, Additions(source.fields, target.fields, ks))
  {
    hide CalledFor;
    if ks != [] {
      var k := ks[|ks| - 1];
      AdditionsCalledFor(source, target, ks[..|ks| - 1]);
      if k !in source.fields { AdditionCalledFor(source, target, k); }
    }
  }

  lemma AdditionCalledFor(source: Json, target: Json, k: string)
    requires source.Obj? && target.Obj? && k !in source.fields && k in target.fields
    ensures CalledFor(source, target, Add([k], target.fields[k]))
  {
  }

  // ---- the code: text paths, result accumulated in loops ----

  /** The patch entries for ops, addressed from ptr. */
  function Emitted(ptr: Pointer, ops: seq<Op>): seq<Json> {
    EncodeAll(AllUnder(ptr, ops))
  }

  lemma EmittedConcat(ptr: Pointer, a: seq<Op>, b: seq<Op>)
    ensures Emitted(ptr, a + b) == Emitted(ptr, a) + Emitted(ptr, b)
  {
  }

  lemma EmittedChild(ptr: Pointer, token: string, ops: seq<Op>)
    ensures Emitted(ptr, AllUnder([token], ops)) == Emitted(ptr + [token], ops)
  {
    hide Encode;
    forall i | 0 <= i < |ops| ensures Under(ptr, Under([token], ops[i])) == Under(ptr + [token], ops[i]) {
      UnderTwice(ptr, token, ops[i]);
    }
  }

  lemma UnderTwice(ptr: Pointer, token: string, op: Op)
    ensures Under(ptr, Under([token], op)) == Under(ptr + [token], op)
  {
    assert ptr + ([token] + op.path) == ptr + [token] + op.path;
    if op.Move? || op.Copy? { assert ptr + ([token] + op.from) == ptr + [token] + op.from; }
  }

  lemma ChildText(ptr: Pointer, token: string)
    ensures Text(ptr + [token]) == Text(ptr) + "/" + Escape(token)
  {
    assert (ptr + [token])[..|ptr|] == ptr;
  }

  /** Indices and "-" need no escaping. */
  lemma {:induction false} EscapePlain(s: string)
    requires '~' !in s && '/' !in s
    ensures Escape(s) == s
  {
    EscapeIsEach(s);
    PlainEach(s);
  }

  lemma {:induction false} PlainEach(s: string)
    requires '~' !in s && '/' !in s
    ensures EscapeEach(s) == s
  {
    if s != "" {
      PlainEach(s[1..]);
      assert s == [s[0]] + s[1..];
    }
  }

  lemma IndexText(ptr: Pointer, i: nat)
    ensures Text(ptr + [Decimal(i)]) == Text(ptr) + "/" + Decimal(i)
  {
    hide ReplaceAll;
    Digits.RenderReadsBack(i, 10);
    var ds := Digits.Render(i, 10);
    DigitCharsAreDigits(ds);
    assert forall c | c in DigitChars(ds) :: IsDigit(c);
    EscapePlain(Decimal(i));
    ChildText(ptr, Decimal(i));
  }

  lemma DashText(ptr: Pointer)
    ensures Text(ptr + ["-"]) == Text(ptr) + "/-"
  {
    EscapePlain("-");
    ChildText(ptr, "-");
  }

  lemma AtPath(ptr: Pointer)
    ensures ptr + [] == ptr
  {
  }

  lemma EqualEmitted(ptr: Pointer, source: Json, target: Json)
    requires Eq(source, target)
    ensures Emitted(ptr, Diff(source, target)) == []
  {
  }

  lemma WholeEmitted(ptr: Pointer, source: Json, target: Json)
    requires Unlike(source, target)
    ensures Emitted(ptr, Diff(source, target)) ==
            [Obj(map["op" := Str("replace"), "path" := Str(Text(ptr)), "value" := target])]
  {
    hide Text;
    AtPath(ptr);
  }

  /** diff(source, target, path). */
  method ComputeDiff(source: Json, target: Json, path: string, ghost ptr: Pointer) returns (result: seq<Json>)
    requires path == Text(ptr)
    ensures result == Emitted(ptr, Diff(source, target))
    decreases source
  {
    hide Text, Emitted, Diff, Eq;
    result := [];
    if Eq(source, target) {
      EqualEmitted(ptr, source, target);
      return;
    }
    if Kind(source) != Kind(target) {
      WholeEmitted(ptr, source, target);
      result := result + [Obj(map["op" := Str("replace"), "path" := Str(path), "value" := target])];
      return;
    }
    match source {
      case Arr(_) => result := DiffArrays(source, target, path, ptr);
      case Obj(_) => result := DiffObjects(source, target, path, ptr);
      case _ =>
        WholeEmitted(ptr, source, target);
        result := result + [Obj(map["op" := Str("replace"), "path" := Str(path), "value" := target])];
    }
  }

  method DiffArrays(source: Json, target: Json, path: string, ghost ptr: Pointer) returns (result: seq<Json>)
    requires source.Arr? && target.Arr? && !Eq(source, target) && path == Text(ptr)
    ensures result == Emitted(ptr, Diff(source, target))
    decreases source, 0
  {
    hide *;
    var xs, ys := source.items, target.items;
    result := [];
    var i := 0;
    NoArrayOps(ptr, source, target);
    while i < |xs| && i < |ys|
      invariant i <= |xs| && i <= |ys|
      invariant result == Emitted(ptr, ArrayDiff(source, target, i))
    {
      IndexText(ptr, i);
      ElementEmitted(ptr, source, target, i);
      var temp := ComputeDiff(xs[i], ys[i], path + "/" + Decimal(i), ptr + [Decimal(i)]);
      result := result + temp;
      i := i + 1;
    }
    var end := |result|;
    ghost var n, first := i, result;
    NoRemovals(ptr, n);
    while i < |xs|
      invariant n <= i <= |xs|
      invariant result == first + Emitted(ptr, Removals(n, i))
    {
      IndexText(ptr, i);
      RemovalEmitted(ptr, n, i);
      var entry := Obj(map["op" := Str("remove"), "path" := Str(path + "/" + Decimal(i))]);
      result := result[..end] + [entry] + result[end..];
      i := i + 1;
    }
    ghost var second := result;
    NoAppends(ptr, ys, |xs|);
    while i < |ys|
      invariant i == |xs| || |xs| <= i <= |ys|
      invariant result == second + if i <= |ys| then Emitted(ptr, Appends(ys[..i], |xs|)) else []
    {
      DashText(ptr);
      AppendEmitted(ptr, ys, |xs|, i);
      var entry := Obj(map["op" := Str("add"), "path" := Str(path + "/-"), "value" := ys[i]]);
      result := result + [entry];
      i := i + 1;
    }
    assert ys[..|ys|] == ys;
    ArraysEmitted(ptr, source, target);
  }

  lemma NoArrayOps(ptr: Pointer, source: Json, target: Json)
    requires source.Arr? && target.Arr?
    ensures Emitted(ptr, ArrayDiff(source, target, 0)) == []
  {
  }

  lemma NoRemovals(ptr: Pointer, n: nat)
    ensures Emitted(ptr, Removals(n, n)) == []
  {
  }

  lemma NoAppends(ptr: Pointer, ys: seq<Json>, n: nat)
    ensures n <= |ys| ==> Emitted(ptr, Appends(ys[..n], n)) == []
  {
  }

  lemma ElementEmitted(ptr: Pointer, source: Json, target: Json, i: nat)
    requires source.Arr? && target.Arr? && i < |source.items| && i < |target.items|
    ensures Emitted(ptr, ArrayDiff(source, target, i + 1)) ==
            Emitted(ptr, ArrayDiff(source, target, i))
            + Emitted(ptr + [Decimal(i)], Diff(source.items[i], target.items[i]))
  {
    hide Decimal, Diff, Emitted;
    var d := Diff(source.items[i], target.items[i]);
    EmittedChild(ptr, Decimal(i), d);
    EmittedConcat(ptr, ArrayDiff(source, target, i), AllUnder([Decimal(i)], d));
  }

  lemma RemovalEmitted(ptr: Pointer, n: nat, i: nat)
    requires n <= i
    ensures Emitted(ptr, Removals(n, i + 1)) ==
            [Obj(map["op" := Str("remove"), "path" := Str(Text(ptr + [Decimal(i)]))])] + Emitted(ptr, Removals(n, i))
  {
    hide Decimal, Text, Emitted;
    EmittedOne(ptr, Remove([Decimal(i)]));
    EmittedConcat(ptr, [Remove([Decimal(i)])], Removals(n, i));
  }

  lemma AppendEmitted(ptr: Pointer, ys: seq<Json>, n: nat, i: nat)
    requires n <= i < |ys|
    ensures Emitted(ptr, Appends(ys[..i + 1], n)) ==
            Emitted(ptr, Appends(ys[..i], n))
            + [Obj(map["op" := Str("add"), "path" := Str(Text(ptr + ["-"])), "value" := ys[i]])]
  {
    hide Text, Emitted;
    assert ys[..i + 1][..i] == ys[..i];
    EmittedOne(ptr, Add(["-"], ys[i]));
    EmittedConcat(ptr, Appends(ys[..i], n), [Add(["-"], ys[i])]);
  }

  lemma EmittedNone(ptr: Pointer)
    ensures Emitted(ptr, []) == []
  {
  }

  lemma EmittedOne(ptr: Pointer, op: Op)
    ensures Emitted(ptr, [op]) == [Encode(Under(ptr, op))]
  {
  }

  lemma ArraysEmitted(ptr: Pointer, source: Json, target: Json)
    requires source.Arr? && target.Arr? && !Eq(source, target)
    ensures var xs, ys := source.items, target.items;
            var n := if |xs| < |ys| then |xs| else |ys|;
            Emitted(ptr, Diff(source, target)) ==
            Emitted(ptr, ArrayDiff(source, target, n)) + Emitted(ptr, Removals(n, |xs|))
            + if |xs| <= |ys| then Emitted(ptr, Appends(ys, |xs|)) else []
  {
    hide Emitted;
    var xs, ys := source.items, target.items;
    var a, b, c := ArrayDiff(source, target, Min(|xs|, |ys|)), Removals(|ys|, |xs|), Appends(ys, |xs|);
    EmittedConcat(ptr, a, b);
    EmittedConcat(ptr, a + b, c);
    EmittedNone(ptr);
    assert Removals(Min(|xs|, |ys|), |xs|) == b;
    assert |xs| > |ys| ==> c == [];
  }

  method DiffObjects(source: Json, target: Json, path: string, ghost ptr: Pointer) returns (result: seq<Json>)
    requires source.Obj? && target.Obj? && !Eq(source, target) && path == Text(ptr)
    ensures result == Emitted(ptr, Diff(source, target))
    decreases source, 0
  {
    hide *;
    var m, t := source.fields, target.fields;
    result := [];
    var ks := KeysOf(m);
    NothingEmitted(ptr, source, target);
    for n := 0 to |ks|
      invariant Within(ks[..n], m)
      invariant result == Emitted(ptr, ObjectDiff(source, target, ks[..n]))
    {
      var k := ks[n];
      assert ks[..n + 1] == ks[..n] + [k];
      MemberEmitted(ptr, source, target, ks[..n], k);
      var pathKey := path + "/" + Escape(k);
      ChildText(ptr, k);
      if k in t {
        var temp := ComputeDiff(m[k], t[k], pathKey, ptr + [k]);
        result := result + temp;
      } else {
        result := result + [Obj(map["op" := Str("remove"), "path" := Str(pathKey)])];
      }
    }
    assert ks[..|ks|] == ks;
    ghost var first := result;
    var ts := KeysOf(t);
    for n := 0 to |ts|
      invariant Within(ts[..n], t)
      invariant result == first + Emitted(ptr, Additions(m, t, ts[..n]))
    {
      var k := ts[n];
      assert ts[..n + 1] == ts[..n] + [k];
      AdditionEmitted(ptr, m, t, ts[..n], k);
      if k !in m {
        var pathKey := path + "/" + Escape(k);
        ChildText(ptr, k);
        result := result + [Obj(map["op" := Str("add"), "path" := Str(pathKey), "value" := t[k]])];
      }
    }
    assert ts[..|ts|] == ts;
    ObjectsEmitted(ptr, source, target);
  }

  lemma NothingEmitted(ptr: Pointer, source: Json, target: Json)
    requires source.Obj? && target.Obj?
    ensures Within([], source.fields) && Emitted(ptr, ObjectDiff(source, target, [])) == []
    ensures Within([], target.fields) && Emitted(ptr, Additions(source.fields, target.fields, [])) == []
  {
  }

  lemma MemberEmitted(ptr: Pointer, source: Json, target: Json, most: seq<string>, k: string)
    requires source.Obj? && target.Obj? && Within(most, source.fields) && k in source.fields
    ensures Within(most + [k], source.fields)
    ensures Emitted(ptr, ObjectDiff(source, target, most + [k])) ==
            Emitted(ptr, ObjectDiff(source, target, most)) +
            if k in target.fields then Emitted(ptr + [k], Diff(source.fields[k], target.fields[k]))
            else [Obj(map["op" := Str("remove"), "path" := Str(Text(ptr + [k]))])]
  {
    hide Text, Diff, Emitted;
    assert (most + [k])[..|most|] == most;
    EmittedConcat(ptr, ObjectDiff(source, target, most), MemberDiff(source, target, k));
    if k in target.fields {
      EmittedChild(ptr, k, Diff(source.fields[k], target.fields[k]));
    } else {
      EmittedOne(ptr, Remove([k]));
    }
  }

  lemma AdditionEmitted(ptr: Pointer, source: map<string, Json>, target: map<string, Json>, most: seq<string>, k: string)
    requires Within(most, target) && k in target
    ensures Within(most + [k], target)
    ensures Emitted(ptr, Additions(source, target, most + [k])) ==
            Emitted(ptr, Additions(source, target, most)) +
            if k in source then []
            else [Obj(map["op" := Str("add"), "path" := Str(Text(ptr + [k])), "value" := target[k]])]
  {
    hide Text, Emitted;
    assert (most + [k])[..|most|] == most;
    EmittedConcat(ptr, Additions(source, target, most), Addition(source, target, k));
    if k in source {
      EmittedNone(ptr);
    } else {
      EmittedOne(ptr, Add([k], target[k]));
    }
  }

  lemma ObjectsEmitted(ptr: Pointer, source: Json, target: Json)
    requires source.Obj? && target.Obj? && !Eq(source, target)
    ensures Emitted(ptr, Diff(source, target)) ==
            Emitted(ptr, ObjectDiff(source, target, KeysOf(source.fields)))
            + Emitted(ptr, Additions(source.fields, target.fields, KeysOf(target.fields)))
  {
    hide Emitted;
    EmittedConcat(ptr, ObjectDiff(source, target, KeysOf(source.fields)),
                  Additions(source.fields, target.fields, KeysOf(target.fields)));
  }

  /** diff and patch_inplace together, as a caller runs them. */
  method DiffThenPatch(source: Json, target: Json) returns (error: Option<Error>, result: Json)
    requires Indexable(source)
    ensures error == None
    ensures Eq(result, target) <==> Comparable(target)
    ensures NumbersAgree(source, target) ==> result == target
  {
    var entries := ComputeDiff(source, target, "", []);
    assert AllUnder([], Diff(source, target)) == Diff(source, target) by { UnderNothing(Diff(source, target)); }
    DiffRoundTrip(source, target);
    if NumbersAgree(source, target) { DiffRoundTripExact(source, target); }
    var doc := new Document(source);
    error := doc.PatchInplace(Arr(entries));
    result := doc.root;
  }

  lemma UnderNothing(ops: seq<Op>)
    ensures AllUnder([], ops) == ops
  {
    forall i | 0 <= i < |ops| ensures Under([], ops[i]) == ops[i] {
      assert [] + ops[i].path == ops[i].path;
      if ops[i].Move? || ops[i].Copy? { assert [] + ops[i].from == ops[i].from; }
    }
  }
}
