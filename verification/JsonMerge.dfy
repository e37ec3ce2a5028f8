/** merge_patch, and RFC 7396. */
module JsonMerge {
  import opened Wrappers
  import opened JsonValue

  function Members(j: Json): map<string, Json> {
    if j.Obj? then j.fields else map[]
  }

  function MemberOrNull(m: map<string, Json>, k: string): Json {
    if k in m then m[k] else Null
  }

  /** The merged value in closed form: a member is gone if the patch has null there, patched if the patch names
      it, and kept otherwise. */
  function Merge(target: Json, patch: Json): Json
    decreases patch
  {
    if !patch.Obj? then patch else
      var t, p := Members(target), patch.fields;
      Obj(map k | k in t.Keys + p.Keys && !(k in p && p[k].Null?) ::
        if k in p then Merge(MemberOrNull(t, k), p[k]) else t[k])
  }

  /** MergePatch as section 2 of RFC 7396 writes it, the members taken in the order ks; an undefined target
      member is None. */
  function RfcMergePatch(target: Option<Json>, patch: Json): Json
    decreases patch, 1, 0
  {
    if !patch.Obj? then patch else
      var start := if target.Some? && target.value.Obj? then target.value.fields else map[];
      Obj(RfcMembers(start, patch, SortedKeys(patch.fields.Keys)))
  }

  function RfcMembers(target: map<string, Json>, patch: Json, ks: seq<string>): map<string, Json>
    requires patch.Obj? && forall i | 0 <= i < |ks| :: ks[i] in patch.fields
    decreases patch, 0, |ks|
  {
    if ks == [] then target else
      var name, value := ks[0], patch.fields[ks[0]];
      var next :=
        if value.Null? then target - {name}
        else target[name := RfcMergePatch(if name in target then Some(target[name]) else None, value)];
      RfcMembers(next, patch, ks[1..])
  }

  /** r is t with exactly the members ks of the patch p applied. */
  predicate MergedOver(t: map<string, Json>, p: map<string, Json>, ks: seq<string>, r: map<string, Json>)
    requires forall k | k in ks :: k in p
  {
    && (forall k | k in r.Keys + t.Keys + p.Keys :: k in r <==> if k in ks then !p[k].Null? else k in t)
    && (forall k | k in r.Keys :: if k in ks then r[k] == Merge(MemberOrNull(t, k), p[k]) else k in t && r[k] == t[k])
  }

  lemma MergedOverStep(t: map<string, Json>, p: map<string, Json>, ks: seq<string>, r: map<string, Json>, k: string)
    requires forall j | j in ks :: j in p
    requires MergedOver(t, p, ks, r) && k in p && k !in ks
    ensures MemberOrNull(r, k) == MemberOrNull(t, k)
    ensures p[k].Null? ==> MergedOver(t, p, ks + [k], r - {k})
    ensures !p[k].Null? ==> MergedOver(t, p, ks + [k], r[k := Merge(MemberOrNull(t, k), p[k])])
  {
    hide Merge;
    assert k in r <==> k in t;
  }

  lemma NoneMerged(t: map<string, Json>, p: map<string, Json>)
    ensures MergedOver(t, p, [], t)
  {
  }

  lemma MergedOverAll(target: Json, patch: Json, ks: seq<string>, r: map<string, Json>)
    requires patch.Obj? && (forall k :: k in ks <==> k in patch.fields)
    requires MergedOver(Members(target), patch.fields, ks, r)
    ensures Obj(r) == Merge(target, patch)
  {
    assert r == Merge(target, patch).fields;
  }

  lemma {:induction false} MergeIsRfc(target: Option<Json>, patch: Json)
    ensures RfcMergePatch(target, patch) == Merge(if target.Some? then target.value else Null, patch)
    decreases patch, 1, 0
  {
    hide *;
    if patch.Obj? {
      var t := if target.Some? then target.value else Null;
      var ks := SortedKeys(patch.fields.Keys);
      NoneMerged(Members(t), patch.fields);
      MembersAreRfc(Members(t), Members(t), patch, [], ks);
      assert [] + ks == ks;
      MergedOverAll(t, patch, ks, RfcMembers(Members(t), patch, ks));
      RfcOfObject(target, patch);
    } else {
      NotObject(target, patch);
    }
  }

  lemma RfcOfObject(target: Option<Json>, patch: Json)
    requires patch.Obj?
    ensures RfcMergePatch(target, patch) ==
            Obj(RfcMembers(Members(if target.Some? then target.value else Null), patch, SortedKeys(patch.fields.Keys)))
  {
  }

  lemma NotObject(target: Option<Json>, patch: Json)
    requires !patch.Obj?
    ensures RfcMergePatch(target, patch) == patch
    ensures forall t :: Merge(t, patch) == patch
  {
  }

  /** In whatever order the members come, as long as none comes twice. */
  lemma {:induction false} MembersAreRfc(t: map<string, Json>, now: map<string, Json>, patch: Json, before: seq<string>, ks: seq<string>)
    requires patch.Obj? && (forall k | k in before :: k in patch.fields)
    requires forall i | 0 <= i < |ks| :: ks[i] in patch.fields && ks[i] !in before
    requires forall i, j | 0 <= i < j < |ks| :: ks[i] != ks[j]
    requires MergedOver(t, patch.fields, before, now)
    ensures MergedOver(t, patch.fields, before + ks, RfcMembers(now, patch, ks))
    decreases patch, 0, |ks|
  {
    hide Merge, RfcMergePatch, MergedOver;
    if ks == [] {
      assert before + [] == before;
    } else {
      var name, value := ks[0], patch.fields[ks[0]];
      MergeIsRfc(if name in now then Some(now[name]) else None, value);
      MergedOverStep(t, patch.fields, before, now, name);
      var next :=
        if value.Null? then now - {name}
        else now[name := RfcMergePatch(if name in now then Some(now[name]) else None, value)];
      MembersAreRfc(t, next, patch, before + [name], ks[1..]);
      assert before + [name] + ks[1..] == before + ks;
    }
  }

  /** Applying the same merge patch twice is applying it once. */
  lemma {:induction false} MergeIdempotent(target: Json, patch: Json)
    ensures Merge(Merge(target, patch), patch) == Merge(target, patch)
    decreases patch
  {
    if patch.Obj? {
      var t := Members(target);
      forall k | k in patch.fields
        ensures Merge(Merge(MemberOrNull(t, k), patch.fields[k]), patch.fields[k]) == Merge(MemberOrNull(t, k), patch.fields[k])
      {
        MergeIdempotent(MemberOrNull(t, k), patch.fields[k]);
      }
    }
  }

  /** No object member, at any depth outside arrays, is null. */
  predicate NoNullMembers(j: Json) {
    j.Obj? ==> forall k | k in j.fields.Keys :: !j.fields[k].Null? && NoNullMembers(j.fields[k])
  }

  /** Merging into anything but an object reproduces the patch exactly when the patch asks for no deletion. */
  lemma {:induction false} MergeReproducesIff(target: Json, patch: Json)
    requires !target.Obj?
    ensures Merge(target, patch) == patch <==> NoNullMembers(patch)
    decreases patch
  {
    if patch.Obj? {
      var p := patch.fields;
      forall k | k in p.Keys ensures Merge(Null, p[k]) == p[k] <==> NoNullMembers(p[k]) {
        MergeReproducesIff(Null, p[k]);
      }
      var merged := Merge(target, patch).fields;
      if NoNullMembers(patch) {
        assert merged == p;
      } else {
        var k :| k in p.Keys && (p[k].Null? || !NoNullMembers(p[k]));
        assert k in merged ==> merged[k] == Merge(Null, p[k]);
      }
    }
  }

  /** A merge never leaves a null where the patch reached: the result has none if the target had none. */
  lemma {:induction false} MergeKeepsNoNulls(target: Json, patch: Json)
    requires NoNullMembers(target)
    ensures NoNullMembers(Merge(target, patch))
    decreases patch
  {
    if patch.Obj? {
      var t, p := Members(target), patch.fields;
      forall k | k in p ensures NoNullMembers(Merge(MemberOrNull(t, k), p[k])) {
        MergeKeepsNoNulls(MemberOrNull(t, k), p[k]);
      }
    }
  }

  /** Examples of RFC 7396, appendix A: members that the patch does not name stay, null deletes, a target that is no
      object counts as an empty one, and no null is stored at any depth. */
  lemma RfcExamples()
    ensures Merge(Obj(map["a" := Str("b"), "b" := Str("c")]), Obj(map["a" := Null])) == Obj(map["b" := Str("c")])
    ensures Merge(Obj(map["e" := Null]), Obj(map["a" := Int(1)])) == Obj(map["e" := Null, "a" := Int(1)])
    ensures Merge(Arr([Int(1), Int(2)]), Obj(map["a" := Str("b"), "c" := Null])) == Obj(map["a" := Str("b")])
    ensures Merge(Obj(map[]), Obj(map["a" := Obj(map["bb" := Obj(map["ccc" := Null])])])) ==
            Obj(map["a" := Obj(map["bb" := Obj(map[])])])
  {
    hide Merge;
    DeletesOne(Str("b"), Str("c"));
    AddsOne(Null, Int(1));
    ReplacesArray([Int(1), Int(2)], Str("b"));
    DeletesNothing(map[]);
    NullAsEmpty(Obj(map["ccc" := Null]));
    WrapsOne(map[], "bb", Obj(map["ccc" := Null]), Obj(map[]));
    NullAsEmpty(Obj(map["bb" := Obj(map["ccc" := Null])]));
    WrapsOne(map[], "a", Obj(map["bb" := Obj(map["ccc" := Null])]), Obj(map["bb" := Obj(map[])]));
  }

  lemma DeletesOne(x: Json, y: Json)
    ensures Merge(Obj(map["a" := x, "b" := y]), Obj(map["a" := Null])) == Obj(map["b" := y])
  {
    assert Merge(Obj(map["a" := x, "b" := y]), Obj(map["a" := Null])).fields == map["b" := y];
  }

  lemma AddsOne(x: Json, y: Json)
    requires !y.Obj? && !y.Null?
    ensures Merge(Obj(map["e" := x]), Obj(map["a" := y])) == Obj(map["e" := x, "a" := y])
  {
    assert Merge(Obj(map["e" := x]), Obj(map["a" := y])).fields == map["e" := x, "a" := y];
  }

  lemma ReplacesArray(xs: seq<Json>, y: Json)
    requires !y.Obj? && !y.Null?
    ensures Merge(Arr(xs), Obj(map["a" := y, "c" := Null])) == Obj(map["a" := y])
  {
    assert Merge(Arr(xs), Obj(map["a" := y, "c" := Null])).fields == map["a" := y];
  }

  lemma DeletesNothing(t: map<string, Json>)
    requires "ccc" !in t
    ensures Merge(Obj(t), Obj(map["ccc" := Null])) == Obj(t)
  {
    assert Merge(Obj(t), Obj(map["ccc" := Null])).fields == t;
  }

  lemma WrapsOne(t: map<string, Json>, k: string, p: Json, r: Json)
    requires t == map[] && p.Obj? && Merge(Null, p) == r
    ensures Merge(Obj(t), Obj(map[k := p])) == Obj(map[k := r])
  {
    assert Merge(Obj(t), Obj(map[k := p])).fields == map[k := r];
  }

  lemma NullAsEmpty(p: Json)
    requires p.Obj?
    ensures Merge(Null, p) == Merge(Obj(map[]), p)
  {
  }

  // ---- the code: members handled one after another, in the map's order ----

  method MergePatch(doc: Json, patch: Json) returns (merged: Json)
    ensures merged == Merge(doc, patch)
    ensures merged == RfcMergePatch(Some(doc), patch)
    decreases patch
  {
    hide Merge, RfcMergePatch, MergedOver, SortedKeys;
    MergeIsRfc(Some(doc), patch);
    if patch.Obj? {
      merged := doc;
      if !merged.Obj? {
        merged := Obj(map[]);
      }
      var p := patch.fields;
      var ks := SortedKeys(p.Keys);
      NoneMerged(Members(doc), p);
      for n := 0 to |ks|
        invariant merged.Obj?
        invariant forall k | k in ks[..n] :: k in p
        invariant MergedOver(Members(doc), p, ks[..n], merged.fields)
      {
        var key := ks[n];
        assert ks[..n + 1] == ks[..n] + [key] && key !in ks[..n];
        MergedOverStep(Members(doc), p, ks[..n], merged.fields, key);
        if p[key].Null? {
          merged := Obj(merged.fields - {key});
        } else {
          var member := MergePatch(MemberOrNull(merged.fields, key), p[key]);
          merged := Obj(merged.fields[key := member]);
        }
      }
      assert ks[..|ks|] == ks;
      MergedOverAll(doc, patch, ks, merged.fields);
    } else {
      NotObject(Some(doc), patch);
      merged := patch;
    }
  }
}
