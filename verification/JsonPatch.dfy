/** JSON Patch: the six operations, a patch document, and applying one in place. */
module JsonPatch {
  import opened Wrappers
  import opened JsonValue
  import opened JsonPointer

  datatype Op =
    | Add(path: Pointer, value: Json)
    | Remove(path: Pointer)
    | Replace(path: Pointer, value: Json)
    | Move(from: Pointer, path: Pointer)
    | Copy(from: Pointer, path: Pointer)
    | Test(path: Pointer, value: Json)

  /** The document afterwards, and the exception that ended the patch, if any. */
  datatype Outcome = Outcome(doc: Json, error: Option<Error>)

  // ---- single operations ----

  /** operation_add, once the parent is known. Below a primitive parent there is only an assertion, which the
      default build (RelWithDebInfo, with NDEBUG) leaves out: nothing is added and nothing is reported. */
  function AddInto(parent: Json, last: string, v: Json): Result<Json, Error> {
    match parent
    case Null => Success(Obj(map[last := v]))
    case Obj(m) => Success(Obj(m[last := v]))
    case Arr(xs) =>
      if last == "-" then Success(Arr(xs + [v])) else
        var idx :- ArrayIndex(last);
        if idx > |xs| then Failure(OutOfRange(401)) else Success(Arr(xs[..idx] + [v] + xs[idx..]))
    case _ => Success(parent)
  }

  /** operation_remove, once the parent is known. A primitive parent is left as it is. */
  function RemoveFrom(parent: Json, last: string): Result<Json, Error> {
    match parent
    case Obj(m) => if last in m then Success(Obj(m - {last})) else Failure(OutOfRange(403))
    case Arr(xs) =>
      var idx :- ArrayIndex(last);
      if idx >= |xs| then Failure(OutOfRange(401)) else Success(Arr(xs[..idx] + xs[idx + 1..]))
    case _ => Success(parent)
  }

  function Stored(doc: Json, ptr: Pointer, r: Result<Json, Error>): Outcome
    requires At(doc, ptr).Success?
  {
    match r
    case Failure(e) => Outcome(doc, Some(e))
    case Success(v) => Outcome(Put(doc, ptr, v), None)
  }

  function Parent(ptr: Pointer): Pointer
    requires ptr != []
  {
    ptr[..|ptr| - 1]
  }

  function Last(ptr: Pointer): string
    requires ptr != []
  {
    ptr[|ptr| - 1]
  }

  function AddBelowParent(doc: Json, ptr: Pointer, v: Json): Outcome
    requires ptr != []
  {
    match At(doc, Parent(ptr))
    case Failure(e) => Outcome(doc, Some(e))
    case Success(parent) => Stored(doc, Parent(ptr), AddInto(parent, Last(ptr), v))
  }

  function OpAdd(doc: Json, ptr: Pointer, v: Json): Outcome {
    if ptr == [] then Outcome(v, None)
    else if |ptr| > 1 && At(doc, ptr[..1]).Failure? then Outcome(doc, Some(At(doc, ptr[..1]).error))
    else AddBelowParent(doc, ptr, v)
  }

  function OpRemove(doc: Json, ptr: Pointer): Outcome {
    if ptr == [] then Outcome(doc, Some(OutOfRange(405)))
    else match At(doc, Parent(ptr))
      case Failure(e) => Outcome(doc, Some(e))
      case Success(parent) => Stored(doc, Parent(ptr), RemoveFrom(parent, Last(ptr)))
  }

  function OpReplace(doc: Json, ptr: Pointer, v: Json): Outcome {
    match At(doc, ptr)
    case Failure(e) => Outcome(doc, Some(e))
    case Success(_) => Outcome(Put(doc, ptr, v), None)
  }

  /** Out-of-range errors of at() are caught and count as a failed comparison; parse errors escape. */
  function OpTest(doc: Json, ptr: Pointer, v: Json): Outcome {
    match At(doc, ptr)
    case Failure(e) => Outcome(doc, Some(if e.OutOfRange? then OtherError(501) else e))
    case Success(w) => Outcome(doc, if Eq(w, v) then None else Some(OtherError(501)))
  }

  function ApplyOp(doc: Json, op: Op): Outcome {
    match op
    case Add(p, v) => OpAdd(doc, p, v)
    case Remove(p) => OpRemove(doc, p)
    case Replace(p, v) => OpReplace(doc, p, v)
    case Test(p, v) => OpTest(doc, p, v)
    case Copy(from, p) =>
      (match At(doc, from)
       case Failure(e) => Outcome(doc, Some(e))
       case Success(v) => OpAdd(doc, p, v))
    case Move(from, p) =>
      (match At(doc, from)
       case Failure(e) => Outcome(doc, Some(e))
       case Success(v) =>
         var removed := OpRemove(doc, from);
         if removed.error.Some? then removed else OpAdd(removed.doc, p, v))
  }

  function ApplyOps(doc: Json, ops: seq<Op>): Outcome
    decreases |ops|
  {
    if ops == [] then Outcome(doc, None) else
      var r := ApplyOp(doc, ops[0]);
      if r.error.Some? then r else ApplyOps(r.doc, ops[1..])
  }

  lemma {:induction false} ApplyOpsConcat(doc: Json, a: seq<Op>, b: seq<Op>)
    ensures ApplyOps(doc, a + b) ==
            if ApplyOps(doc, a).error.Some? then ApplyOps(doc, a) else ApplyOps(ApplyOps(doc, a).doc, b)
    decreases |a|
  {
    if a == [] {
      assert a + b == b;
    } else {
      assert (a + b)[1..] == a[1..] + b;
      ApplyOpsConcat(ApplyOp(doc, a[0]).doc, a[1..], b);
    }
  }

  lemma ApplyInTurn(doc: Json, a: seq<Op>, mid: Json, b: seq<Op>, end: Json)
    requires ApplyOps(doc, a) == Outcome(mid, None) && ApplyOps(mid, b) == Outcome(end, None)
    ensures ApplyOps(doc, a + b) == Outcome(end, None)
  {
    ApplyOpsConcat(doc, a, b);
  }

  // ---- where a failing patch stops ----

  /** Removing an existing value below the root succeeds and changes the document. */
  lemma RemoveChanges(doc: Json, ptr: Pointer)
    requires ptr != [] && At(doc, ptr).Success?
    ensures OpRemove(doc, ptr).error.None? && OpRemove(doc, ptr).doc != doc
  {
    hide Put, ArrayIndex, Child;
    var pp, last := Parent(ptr), Last(ptr);
    assert ptr == pp + [last];
    AtConcat(doc, pp, [last]);
    var parent := At(doc, pp).value;
    assert At(parent, [last]).Success? <==> Child(parent, last).Success?;
    RemovedIsSmaller(parent, last);
    AtPut(doc, pp, RemoveFrom(parent, last).value);
  }

  lemma RemovedIsSmaller(parent: Json, last: string)
    requires Child(parent, last).Success?
    ensures RemoveFrom(parent, last).Success? && RemoveFrom(parent, last).value != parent
  {
    hide ArrayIndex;
    if parent.Obj? {
      assert last !in parent.fields - {last};
    } else {
      assert |RemoveFrom(parent, last).value.items| == |parent.items| - 1;
    }
  }

  /** An operation that fails although it has already taken a value away. */
  predicate TakesAway(doc: Json, op: Op) {
    op.Move? && op.from != [] && At(doc, op.from).Success?
  }

  /** A failing operation changes the document if and only if it is a move whose source exists below the root;
      what it leaves is the document without the source. */
  lemma FailedOpChangesIff(doc: Json, op: Op)
    requires ApplyOp(doc, op).error.Some?
    ensures ApplyOp(doc, op).doc == if TakesAway(doc, op) then OpRemove(doc, op.from).doc else doc
    ensures ApplyOp(doc, op).doc != doc <==> TakesAway(doc, op)
  {
    hide At, Put, AddInto, RemoveFrom, Eq;
    if TakesAway(doc, op) { RemoveChanges(doc, op.from); }
  }

  /** patch_inplace is not atomic: on an exception the document keeps what the operations before the failing one
      did, and a failing move has already taken its value away. */
  lemma {:induction false} FailingPatchStopsAt(doc: Json, ops: seq<Op>) returns (k: nat)
    requires ApplyOps(doc, ops).error.Some?
    ensures k < |ops| && ApplyOps(doc, ops[..k]).error.None?
    ensures ApplyOp(ApplyOps(doc, ops[..k]).doc, ops[k]) == ApplyOps(doc, ops)
    ensures var reached := ApplyOps(doc, ops[..k]).doc;
            ApplyOps(doc, ops).doc == if TakesAway(reached, ops[k]) then OpRemove(reached, ops[k].from).doc else reached
    decreases |ops|
  {
    hide ApplyOp, OpRemove, TakesAway;
    var r := ApplyOp(doc, ops[0]);
    if r.error.Some? {
      k := 0;
    } else {
      var j := FailingPatchStopsAt(r.doc, ops[1..]);
      k := j + 1;
      assert ops[..k][1..] == ops[1..][..j];
      assert ops[k] == ops[1..][j];
    }
    FailedOpChangesIff(ApplyOps(doc, ops[..k]).doc, ops[k]);
  }

  lemma FailingPatchChanges()
    ensures var doc := Obj(map["a" := Null]);
            var r := ApplyOps(doc, [Remove(["a"]), Remove(["a"])]);
            r == Outcome(Obj(map[]), Some(OutOfRange(403))) && r.doc != doc
  {
    var doc, op := Obj(map["a" := Null]), Remove(["a"]);
    assert ["a"][..0] == [];
    assert ApplyOp(doc, op) == Outcome(Obj(map[]), None) by { assert doc.fields - {"a"} == map[]; }
    assert ApplyOp(Obj(map[]), op).error == Some(OutOfRange(403));
    assert [op, op][1..] == [op];
    assert ApplyOps(Obj(map[]), [op]) == ApplyOp(Obj(map[]), op);
  }

  /** Every operation before the last is a test. */
  predicate TestsFirst(ops: seq<Op>) {
    forall i | 0 <= i < |ops| - 1 :: ops[i].Test?
  }

  lemma TestKeepsDocument(doc: Json, op: Op)
    requires op.Test?
    ensures ApplyOp(doc, op).doc == doc
  {
    hide At, Eq;
  }

  /** A failing patch whose operations before the last are tests changes the document if and only if all these
      tests pass and the last operation is a move whose source exists below the root. */
  lemma {:induction false} TestsFirstChangesIff(doc: Json, ops: seq<Op>)
    requires TestsFirst(ops) && ApplyOps(doc, ops).error.Some?
    ensures ApplyOps(doc, ops).doc != doc <==>
            ApplyOps(doc, ops[..|ops| - 1]).error.None? && TakesAway(doc, ops[|ops| - 1])
    decreases |ops|
  {
    hide ApplyOp, TakesAway;
    assert ops != [];
    var op := ops[0];
    if |ops| == 1 {
      FailedOpChangesIff(doc, op);
    } else {
      TestKeepsDocument(doc, op);
      assert |ops| >= 2;
      assert ops[..|ops| - 1][1..] == ops[1..][..|ops[1..]| - 1];
      if ApplyOp(doc, op).error.None? { TestsFirstChangesIff(doc, ops[1..]); }
    }
  }

  /** A test belongs at the front: if it fails after operations that changed the document, the change stays. */
  lemma LateTestKeepsChange(doc: Json, ops: seq<Op>, test: Op)
    requires test.Test? && ApplyOps(doc, ops).error.None? && ApplyOps(doc, ops + [test]).error.Some?
    ensures ApplyOps(doc, ops + [test]).doc == doc <==> ApplyOps(doc, ops).doc == doc
  {
    var reached := ApplyOps(doc, ops).doc;
    ApplyOpsConcat(doc, ops, [test]);
    TestKeepsDocument(reached, test);
    assert [test][1..] == [];
  }

  /** Tests in front are not necessary: a patch that ends in an add at the root fails only in its first
      operation, and then without a trace. */
  lemma RootAddNeverFails(doc: Json, first: Op, v: Json)
    requires ApplyOps(doc, [first, Add([], v)]).error.Some?
    ensures ApplyOps(doc, [first, Add([], v)]).doc == doc <==> !TakesAway(doc, first)
  {
    hide TakesAway, OpRemove;
    var last := Add([], v);
    assert [first, last][1..] == [last] && [last][1..] == [];
    assert ApplyOps(ApplyOp(doc, first).doc, [last]) == Outcome(v, None);
    FailedOpChangesIff(doc, first);
  }

  // ---- locality ----

  /** Checking that the top-level element exists adds nothing to checking the parent. */
  lemma TopCheckRedundant(doc: Json, ptr: Pointer, v: Json)
    requires ptr != []
    ensures OpAdd(doc, ptr, v) == AddBelowParent(doc, ptr, v)
  {
    if |ptr| > 1 {
      assert Parent(ptr) == ptr[..1] + ptr[1..|ptr| - 1];
      AtConcat(doc, ptr[..1], ptr[1..|ptr| - 1]);
    }
  }

  /** Operations that stay inside the value they are applied to: adding, removing or moving at the root
      of that value is something its parent does. */
  predicate Inside(op: Op) {
    match op
    case Add(p, _) => p != []
    case Remove(p) => p != []
    case Move(from, p) => from != [] && p != []
    case Copy(_, p) => p != []
    case _ => true
  }

  function Under(base: Pointer, op: Op): Op {
    match op
    case Add(p, v) => Add(base + p, v)
    case Remove(p) => Remove(base + p)
    case Replace(p, v) => Replace(base + p, v)
    case Move(from, p) => Move(base + from, base + p)
    case Copy(from, p) => Copy(base + from, base + p)
    case Test(p, v) => Test(base + p, v)
  }

  predicate AllInside(ops: seq<Op>) {
    forall i | 0 <= i < |ops| :: Inside(ops[i])
  }

  function AllUnder(base: Pointer, ops: seq<Op>): (r: seq<Op>)
    ensures |r| == |ops|
    ensures forall i | 0 <= i < |ops| :: r[i] == Under(base, ops[i])
  {
    seq(|ops|, i requires 0 <= i < |ops| => Under(base, ops[i]))
  }

  function Placed(doc: Json, base: Pointer, r: Outcome): Outcome
    requires At(doc, base).Success?
  {
    Outcome(Put(doc, base, r.doc), r.error)
  }

  lemma ConcatParent(base: Pointer, p: Pointer)
    requires p != []
    ensures Parent(base + p) == base + Parent(p) && Last(base + p) == Last(p)
  {
  }

  lemma StoredUnder(doc: Json, base: Pointer, p: Pointer, r: Result<Json, Error>)
    requires At(doc, base).Success? && At(At(doc, base).value, p).Success?
    ensures At(doc, base + p).Success?
    ensures Stored(doc, base + p, r) == Placed(doc, base, Stored(At(doc, base).value, p, r))
  {
    AtConcat(doc, base, p);
    match r
    case Failure(e) => PutSame(doc, base);
    case Success(v) => PutConcat(doc, base, p, v);
  }

  lemma AddUnder(doc: Json, base: Pointer, p: Pointer, v: Json)
    requires At(doc, base).Success? && p != []
    ensures OpAdd(doc, base + p, v) == Placed(doc, base, OpAdd(At(doc, base).value, p, v))
  {
    var sub := At(doc, base).value;
    ConcatParent(base, p);
    TopCheckRedundant(doc, base + p, v);
    TopCheckRedundant(sub, p, v);
    AtConcat(doc, base, Parent(p));
    if At(sub, Parent(p)).Success? {
      StoredUnder(doc, base, Parent(p), AddInto(At(sub, Parent(p)).value, Last(p), v));
    } else {
      PutSame(doc, base);
    }
  }

  lemma RemoveUnder(doc: Json, base: Pointer, p: Pointer)
    requires At(doc, base).Success? && p != []
    ensures OpRemove(doc, base + p) == Placed(doc, base, OpRemove(At(doc, base).value, p))
  {
    var sub := At(doc, base).value;
    ConcatParent(base, p);
    AtConcat(doc, base, Parent(p));
    if At(sub, Parent(p)).Success? {
      StoredUnder(doc, base, Parent(p), RemoveFrom(At(sub, Parent(p)).value, Last(p)));
    } else {
      PutSame(doc, base);
    }
  }

  lemma OpUnder(doc: Json, base: Pointer, op: Op)
    requires At(doc, base).Success? && Inside(op)
    ensures ApplyOp(doc, Under(base, op)) == Placed(doc, base, ApplyOp(At(doc, base).value, op))
  {
    var sub := At(doc, base).value;
    PutSame(doc, base);
    match op
    case Add(p, v) => AddUnder(doc, base, p, v);
    case Remove(p) => RemoveUnder(doc, base, p);
    case Replace(p, v) =>
      AtConcat(doc, base, p);
      if At(sub, p).Success? { PutConcat(doc, base, p, v); }
    case Test(p, v) => AtConcat(doc, base, p);
    case Copy(from, p) =>
      AtConcat(doc, base, from);
      if At(sub, from).Success? { AddUnder(doc, base, p, At(sub, from).value); }
    case Move(from, p) => MoveUnder(doc, base, from, p);
  }

  lemma MoveUnder(doc: Json, base: Pointer, from: Pointer, p: Pointer)
    requires At(doc, base).Success? && from != [] && p != []
    ensures ApplyOp(doc, Move(base + from, base + p)) == Placed(doc, base, ApplyOp(At(doc, base).value, Move(from, p)))
  {
    var sub := At(doc, base).value;
    PutSame(doc, base);
    AtConcat(doc, base, from);
    RemoveUnder(doc, base, from);
    var removed := OpRemove(sub, from);
    if At(sub, from).Success? && removed.error.None? {
      var v := At(sub, from).value;
      AtPut(doc, base, removed.doc);
      AddUnder(Put(doc, base, removed.doc), base, p, v);
      PutPut(doc, base, removed.doc, OpAdd(removed.doc, p, v).doc);
    }
  }

  /** Locality: a patch whose pointers all extend base acts on the document exactly as the shortened patch
      acts on the value at base, errors included, and the rest of the document stays as it was. */
  lemma {:induction false} Locality(doc: Json, base: Pointer, ops: seq<Op>)
    requires At(doc, base).Success?
    requires AllInside(ops)
    ensures ApplyOps(doc, AllUnder(base, ops)) == Placed(doc, base, ApplyOps(At(doc, base).value, ops))
    ensures forall q | Apart(base, q) :: At(ApplyOps(doc, AllUnder(base, ops)).doc, q) == At(doc, q)
    decreases |ops|
  {
    LocalityHere(doc, base, ops);
    forall q | Apart(base, q) ensures At(ApplyOps(doc, AllUnder(base, ops)).doc, q) == At(doc, q) {
      AtPutApart(doc, base, q, ApplyOps(At(doc, base).value, ops).doc);
    }
  }

  lemma UnderStaysInside(base: Pointer, ops: seq<Op>)
    requires base != []
    ensures AllInside(AllUnder(base, ops))
  {
  }

  lemma {:induction false} LocalityHere(doc: Json, base: Pointer, ops: seq<Op>)
    requires At(doc, base).Success?
    requires AllInside(ops)
    ensures ApplyOps(doc, AllUnder(base, ops)) == Placed(doc, base, ApplyOps(At(doc, base).value, ops))
    decreases |ops|
  {
    var sub := At(doc, base).value;
    if ops == [] {
      PutSame(doc, base);
    } else {
      OpUnder(doc, base, ops[0]);
      var r := ApplyOp(sub, ops[0]);
      assert AllUnder(base, ops)[1..] == AllUnder(base, ops[1..]);
      if r.error.None? {
        AtPut(doc, base, r.doc);
        LocalityHere(Put(doc, base, r.doc), base, ops[1..]);
        PutPut(doc, base, r.doc, ApplyOps(r.doc, ops[1..]).doc);
      }
    }
  }

  /** The operation that Locality leaves out: an add at the very base replaces the value there, as adding at
      a root does, exactly when the base's parent is not an array (there it inserts a further element). */
  lemma RootAddIsLocalUnlessArray(doc: Json, base: Pointer, v: Json)
    requires base != [] && At(doc, base).Success?
    ensures At(doc, Parent(base)).Success?
    ensures ApplyOp(doc, Under(base, Add([], v))) == Placed(doc, base, ApplyOp(At(doc, base).value, Add([], v)))
       <==> !At(doc, Parent(base)).value.Arr?
  {
    var pp, last := Parent(base), Last(base);
    assert base == pp + [last] && base + [] == base;
    AtConcat(doc, pp, [last]);
    var parent := At(doc, pp).value;
    assert Child(parent, last).Success?;
    PutConcat(doc, pp, [last], v);
    assert Put(parent, [last], v) == SetChild(parent, last, v);
    TopCheckRedundant(doc, base, v);
    AddOverChild(parent, last, v);
    AtPut(doc, pp, AddInto(parent, last, v).value);
    AtPut(doc, pp, SetChild(parent, last, v));
  }

  lemma AddOverChild(parent: Json, last: string, v: Json)
    requires Child(parent, last).Success?
    ensures AddInto(parent, last, v).Success?
    ensures AddInto(parent, last, v).value == SetChild(parent, last, v) <==> !parent.Arr?
  {
    if parent.Arr? {
      assert |AddInto(parent, last, v).value.items| == |SetChild(parent, last, v).items| + 1;
    }
  }

  // ---- add and remove undo each other ----

  /** A place where add creates something new under its own name, or, below a primitive value, nothing at all. */
  predicate FreshPlace(parent: Json, last: string) {
    match parent
    case Null => false
    case Obj(m) => last !in m
    case Arr(_) => last != "-"
    case _ => true
  }

  /** Removing what was just added restores the document exactly when the place was fresh: not when add
      overwrote a member, turned null into an object, or appended through "-". */
  lemma RemoveUndoesAdd(doc: Json, ptr: Pointer, v: Json)
    requires ptr != [] && OpAdd(doc, ptr, v).error.None?
    ensures OpRemove(OpAdd(doc, ptr, v).doc, ptr) == Outcome(doc, None)
       <==> FreshPlace(At(doc, Parent(ptr)).value, Last(ptr))
  {
    var pp, last := Parent(ptr), Last(ptr);
    TopCheckRedundant(doc, ptr, v);
    var parent := At(doc, pp).value;
    var added := AddInto(parent, last, v).value;
    AtPut(doc, pp, added);
    UndoInParent(parent, last, v);
    var back := RemoveFrom(added, last);
    if back.Success? {
      PutPut(doc, pp, added, back.value);
      PutSame(doc, pp);
      AtPut(doc, pp, back.value);
    }
  }

  lemma UndoInParent(parent: Json, last: string, v: Json)
    requires AddInto(parent, last, v).Success?
    ensures RemoveFrom(AddInto(parent, last, v).value, last) == Success(parent) <==> FreshPlace(parent, last)
  {
    match parent
    case Obj(m) =>
      if last !in m { assert m[last := v] - {last} == m; } else { assert last !in (m[last := v] - {last}); }
    case Arr(xs) =>
      hide ArrayIndex;
      if last == "-" {
        DashIsNoIndex();
      } else {
        var idx := ArrayIndex(last).value;
        InsertThenErase(xs, idx, v);
      }
    case _ =>
  }

  lemma InsertThenErase<T>(xs: seq<T>, idx: nat, v: T)
    requires idx <= |xs|
    ensures var ys := xs[..idx] + [v] + xs[idx..];
            ys[..idx] + ys[idx + 1..] == xs
  {
    var ys := xs[..idx] + [v] + xs[idx..];
    assert ys[..idx] == xs[..idx];
    assert ys[idx + 1..] == xs[idx..];
  }

  /** RFC 6902 section 4.2 wants the target of a remove to exist. The code asks for that unless the parent is
      a primitive value: then it silently does nothing. */
  lemma RemoveSucceedsIff(doc: Json, ptr: Pointer)
    ensures OpRemove(doc, ptr).error.None? <==>
            ptr != [] && (At(doc, ptr).Success? ||
                          (At(doc, Parent(ptr)).Success? &&
                           !At(doc, Parent(ptr)).value.Obj? && !At(doc, Parent(ptr)).value.Arr?))
  {
    hide RemoveFrom, Child, Put;
    if ptr != [] {
      var last := Last(ptr);
      assert ptr == Parent(ptr) + [last];
      AtConcat(doc, Parent(ptr), [last]);
      if At(doc, Parent(ptr)).Success? {
        var parent := At(doc, Parent(ptr)).value;
        RemovableChild(parent, last);
        assert At(parent, [last]).Success? <==> Child(parent, last).Success?;
      }
    }
  }

  lemma RemovableChild(parent: Json, last: string)
    ensures RemoveFrom(parent, last).Success? <==> Child(parent, last).Success? || (!parent.Obj? && !parent.Arr?)
  {
    hide ArrayIndex;
    DashIsNoIndex();
  }

  predicate Primitive(j: Json) {
    !j.Null? && !j.Obj? && !j.Arr?
  }

  /** RFC 6902 section 4.1 wants the parent of an added member or element to exist. The code asks for that, and
      in an array for an index up to the size; below a primitive value it succeeds as well. */
  lemma AddSucceedsIff(doc: Json, ptr: Pointer, v: Json)
    ensures OpAdd(doc, ptr, v).error.None? <==>
            ptr == [] || (At(doc, Parent(ptr)).Success? &&
                          (At(doc, Parent(ptr)).value.Arr? ==>
                             InsertIndex(Last(ptr), |At(doc, Parent(ptr)).value.items|)))
  {
    hide Put, Child;
    if ptr != [] { TopCheckRedundant(doc, ptr, v); }
  }

  predicate InsertIndex(last: string, size: nat) {
    last == "-" || (ArrayIndex(last).Success? && ArrayIndex(last).value <= size)
  }

  /** A successful add can be read back at its own pointer unless it appended through "-" or had a primitive
      parent, when it silently added nothing. */
  lemma AddStoresIff(doc: Json, ptr: Pointer, v: Json)
    requires ptr != [] && OpAdd(doc, ptr, v).error.None?
    ensures At(OpAdd(doc, ptr, v).doc, ptr) == Success(v) <==>
            !Primitive(At(doc, Parent(ptr)).value) && !(At(doc, Parent(ptr)).value.Arr? && Last(ptr) == "-")
  {
    hide Put, ArrayIndex, Child;
    var pp, last := Parent(ptr), Last(ptr);
    TopCheckRedundant(doc, ptr, v);
    var parent := At(doc, pp).value;
    var added := AddInto(parent, last, v).value;
    AtPut(doc, pp, added);
    assert ptr == pp + [last];
    AtConcat(OpAdd(doc, ptr, v).doc, pp, [last]);
    AddedChild(parent, last, v);
    assert At(added, [last]) == Child(added, last);
  }

  lemma AddedChild(parent: Json, last: string, v: Json)
    requires AddInto(parent, last, v).Success?
    ensures Child(AddInto(parent, last, v).value, last) == Success(v) <==>
            !Primitive(parent) && !(parent.Arr? && last == "-")
  {
    hide ArrayIndex;
    DashIsNoIndex();
  }

  lemma AddBelowPrimitive(v: Json)
    ensures var doc := Obj(map["a" := Bool(true)]);
            ApplyOp(doc, Add(["a", "b"], v)) == Outcome(doc, None) && At(doc, ["a", "b"]).Failure?
  {
    var doc := Obj(map["a" := Bool(true)]);
    assert ["a", "b"][..1] == ["a"];
    assert At(doc, ["a"]) == Success(Bool(true));
    AddSucceedsIff(doc, ["a", "b"], v);
    assert doc.fields["a" := Bool(true)] == doc.fields;
    assert Put(doc, ["a"], Bool(true)) == doc;
  }

  lemma RemoveBelowPrimitive()
    ensures var doc := Obj(map["a" := Bool(true)]);
            ApplyOp(doc, Remove(["a", "b"])) == Outcome(doc, None) && At(doc, ["a", "b"]).Failure?
  {
    var doc := Obj(map["a" := Bool(true)]);
    assert ["a", "b"][..1] == ["a"];
    assert At(doc, ["a"]) == Success(Bool(true));
    RemoveSucceedsIff(doc, ["a", "b"]);
    assert doc.fields["a" := Bool(true)] == doc.fields;
    assert Put(doc, ["a"], Bool(true)) == doc;
  }

  // ---- what the operations do, read back through at() ----

  /** RFC 6902 section 4.6. A test passes exactly if its target exists and equals the value, and it fails with 501
      unless its pointer cannot be read as an array index. */
  lemma TestPassesIff(doc: Json, p: Pointer, v: Json)
    requires At(doc, p).Success? ==> NumbersAgree(At(doc, p).value, v)
    ensures ApplyOp(doc, Test(p, v)).error.None? <==> At(doc, p) == Success(v)
    ensures ApplyOp(doc, Test(p, v)).error.Some? && (At(doc, p).Failure? ==> At(doc, p).error.OutOfRange?) ==>
              ApplyOp(doc, Test(p, v)).error == Some(OtherError(501))
  {
    hide At, Eq, NumbersAgree;
    if At(doc, p).Success? { EqIsIdentity(At(doc, p).value, v); }
  }

  /** After a replacement a test compares with the new value. */
  lemma ReplaceThenTest(doc: Json, p: Pointer, w: Json, v: Json)
    requires At(doc, p).Success?
    ensures ApplyOps(doc, [Replace(p, w), Test(p, v)]) ==
            Outcome(Put(doc, p, w), if Eq(w, v) then None else Some(OtherError(501)))
    ensures ApplyOps(doc, [Replace(p, v), Test(p, v)]).error.None? <==> Comparable(v)
  {
    hide At, Put, Eq, Comparable;
    AtPut(doc, p, w);
    AtPut(doc, p, v);
    EqReflexive(v);
    InTurn(doc, Replace(p, w), Test(p, v));
    InTurn(doc, Replace(p, v), Test(p, v));
  }

  /** After a removal from an object a test fails, whatever it expects. */
  lemma RemoveThenTest(doc: Json, p: Pointer, v: Json)
    requires p != [] && At(doc, p).Success? && At(doc, Parent(p)).Success? && At(doc, Parent(p)).value.Obj?
    ensures ApplyOps(doc, [Remove(p), Test(p, v)]).error == Some(OtherError(501))
  {
    hide Eq, ArrayIndex, Put;
    var pp, last := Parent(p), Last(p);
    var parent := At(doc, pp).value;
    assert p == pp + [last];
    AtConcat(doc, pp, [last]);
    assert Child(parent, last).Success?;
    var left := RemoveFrom(parent, last).value;
    AtPut(doc, pp, left);
    AtConcat(Put(doc, pp, left), pp, [last]);
    assert At(left, [last]) == Failure(OutOfRange(403));
    InTurn(doc, Remove(p), Test(p, v));
  }

  lemma InTurn(doc: Json, first: Op, second: Op)
    ensures ApplyOps(doc, [first, second]) ==
            if ApplyOp(doc, first).error.Some? then ApplyOp(doc, first) else ApplyOp(ApplyOp(doc, first).doc, second)
  {
    hide ApplyOp;
    assert [first, second][1..] == [second] && [second][1..] == [];
    var r := ApplyOp(doc, first);
    if r.error.None? { assert ApplyOps(r.doc, [second]) == ApplyOp(r.doc, second); }
  }

  /** RFC 6902 section 4.3: replacing is removing and then adding at the same place, below the root. (The root
      cannot be removed.) */
  lemma ReplaceIsRemoveAdd(doc: Json, p: Pointer, v: Json)
    requires At(doc, p).Success?
    ensures ApplyOps(doc, [Remove(p), Add(p, v)]) == ApplyOp(doc, Replace(p, v)) <==> p != []
  {
    hide OpAdd, OpReplace, OpRemove;
    InTurn(doc, Remove(p), Add(p, v));
    RemoveRoot(doc);
    if p != [] { ReplaceBelowRoot(doc, p, v); }
  }

  lemma RemoveRoot(doc: Json)
    ensures OpRemove(doc, []).error.Some? && forall v :: OpReplace(doc, [], v).error.None?
  {
  }

  lemma ReplaceBelowRoot(doc: Json, p: Pointer, v: Json)
    requires At(doc, p).Success? && p != []
    ensures OpRemove(doc, p).error.None? && OpAdd(OpRemove(doc, p).doc, p, v) == OpReplace(doc, p, v)
  {
    hide Put, RemoveFrom, AddInto, SetChild, Child, OpAdd;
    var pp, last := Parent(p), Last(p);
    assert p == pp + [last];
    AtConcat(doc, pp, [last]);
    var parent := At(doc, pp).value;
    assert At(parent, [last]).Success? <==> Child(parent, last).Success?;
    RemoveThenInsert(parent, last, v);
    var left := RemoveFrom(parent, last).value;
    AtPut(doc, pp, left);
    TopCheckRedundant(OpRemove(doc, p).doc, p, v);
    PutPut(doc, pp, left, SetChild(parent, last, v));
    PutConcat(doc, pp, [last], v);
    PutOne(parent, last, v);
  }

  lemma PutOne(parent: Json, last: string, v: Json)
    requires Child(parent, last).Success?
    ensures At(parent, [last]).Success? && Put(parent, [last], v) == SetChild(parent, last, v)
  {
  }

  lemma RemoveThenInsert(parent: Json, last: string, v: Json)
    requires Child(parent, last).Success?
    ensures RemoveFrom(parent, last).Success?
    ensures AddInto(RemoveFrom(parent, last).value, last, v) == Success(SetChild(parent, last, v))
  {
    hide ArrayIndex;
    DashIsNoIndex();
    if parent.Obj? {
      assert (parent.fields - {last})[last := v] == parent.fields[last := v];
    } else {
      var xs, i := parent.items, ArrayIndex(last).value;
      var left := xs[..i] + xs[i + 1..];
      assert left[..i] == xs[..i] && left[i..] == xs[i + 1..];
      assert left[..i] + [v] + left[i..] == xs[i := v];
    }
  }

  /** RFC 6902 sections 4.4 and 4.5: a move is a removal of its source and then an add of what was found there, and
      a copy is that add alone. */
  lemma MoveIsRemoveAdd(doc: Json, from: Pointer, p: Pointer)
    requires At(doc, from).Success?
    ensures ApplyOp(doc, Move(from, p)) == ApplyOps(doc, [Remove(from), Add(p, At(doc, from).value)])
    ensures ApplyOp(doc, Copy(from, p)) == ApplyOp(doc, Add(p, At(doc, from).value))
  {
    InTurn(doc, Remove(from), Add(p, At(doc, from).value));
  }

  /** Where something added under this pointer can be found again. */
  predicate Keeps(doc: Json, p: Pointer) {
    p == [] || (At(doc, Parent(p)).Success? &&
                !Primitive(At(doc, Parent(p)).value) && !(At(doc, Parent(p)).value.Arr? && Last(p) == "-"))
  }

  /** A copy that succeeds leaves at its target what it found at its source, exactly where an add can be read back. */
  lemma CopyStoresIff(doc: Json, from: Pointer, p: Pointer)
    requires ApplyOp(doc, Copy(from, p)).error.None?
    ensures At(ApplyOp(doc, Copy(from, p)).doc, p) == At(doc, from) <==> Keeps(doc, p)
  {
    hide Put, ArrayIndex, Child;
    if p != [] {
      AddSucceedsIff(doc, p, At(doc, from).value);
      AddStoresIff(doc, p, At(doc, from).value);
    }
  }

  /** So does a move, in the document without the source. */
  lemma MoveStoresIff(doc: Json, from: Pointer, p: Pointer)
    requires ApplyOp(doc, Move(from, p)).error.None?
    ensures At(ApplyOp(doc, Move(from, p)).doc, p) == At(doc, from) <==> Keeps(ApplyOp(doc, Remove(from)).doc, p)
  {
    hide Put, ArrayIndex, Child, OpRemove;
    if p != [] {
      AddSucceedsIff(ApplyOp(doc, Remove(from)).doc, p, At(doc, from).value);
      AddStoresIff(ApplyOp(doc, Remove(from)).doc, p, At(doc, from).value);
    }
  }

  /** Adding to an object leaves every pointer apart from the new member as it was. */
  lemma AddKeepsOthers(doc: Json, p: Pointer, v: Json, q: Pointer)
    requires p != [] && OpAdd(doc, p, v).error.None? && !At(doc, Parent(p)).value.Arr? && Apart(p, q)
    ensures At(OpAdd(doc, p, v).doc, q).Success? <==> At(doc, q).Success?
    ensures At(doc, q).Success? ==> At(OpAdd(doc, p, v).doc, q) == At(doc, q)
  {
    hide AddInto, Put;
    TopCheckRedundant(doc, p, v);
    assert p == Parent(p) + [Last(p)];
    AddApart(doc, Parent(p), Last(p), v, q);
  }

  lemma {:induction false} AddApart(doc: Json, pp: Pointer, last: string, v: Json, q: Pointer)
    requires At(doc, pp).Success? && !At(doc, pp).value.Arr? && Apart(pp + [last], q)
    requires AddInto(At(doc, pp).value, last, v).Success?
    ensures var after := Put(doc, pp, AddInto(At(doc, pp).value, last, v).value);
            (At(after, q).Success? <==> At(doc, q).Success?) && (At(doc, q).Success? ==> At(after, q) == At(doc, q))
    decreases |pp|
  {
    hide ArrayIndex;
    if pp != [] {
      var c := Child(doc, pp[0]).value;
      assert (pp + [last])[1..] == pp[1..] + [last];
      var inner := Put(c, pp[1..], AddInto(At(c, pp[1..]).value, last, v).value);
      if pp[0] == q[0] {
        AddApart(c, pp[1..], last, v, q[1..]);
      } else {
        ChildSetApart(doc, pp[0], q[0], inner);
      }
    }
  }

  /** A failing add fails as at() does for its pointer. */
  lemma AddFailsAsAt(doc: Json, p: Pointer, v: Json)
    requires OpAdd(doc, p, v).error.Some?
    ensures At(doc, p) == Failure(OpAdd(doc, p, v).error.value)
  {
    hide Put, AddInto, Child;
    var pp, last := Parent(p), Last(p);
    TopCheckRedundant(doc, p, v);
    assert p == pp + [last];
    AtConcat(doc, pp, [last]);
    if At(doc, pp).Success? {
      var parent := At(doc, pp).value;
      NoPlaceNoChild(parent, last, v);
      assert At(parent, [last]).Failure? ==> At(parent, [last]).error == Child(parent, last).error;
    }
  }

  lemma NoPlaceNoChild(parent: Json, last: string, v: Json)
    requires AddInto(parent, last, v).Failure?
    ensures Child(parent, last) == Failure(AddInto(parent, last, v).error)
  {
    hide ArrayIndex;
  }

  /** So does a failing remove, but for the root, and for the place behind the last element of an array, whose name
      array_index refuses before anything else looks at it. */
  lemma RemoveFailsAsAt(doc: Json, p: Pointer)
    requires OpRemove(doc, p).error.Some?
    ensures p == [] ==> OpRemove(doc, p).error == Some(OutOfRange(405))
    ensures p != [] ==> At(doc, p) == Failure(if BehindArray(doc, p) then OutOfRange(402) else OpRemove(doc, p).error.value)
    ensures BehindArray(doc, p) ==> OpRemove(doc, p).error == Some(OutOfRange(404))
  {
    hide Put, RemoveFrom, Child;
    if p != [] {
      var pp, last := Parent(p), Last(p);
      assert p == pp + [last];
      AtConcat(doc, pp, [last]);
      if At(doc, pp).Success? {
        var parent := At(doc, pp).value;
        NothingToRemove(parent, last);
        assert At(parent, [last]).Failure? ==> At(parent, [last]).error == Child(parent, last).error;
      }
    }
  }

  predicate BehindArray(doc: Json, p: Pointer) {
    p != [] && Last(p) == "-" && At(doc, Parent(p)).Success? && At(doc, Parent(p)).value.Arr?
  }

  lemma NothingToRemove(parent: Json, last: string)
    requires RemoveFrom(parent, last).Failure?
    ensures var dash := parent.Arr? && last == "-";
            Child(parent, last) == Failure(if dash then OutOfRange(402) else RemoveFrom(parent, last).error)
            && (dash ==> RemoveFrom(parent, last).error == OutOfRange(404))
  {
    hide ArrayIndex;
    DashIsNoIndex();
  }

  // ---- patch documents ----

  /** get_value. */
  function Member(m: map<string, Json>, name: string, mustBeString: bool): Result<Json, Error> {
    if name !in m || (mustBeString && !m[name].Str?) then Failure(ParseError(105)) else Success(m[name])
  }

  function PointerMember(m: map<string, Json>, name: string): Result<Pointer, Error> {
    var text :- Member(m, name, true);
    Split(text.s)
  }

  function Decode(val: Json): Result<Op, Error> {
    if !val.Obj? then Failure(ParseError(104)) else
      var m := val.fields;
      var op :- Member(m, "op", true);
      var ptr :- PointerMember(m, "path");
      if op.s == "add" then (var v :- Member(m, "value", false); Success(Add(ptr, v)))
      else if op.s == "remove" then Success(Remove(ptr))
      else if op.s == "replace" then (var v :- Member(m, "value", false); Success(Replace(ptr, v)))
      else if op.s == "move" then (var from :- PointerMember(m, "from"); Success(Move(from, ptr)))
      else if op.s == "copy" then (var from :- PointerMember(m, "from"); Success(Copy(from, ptr)))
      else if op.s == "test" then (var v :- Member(m, "value", false); Success(Test(ptr, v)))
      else Failure(ParseError(105))
  }

  /** The loop of patch_inplace: an element is decoded only when its turn comes. */
  function PatchAll(doc: Json, vals: seq<Json>): Outcome
    decreases |vals|
  {
    if vals == [] then Outcome(doc, None) else
      match Decode(vals[0])
      case Failure(e) => Outcome(doc, Some(e))
      case Success(op) =>
        var r := ApplyOp(doc, op);
        if r.error.Some? then r else PatchAll(r.doc, vals[1..])
  }

  function Patch(doc: Json, patch: Json): Outcome {
    if patch.Arr? then PatchAll(doc, patch.items) else Outcome(doc, Some(ParseError(104)))
  }

  function Encode(op: Op): Json {
    match op
    case Add(p, v) => Obj(map["op" := Str("add"), "path" := Str(Text(p)), "value" := v])
    case Remove(p) => Obj(map["op" := Str("remove"), "path" := Str(Text(p))])
    case Replace(p, v) => Obj(map["op" := Str("replace"), "path" := Str(Text(p)), "value" := v])
    case Move(from, p) => Obj(map["op" := Str("move"), "path" := Str(Text(p)), "from" := Str(Text(from))])
    case Copy(from, p) => Obj(map["op" := Str("copy"), "path" := Str(Text(p)), "from" := Str(Text(from))])
    case Test(p, v) => Obj(map["op" := Str("test"), "path" := Str(Text(p)), "value" := v])
  }

  function EncodeAll(ops: seq<Op>): (vals: seq<Json>)
    ensures |vals| == |ops|
    ensures forall i | 0 <= i < |ops| :: vals[i] == Encode(ops[i])
  {
    seq(|ops|, i requires 0 <= i < |ops| => Encode(ops[i]))
  }

  lemma DecodeEncode(op: Op)
    ensures Decode(Encode(op)) == Success(op)
  {
    hide Split, Text;
    SplitIffText(Text(op.path), op.path);
    if op.Move? || op.Copy? { SplitIffText(Text(op.from), op.from); }
  }

  /** The six operation objects of RFC 6902, section 4. */
  lemma DecodeObjects(p: Pointer, from: Pointer, v: Json)
    ensures var path, source := Str(Text(p)), Str(Text(from));
      && Decode(Obj(map["op" := Str("add"), "path" := path, "value" := v])) == Success(Add(p, v))
      && Decode(Obj(map["op" := Str("remove"), "path" := path])) == Success(Remove(p))
      && Decode(Obj(map["op" := Str("replace"), "path" := path, "value" := v])) == Success(Replace(p, v))
      && Decode(Obj(map["op" := Str("move"), "path" := path, "from" := source])) == Success(Move(from, p))
      && Decode(Obj(map["op" := Str("copy"), "path" := path, "from" := source])) == Success(Copy(from, p))
      && Decode(Obj(map["op" := Str("test"), "path" := path, "value" := v])) == Success(Test(p, v))
  {
    hide Decode, Text;
    DecodeEncode(Add(p, v));
    DecodeEncode(Remove(p));
    DecodeEncode(Replace(p, v));
    DecodeEncode(Move(from, p));
    DecodeEncode(Copy(from, p));
    DecodeEncode(Test(p, v));
  }

  /** A patch element stands for an operation exactly if it holds the members of that operation's written form,
      whatever else it holds. */
  lemma DecodeIff(val: Json, op: Op)
    ensures Decode(val) == Success(op) <==> val.Obj? && Holds(val.fields, Encode(op).fields)
  {
    hide Decode, Encode, Holds;
    if !val.Obj? {
      NoObject(val);
    } else if op.Move? || op.Copy? {
      DecodeFromIff(val, op);
    } else {
      DecodeValueIff(val, op);
    }
  }

  lemma NoObject(val: Json)
    requires !val.Obj?
    ensures Decode(val) == Failure(ParseError(104))
  {
  }

  lemma DecodeFromIff(val: Json, op: Op)
    requires val.Obj? && (op.Move? || op.Copy?)
    ensures Decode(val) == Success(op) <==> Holds(val.fields, Encode(op).fields)
  {
    hide PointerMember, Text, Holds;
    var m, path, from := val.fields, Str(Text(op.path)), Str(Text(op.from));
    PointerMemberIff(m, "path", op.path);
    PointerMemberIff(m, "from", op.from);
    HoldsThree(m, "op", Str(if op.Move? then "move" else "copy"), "path", path, "from", from);
  }

  lemma DecodeValueIff(val: Json, op: Op)
    requires val.Obj? && !op.Move? && !op.Copy?
    ensures Decode(val) == Success(op) <==> Holds(val.fields, Encode(op).fields)
  {
    hide PointerMember, Text, Holds;
    var m, path := val.fields, Str(Text(op.path));
    PointerMemberIff(m, "path", op.path);
    if op.Remove? {
      HoldsTwo(m, "op", Str("remove"), "path", path);
    } else {
      var name := if op.Add? then "add" else if op.Replace? then "replace" else "test";
      HoldsThree(m, "op", Str(name), "path", path, "value", op.value);
    }
  }

  lemma PointerMemberIff(m: map<string, Json>, name: string, ptr: Pointer)
    ensures PointerMember(m, name) == Success(ptr) <==> name in m && m[name] == Str(Text(ptr))
  {
    hide Split, Text;
    if name in m && m[name].Str? { SplitIffText(m[name].s, ptr); }
  }

  lemma HoldsTwo(m: map<string, Json>, a: string, x: Json, b: string, y: Json)
    requires a != b
    ensures Holds(m, map[a := x, b := y]) <==> (a in m && m[a] == x) && (b in m && m[b] == y)
  {
    var part := map[a := x, b := y];
    assert part[a] == x && part[b] == y;
  }

  lemma HoldsThree(m: map<string, Json>, a: string, x: Json, b: string, y: Json, c: string, z: Json)
    requires a != b && b != c && a != c
    ensures Holds(m, map[a := x, b := y, c := z]) <==>
            (a in m && m[a] == x) && (b in m && m[b] == y) && (c in m && m[c] == z)
  {
    var part := map[a := x, b := y, c := z];
    assert part[a] == x && part[b] == y && part[c] == z;
  }

  predicate Holds(m: map<string, Json>, part: map<string, Json>) {
    forall k | k in part :: k in m && m[k] == part[k]
  }

  /** An element that stands for no operation is no object, or lacks a member, or has a pointer that does not parse. */
  lemma DecodeErrors(val: Json)
    requires Decode(val).Failure?
    ensures Decode(val).error == ParseError(104) <==> !val.Obj?
    ensures Decode(val).error in {ParseError(104), ParseError(105), ParseError(107), ParseError(108)}
  {
    hide Split;
    forall s: string ensures Split(s).Failure? ==> Split(s).error in {ParseError(107), ParseError(108)} {
      SplitSucceedsIff(s);
    }
  }

  lemma {:induction false} PatchEncoded(doc: Json, ops: seq<Op>)
    ensures PatchAll(doc, EncodeAll(ops)) == ApplyOps(doc, ops)
    decreases |ops|
  {
    if ops != [] {
      DecodeEncode(ops[0]);
      assert EncodeAll(ops)[1..] == EncodeAll(ops[1..]);
      PatchEncoded(ApplyOp(doc, ops[0]).doc, ops[1..]);
    }
  }

  /** Elements are read one at a time: one that stands for no operation ends the patch after those before it have
      been applied, whatever comes behind it. */
  lemma MalformedElementStops(doc: Json, ops: seq<Op>, bad: Json, rest: seq<Json>)
    requires ApplyOps(doc, ops).error.None? && Decode(bad).Failure?
    ensures Patch(doc, Arr(EncodeAll(ops) + [bad] + rest)) == Outcome(ApplyOps(doc, ops).doc, Some(Decode(bad).error))
    ensures forall patch: Json | !patch.Arr? :: Patch(doc, patch) == Outcome(doc, Some(ParseError(104)))
  {
    hide Decode;
    MalformedStops(doc, ops, bad, rest);
  }

  lemma {:induction false} MalformedStops(doc: Json, ops: seq<Op>, bad: Json, rest: seq<Json>)
    requires ApplyOps(doc, ops).error.None? && Decode(bad).Failure?
    ensures PatchAll(doc, EncodeAll(ops) + [bad] + rest) == Outcome(ApplyOps(doc, ops).doc, Some(Decode(bad).error))
    decreases |ops|
  {
    hide Decode, ApplyOp, Encode;
    var vals := EncodeAll(ops) + [bad] + rest;
    if ops == [] {
      assert vals[0] == bad;
    } else {
      DecodeEncode(ops[0]);
      assert vals[0] == Encode(ops[0]);
      assert vals[1..] == EncodeAll(ops[1..]) + [bad] + rest;
      MalformedStops(ApplyOp(doc, ops[0]).doc, ops[1..], bad, rest);
    }
  }

  // ---- the code, changing the document in place ----

  class Document {
    var root: Json

    constructor (j: Json)
      ensures root == j
    {
      root := j;
    }

    method OperationAdd(ptr: Pointer, v: Json) returns (error: Option<Error>)
      modifies this
      ensures Outcome(root, error) == OpAdd(old(root), ptr, v)
    {
      if ptr == [] {
        root := v;
        return None;
      }
      var top := ptr[..1];
      if top != ptr {
        var t := At(root, top);
        if t.Failure? { return Some(t.error); }
      }
      var last, parentPtr := Last(ptr), Parent(ptr);
      var parent := At(root, parentPtr);
      if parent.Failure? { return Some(parent.error); }
      match parent.value {
        case Null => root := Put(root, parentPtr, Obj(map[last := v]));
        case Obj(m) => root := Put(root, parentPtr, Obj(m[last := v]));
        case Arr(xs) =>
          if last == "-" {
            root := Put(root, parentPtr, Arr(xs + [v]));
          } else {
            var idx := ArrayIndex(last);
            if idx.Failure? { return Some(idx.error); }
            if idx.value > |xs| { return Some(OutOfRange(401)); }
            root := Put(root, parentPtr, Arr(xs[..idx.value] + [v] + xs[idx.value..]));
          }
        case _ => PutSame(root, parentPtr);
      }
      error := None;
    }

    method OperationRemove(ptr: Pointer) returns (error: Option<Error>)
      modifies this
      ensures Outcome(root, error) == OpRemove(old(root), ptr)
    {
      if ptr == [] { return Some(OutOfRange(405)); }
      var last, parentPtr := Last(ptr), Parent(ptr);
      var parent := At(root, parentPtr);
      if parent.Failure? { return Some(parent.error); }
      if parent.value.Obj? {
        if last !in parent.value.fields { return Some(OutOfRange(403)); }
        root := Put(root, parentPtr, Obj(parent.value.fields - {last}));
      } else if parent.value.Arr? {
        var xs := parent.value.items;
        var idx := ArrayIndex(last);
        if idx.Failure? { return Some(idx.error); }
        if idx.value >= |xs| { return Some(OutOfRange(401)); }
        root := Put(root, parentPtr, Arr(xs[..idx.value] + xs[idx.value + 1..]));
      } else {
        PutSame(root, parentPtr);
      }
      error := None;
    }

    method ApplyDecoded(op: Op) returns (error: Option<Error>)
      modifies this
      ensures Outcome(root, error) == ApplyOp(old(root), op)
    {
      error := None;
      match op {
        case Add(p, v) => error := OperationAdd(p, v);
        case Remove(p) => error := OperationRemove(p);
        case Replace(p, v) =>
          var at := At(root, p);
          if at.Failure? { return Some(at.error); }
          root := Put(root, p, v);
        case Move(from, p) =>
          var v := At(root, from);
          if v.Failure? { return Some(v.error); }
          error := OperationRemove(from);
          if error.Some? { return; }
          error := OperationAdd(p, v.value);
        case Copy(from, p) =>
          var v := At(root, from);
          if v.Failure? { return Some(v.error); }
          error := OperationAdd(p, v.value);
        case Test(p, v) =>
          var success := false;
          var at := At(root, p);
          if at.Success? {
            success := Eq(at.value, v);
          } else if !at.error.OutOfRange? {
            return Some(at.error);
          }
          if !success { return Some(OtherError(501)); }
      }
    }

    /** patch_inplace: applies a patch document, stopping at the first exception. */
    method PatchInplace(patch: Json) returns (error: Option<Error>)
      modifies this
      ensures Outcome(root, error) == Patch(old(root), patch)
    {
      if !patch.Arr? { return Some(ParseError(104)); }
      var vals := patch.items;
      for i := 0 to |vals|
        invariant PatchAll(root, vals[i..]) == PatchAll(old(root), vals)
      {
        var op := Decode(vals[i]);
        if op.Failure? { return Some(op.error); }
        assert vals[i..][1..] == vals[i + 1..];
        error := ApplyDecoded(op.value);
        if error.Some? { return; }
      }
      error := None;
    }
  }
}
