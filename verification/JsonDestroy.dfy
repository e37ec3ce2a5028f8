/** json_value::destroy: releasing a value with an explicit stack instead of recursion. */
module JsonDestroy {
  import opened Wrappers
  import opened JsonValue
  import opened JsonPointer
  import opened JsonPatch
  import opened JsonDiff

  /** A value on the stack, and where in the destroyed value it came from. */
  datatype Node = Node(at: Pointer, value: Json)

  function ChildCount(v: Json): nat {
    if v.Arr? then |v.items| else if v.Obj? then |v.fields| else 0
  }

  function ChildToken(v: Json, i: nat): string
    requires i < ChildCount(v)
  {
    if v.Arr? then Decimal(i) else KeysOf(v.fields)[i]
  }

  function ChildValue(v: Json, i: nat): Json
    requires i < ChildCount(v)
  {
    if v.Arr? then v.items[i] else
      var k := KeysOf(v.fields)[i];
      assert k in v.fields;
      v.fields[k]
  }

  lemma ChildSmaller(v: Json, i: nat)
    requires i < ChildCount(v)
    ensures ChildValue(v, i) < v
  {
  }

  function Children(n: Node): (s: seq<Node>)
    ensures |s| == ChildCount(n.value)
  {
    seq(ChildCount(n.value), i requires 0 <= i < ChildCount(n.value) =>
      Node(n.at + [ChildToken(n.value, i)], ChildValue(n.value, i)))
  }

  /** A value with its children moved out. */
  function Husk(v: Json): Json {
    match v
    case Arr(_) => Arr([])
    case Obj(_) => Obj(map[])
    case _ => v
  }

  /** Number of values in v, itself included. */
  function Size(v: Json): (n: nat)
    ensures n >= 1
    decreases v, ChildCount(v) + 1
  {
    1 + SizeOfFirst(v, ChildCount(v))
  }

  function SizeOfFirst(v: Json, n: nat): nat
    requires n <= ChildCount(v)
    decreases v, n
  {
    if n == 0 then 0 else
      ChildSmaller(v, n - 1);
      SizeOfFirst(v, n - 1) + Size(ChildValue(v, n - 1))
  }

  function TotalSize(s: seq<Node>): nat {
    if s == [] then 0 else TotalSize(s[..|s| - 1]) + Size(s[|s| - 1].value)
  }

  lemma {:induction false} TotalSizeConcat(a: seq<Node>, b: seq<Node>)
    ensures TotalSize(a + b) == TotalSize(a) + TotalSize(b)
    decreases |b|
  {
    if b == [] {
      assert a + b == a;
    } else {
      assert (a + b)[..|a + b| - 1] == a + b[..|b| - 1];
      TotalSizeConcat(a, b[..|b| - 1]);
    }
  }

  lemma {:induction false} ChildrenSize(n: Node, k: nat)
    requires k <= ChildCount(n.value)
    ensures TotalSize(Children(n)[..k]) == SizeOfFirst(n.value, k)
    decreases k
  {
    hide ChildToken, ChildValue, Size;
    if k > 0 {
      ChildrenSize(n, k - 1);
      assert Children(n)[..k][..k - 1] == Children(n)[..k - 1];
    }
  }

  /** Replacing the top of the stack by its children makes the stack smaller. */
  lemma StackShrinks(s: seq<Node>)
    requires s != []
    ensures TotalSize(s[..|s| - 1] + Children(s[|s| - 1])) < TotalSize(s)
  {
    var top := s[|s| - 1];
    TotalSizeConcat(s[..|s| - 1], Children(top));
    ChildrenSize(top, ChildCount(top.value));
    assert Children(top)[..ChildCount(top.value)] == Children(top);
  }

  /** What the loop releases, in order, when it starts from stack s. */
  function Released(s: seq<Node>): seq<Node>
    decreases TotalSize(s)
  {
    if s == [] then [] else
      var top := s[|s| - 1];
      StackShrinks(s);
      [Node(top.at, Husk(top.value))] + Released(s[..|s| - 1] + Children(top))
  }

  lemma {:induction false} ReleasedConcat(a: seq<Node>, b: seq<Node>)
    ensures Released(a + b) == Released(b) + Released(a)
    decreases TotalSize(b)
  {
    hide Released, Children;
    if b == [] {
      assert a + b == a;
      ReleasedNone();
    } else {
      var most, top := b[..|b| - 1], b[|b| - 1];
      StackShrinks(b);
      ReleasedConcat(a, most + Children(top));
      ReleasedStep(b);
      ReleasedStep(a + b);
      assert (a + b)[..|a + b| - 1] + Children(top) == a + (most + Children(top));
    }
  }

  lemma ReleasedNone()
    ensures Released([]) == []
  {
  }

  lemma ReleasedStep(s: seq<Node>)
    requires s != []
    ensures Released(s) == [Node(s[|s| - 1].at, Husk(s[|s| - 1].value))] + Released(s[..|s| - 1] + Children(s[|s| - 1]))
  {
  }

  /** The last of the first n children is released first. */
  lemma ReleasedOfChildren(base: Pointer, v: Json, n: nat)
    requires 0 < n <= ChildCount(v)
    ensures var s := Children(Node(base, v));
            Released(s[..n]) == Released([s[n - 1]]) + Released(s[..n - 1])
  {
    hide Released, ChildCount, ChildToken, ChildValue;
    var s := Children(Node(base, v));
    assert s[..n] == s[..n - 1] + [s[n - 1]];
    ReleasedConcat(s[..n - 1], [s[n - 1]]);
  }

  /** n is the husk of the value that r reaches inside v, where v itself sits at base. */
  ghost predicate IsHuskAt(n: Node, base: Pointer, v: Json, r: Pointer) {
    At(v, r).Success? && n.at == base + r && n.value == Husk(At(v, r).value)
  }

  ghost predicate InTree(n: Node, base: Pointer, v: Json) {
    exists r :: IsHuskAt(n, base, v, r)
  }

  ghost predicate InChild(n: Node, base: Pointer, v: Json, i: nat)
    requires i < ChildCount(v)
  {
    InTree(n, base + [ChildToken(v, i)], ChildValue(v, i))
  }

  ghost predicate NoTwice(rs: seq<Node>) {
    forall i, j | 0 <= i < j < |rs| :: rs[i].at != rs[j].at
  }

  /** rs holds the husk of every value that v contains, v itself included, each once and under its pointer. */
  ghost predicate ReleasesAll(rs: seq<Node>, base: Pointer, v: Json) {
    (forall n :: n in rs <==> InTree(n, base, v)) && NoTwice(rs)
  }

  ghost predicate ReleasesChildren(rs: seq<Node>, base: Pointer, v: Json, k: nat)
    requires k <= ChildCount(v)
  {
    (forall n :: n in rs <==> exists i :: 0 <= i < k && InChild(n, base, v, i)) && NoTwice(rs)
  }

  /** Each child has a token of its own, which leads to it. */
  lemma TokenLeads(v: Json, i: nat)
    requires Indexable(v) && i < ChildCount(v)
    ensures Child(v, ChildToken(v, i)) == Success(ChildValue(v, i))
    ensures Indexable(ChildValue(v, i))
    ensures forall j | 0 <= j < i :: ChildToken(v, j) != ChildToken(v, i)
  {
    if v.Arr? {
      IndexIsChild(v, i);
      forall j | 0 <= j < i ensures Decimal(j) != Decimal(i) {
        IndexIsChild(v, j);
        ArrayIndexIffDecimal(Decimal(j), j);
        ArrayIndexIffDecimal(Decimal(i), i);
      }
    }
  }

  lemma TokenOfChild(v: Json, token: string) returns (i: nat)
    requires Indexable(v) && Child(v, token).Success?
    ensures i < ChildCount(v) && ChildToken(v, i) == token && ChildValue(v, i) == Child(v, token).value
  {
    if v.Arr? {
      i := ArrayIndex(token).value;
      ArrayIndexIffDecimal(token, i);
    } else {
      assert token in KeysOf(v.fields);
      i :| 0 <= i < |KeysOf(v.fields)| && KeysOf(v.fields)[i] == token;
    }
  }

  lemma ChildInTree(n: Node, base: Pointer, v: Json, i: nat)
    requires Indexable(v) && i < ChildCount(v) && InChild(n, base, v, i)
    ensures InTree(n, base, v)
    ensures |n.at| > |base| && n.at[|base|] == ChildToken(v, i)
  {
    hide ChildToken, ChildValue, Indexable, Husk;
    var t := ChildToken(v, i);
    TokenLeads(v, i);
    var r :| IsHuskAt(n, base + [t], ChildValue(v, i), r);
    assert ([t] + r)[1..] == r;
    assert base + [t] + r == base + ([t] + r);
    assert IsHuskAt(n, base, v, [t] + r);
  }

  lemma TreeIsRootOrChild(n: Node, base: Pointer, v: Json)
    requires Indexable(v) && InTree(n, base, v)
    ensures n == Node(base, Husk(v)) || exists i :: 0 <= i < ChildCount(v) && InChild(n, base, v, i)
  {
    hide ChildToken, ChildValue, Indexable, Husk;
    var r :| IsHuskAt(n, base, v, r);
    if r == [] {
      assert base + [] == base;
    } else {
      var i := TokenOfChild(v, r[0]);
      assert base + [r[0]] + r[1..] == base + r;
      TokenLeads(v, i);
      assert IsHuskAt(n, base + [r[0]], ChildValue(v, i), r[1..]);
      assert InChild(n, base, v, i);
    }
  }

  lemma RootInTree(base: Pointer, v: Json)
    ensures InTree(Node(base, Husk(v)), base, v)
  {
    assert base + [] == base;
    assert IsHuskAt(Node(base, Husk(v)), base, v, []);
  }

  lemma {:induction false} ReleasedTree(base: Pointer, v: Json)
    requires Indexable(v)
    ensures ReleasesAll(Released([Node(base, v)]), base, v)
    decreases v, ChildCount(v) + 1
  {
    hide Released, InTree, InChild, Children;
    var n := Node(base, v);
    var below := Released(Children(n));
    ReleasedChildren(base, v, ChildCount(v));
    assert Children(n)[..ChildCount(v)] == Children(n);
    ReleasedStep([n]);
    assert [n][..0] + Children(n) == Children(n);
    assert Released([n]) == [Node(base, Husk(v))] + below;
    RootInTree(base, v);
    forall m ensures m in Released([n]) <==> InTree(m, base, v) {
      if InTree(m, base, v) { TreeIsRootOrChild(m, base, v); }
      if m in below {
        var i :| 0 <= i < ChildCount(v) && InChild(m, base, v, i);
        ChildInTree(m, base, v, i);
      }
    }
    forall m | m in below ensures m.at != base {
      var i :| 0 <= i < ChildCount(v) && InChild(m, base, v, i);
      ChildInTree(m, base, v, i);
    }
  }

  lemma {:induction false} ReleasedChildren(base: Pointer, v: Json, k: nat)
    requires Indexable(v) && k <= ChildCount(v)
    ensures ReleasesChildren(Released(Children(Node(base, v))[..k]), base, v, k)
    decreases v, k
  {
    hide Released, InTree, InChild;
    var s := Children(Node(base, v));
    if k == 0 {
      ReleasedNone();
    } else {
      var i := k - 1;
      var token, child := ChildToken(v, i), ChildValue(v, i);
      ChildSmaller(v, i);
      TokenLeads(v, i);
      ReleasedChildren(base, v, i);
      ReleasedTree(base + [token], child);
      ReleasedOfChildren(base, v, k);
      JoinChildren(base, v, i, Released([s[i]]), Released(s[..i]));
    }
  }

  lemma JoinChildren(base: Pointer, v: Json, i: nat, one: seq<Node>, rest: seq<Node>)
    requires Indexable(v) && i < ChildCount(v)
    requires ReleasesAll(one, base + [ChildToken(v, i)], ChildValue(v, i))
    requires ReleasesChildren(rest, base, v, i)
    ensures ReleasesChildren(one + rest, base, v, i + 1)
  {
    hide InTree, Indexable, ChildToken, ChildValue;
    forall n ensures n in one <==> InChild(n, base, v, i) {
    }
    forall a, b | a in one && b in rest ensures a.at != b.at {
      var j :| 0 <= j < i && InChild(b, base, v, j);
      ChildInTree(a, base, v, i);
      ChildInTree(b, base, v, j);
      TokenLeads(v, i);
    }
    forall n ensures n in one + rest <==> exists j :: 0 <= j < i + 1 && InChild(n, base, v, j) {
      if n in one { assert InChild(n, base, v, i); }
      if j :| 0 <= j < i + 1 && InChild(n, base, v, j) {
        if j < i { assert n in rest; }
      }
    }
  }

  /** The loop over the explicit stack. The top-level children go on first; the value itself is freed by the
      caller once they are gone. */
  method Destroy(j: Json) returns (released: seq<Node>)
    ensures released == Released(Children(Node([], j)))
  {
    hide Released, Children;
    var stack := Children(Node([], j));
    released := [];
    while stack != []
      invariant released + Released(stack) == Released(Children(Node([], j)))
      decreases TotalSize(stack)
    {
      StackShrinks(stack);
      ReleasedStep(stack);
      var current := stack[|stack| - 1];
      stack := stack[..|stack| - 1];
      stack := stack + Children(current);
      released := released + [Node(current.at, Husk(current.value))];
    }
    ReleasedNone();
  }

  /** Destroy releases every value inside j exactly once, and childless when its turn comes. */
  lemma DestroyReleasesEverything(j: Json)
    requires Indexable(j)
    ensures var released := Released(Children(Node([], j)));
            (forall n :: n in released <==> n.at != [] && At(j, n.at).Success? && n.value == Husk(At(j, n.at).value))
            && NoTwice(released) && forall n | n in released :: ChildCount(n.value) == 0
  {
    hide *;
    InsideReleased(j);
    forall v: Json ensures ChildCount(Husk(v)) == 0 { HuskIsChildless(v); }
  }

  lemma HuskIsChildless(v: Json)
    ensures ChildCount(Husk(v)) == 0
  {
  }

  lemma InsideReleased(j: Json)
    requires Indexable(j)
    ensures var released := Released(Children(Node([], j)));
            (forall n :: n in released <==> n.at != [] && At(j, n.at).Success? && n.value == Husk(At(j, n.at).value))
            && NoTwice(released)
  {
    hide Released, Children, InTree;
    ReleasedTree([], j);
    ReleasedStep([Node([], j)]);
    assert [Node([], j)][..0] + Children(Node([], j)) == Children(Node([], j));
    var root, released := Node([], Husk(j)), Released(Children(Node([], j)));
    WithoutFirst(Released([Node([], j)]), root, released);
    forall n ensures n in released <==> n.at != [] && At(j, n.at).Success? && n.value == Husk(At(j, n.at).value) {
      InWholeTree(n, j);
      assert n in Released([Node([], j)]) <==> n == root || n in released;
    }
  }

  lemma WithoutFirst(all: seq<Node>, first: Node, rest: seq<Node>)
    requires all == [first] + rest && NoTwice(all)
    ensures NoTwice(rest) && forall n | n in rest :: n.at != first.at
  {
    forall a, b | 0 <= a < b < |rest| ensures rest[a].at != rest[b].at {
      assert all[a + 1].at != all[b + 1].at;
    }
    forall n | n in rest ensures n.at != first.at {
      var k :| 0 <= k < |rest| && rest[k] == n;
      assert all[0].at != all[k + 1].at;
    }
  }

  lemma InWholeTree(n: Node, j: Json)
    ensures InTree(n, [], j) <==> At(j, n.at).Success? && n.value == Husk(At(j, n.at).value)
  {
    if InTree(n, [], j) {
      var r :| IsHuskAt(n, [], j, r);
      assert [] + r == r;
    }
    if At(j, n.at).Success? && n.value == Husk(At(j, n.at).value) {
      assert [] + n.at == n.at;
      assert IsHuskAt(n, [], j, n.at);
    }
  }
}
