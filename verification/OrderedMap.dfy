/** ordered_map: a vector of pairs that behaves as a map remembering insertion order. */
module OrderedMap {
  import opened Wrappers

  // ---- the abstract map: keys in insertion order, and what they map to ----

  datatype Model<K(==), V> = Model(order: seq<K>, contents: map<K, V>)

  predicate Distinct<T(==)>(s: seq<T>) {
    forall i, j | 0 <= i < j < |s| :: s[i] != s[j]
  }

  function SetOf<T(==)>(s: seq<T>): set<T> {
    set x | x in s
  }

  predicate WellFormed<K(==), V>(m: Model<K, V>) {
    Distinct(m.order) && SetOf(m.order) == m.contents.Keys
  }

  function Emplaced<K(==), V>(m: Model<K, V>, k: K, v: V): Model<K, V> {
    if k in m.contents then m else Model(m.order + [k], m.contents[k := v])
  }

  function Without<K(==)>(s: seq<K>, k: K): seq<K> {
    if s == [] then [] else (if s[0] == k then [] else [s[0]]) + Without(s[1..], k)
  }

  function Erased<K(==), V>(m: Model<K, V>, k: K): Model<K, V> {
    Model(Without(m.order, k), m.contents - {k})
  }

  function ErasedRange<K(==), V>(m: Model<K, V>, first: nat, last: nat): Model<K, V>
    requires first <= last <= |m.order|
  {
    Model(m.order[..first] + m.order[last..], m.contents - SetOf(m.order[first..last]))
  }

  datatype Call<K, V> = Emplace(k: K, v: V) | Insert(k: K, v: V) | EraseKey(k: K) | EraseRange(first: nat, last: nat)

  /** A range erase with iterators outside the map does not happen; it is modelled as no call. */
  function Step<K(==), V>(m: Model<K, V>, c: Call<K, V>): Model<K, V> {
    match c
    case Emplace(k, v) => Emplaced(m, k, v)
    case Insert(k, v) => Emplaced(m, k, v)
    case EraseKey(k) => Erased(m, k)
    case EraseRange(a, b) => if a <= b <= |m.order| then ErasedRange(m, a, b) else m
  }

  function Run<K(==), V>(calls: seq<Call<K, V>>): Model<K, V> {
    if calls == [] then Model([], map[]) else Step(Run(calls[..|calls| - 1]), calls[|calls| - 1])
  }

  lemma {:induction false} WithoutKeepsRest<K>(s: seq<K>, k: K)
    requires Distinct(s)
    ensures k !in s ==> Without(s, k) == s
    ensures forall i | 0 <= i < |s| && s[i] == k :: Without(s, k) == s[..i] + s[i + 1..]
  {
    if s != [] {
      WithoutKeepsRest(s[1..], k);
      assert s == [s[0]] + s[1..];
      forall i | 0 <= i < |s| && s[i] == k ensures Without(s, k) == s[..i] + s[i + 1..] {
        if i == 0 {
          assert k !in s[1..];
        } else {
          assert s[1..][i - 1] == k;
          assert s[..i] + s[i + 1..] == [s[0]] + (s[1..][..i - 1] + s[1..][i..]);
        }
      }
    }
  }

  /** Erasing a present key is cutting out the one place where it stands. */
  lemma ErasedIsCut<K, V>(m: Model<K, V>, k: K)
    requires WellFormed(m)
    ensures k !in m.contents ==> Erased(m, k) == m
    ensures forall i | 0 <= i < |m.order| && m.order[i] == k :: Erased(m, k) == ErasedRange(m, i, i + 1)
  {
    WithoutKeepsRest(m.order, k);
    assert k in SetOf(m.order) <==> k in m.contents;
    if k !in m.contents { assert m.contents - {k} == m.contents; }
    forall i | 0 <= i < |m.order| && m.order[i] == k ensures Erased(m, k) == ErasedRange(m, i, i + 1) {
      assert m.order[i..i + 1] == [k];
      assert SetOf([k]) == {k};
    }
  }

  lemma CutKeepsOthers<K>(s: seq<K>, a: nat, b: nat)
    requires Distinct(s) && a <= b <= |s|
    ensures Distinct(s[..a] + s[b..])
    ensures SetOf(s[..a] + s[b..]) == SetOf(s) - SetOf(s[a..b])
  {
    var cut := s[..a] + s[b..];
    assert s == s[..a] + s[a..b] + s[b..];
    forall k ensures k in cut <==> k in s && k !in s[a..b] {
      if k in s[a..b] {
        var i :| a <= i < b && s[i] == k;
        assert k !in s[..a] && k !in s[b..];
      }
    }
  }

  lemma StepWellFormed<K, V>(m: Model<K, V>, c: Call<K, V>)
    requires WellFormed(m)
    ensures WellFormed(Step(m, c))
  {
    hide Without;
    match c
    case EraseKey(k) =>
      ErasedIsCut(m, k);
      assert k in SetOf(m.order) <==> k in m.contents;
      if i :| 0 <= i < |m.order| && m.order[i] == k { CutKeepsOthers(m.order, i, i + 1); }
    case EraseRange(a, b) =>
      if a <= b <= |m.order| { CutKeepsOthers(m.order, a, b); }
    case Emplace(k, v) => PushWellFormed(m, k, v);
    case Insert(k, v) => PushWellFormed(m, k, v);
  }

  lemma PushWellFormed<K, V>(m: Model<K, V>, k: K, v: V)
    requires WellFormed(m)
    ensures WellFormed(Emplaced(m, k, v))
  {
    if k !in m.contents {
      assert k !in SetOf(m.order);
      assert SetOf(m.order + [k]) == SetOf(m.order) + {k};
    }
  }

  /** Distinct keys after every sequence of calls. */
  lemma {:induction false} RunWellFormed<K, V>(calls: seq<Call<K, V>>)
    ensures WellFormed(Run(calls))
  {
    if calls != [] {
      RunWellFormed(calls[..|calls| - 1]);
      StepWellFormed(Run(calls[..|calls| - 1]), calls[|calls| - 1]);
    }
  }

  /** When each present key was inserted, kept apart from the order of the keys. */
  function Stamps<K(==), V>(calls: seq<Call<K, V>>): map<K, nat> {
    if calls == [] then map[] else
      var most, c := calls[..|calls| - 1], calls[|calls| - 1];
      var stamps, m := Stamps(most), Run(most);
      match c
      case Emplace(k, _) => if k in stamps then stamps else stamps[k := |most|]
      case Insert(k, _) => if k in stamps then stamps else stamps[k := |most|]
      case EraseKey(k) => stamps - {k}
      case EraseRange(a, b) =>
        if a <= b <= |m.order| then stamps - SetOf(m.order[a..b]) else stamps
  }

  predicate StampedBy<K(==)>(order: seq<K>, stamps: map<K, nat>, now: nat) {
    && SetOf(order) == stamps.Keys
    && (forall k | k in stamps :: stamps[k] < now)
    && forall i, j | 0 <= i < j < |order| :: order[i] in stamps && order[j] in stamps && stamps[order[i]] < stamps[order[j]]
  }

  /** The order of the keys is the order of their insertions: overwriting attempts do not move a key, and a key
      erased and inserted again goes to the end. */
  lemma {:induction false} OrderIsInsertionOrder<K, V>(calls: seq<Call<K, V>>)
    ensures StampedBy(Run(calls).order, Stamps(calls), |calls|)
  {
    if calls != [] {
      var most, c := calls[..|calls| - 1], calls[|calls| - 1];
      OrderIsInsertionOrder(most);
      RunWellFormed(most);
      StampStep(Run(most), Stamps(most), |most|, c);
    }
  }

  lemma StampStep<K, V>(m: Model<K, V>, stamps: map<K, nat>, now: nat, c: Call<K, V>)
    requires WellFormed(m) && StampedBy(m.order, stamps, now)
    ensures c.Emplace? || c.Insert? ==>
              StampedBy(Step(m, c).order, if c.k in stamps then stamps else stamps[c.k := now], now + 1)
    ensures c.EraseKey? ==> StampedBy(Step(m, c).order, stamps - {c.k}, now + 1)
    ensures c.EraseRange? && c.first <= c.last <= |m.order| ==>
              StampedBy(Step(m, c).order, stamps - SetOf(m.order[c.first..c.last]), now + 1)
    ensures c.EraseRange? && !(c.first <= c.last <= |m.order|) ==> StampedBy(Step(m, c).order, stamps, now + 1)
  {
    hide Erased, Emplaced, StampedBy, WellFormed;
    match c
    case EraseKey(k) => StampErase(m, stamps, now, k);
    case EraseRange(a, b) =>
      if a <= b <= |m.order| { StampCut(m.order, stamps, now, a, b); } else { StampLater(m.order, stamps, now); }
    case Emplace(k, v) => StampPush(m, stamps, now, k, v);
    case Insert(k, v) => StampPush(m, stamps, now, k, v);
  }

  lemma StampLater<K>(order: seq<K>, stamps: map<K, nat>, now: nat)
    requires StampedBy(order, stamps, now)
    ensures StampedBy(order, stamps, now + 1)
  {
  }

  lemma StampErase<K, V>(m: Model<K, V>, stamps: map<K, nat>, now: nat, k: K)
    requires WellFormed(m) && StampedBy(m.order, stamps, now)
    ensures StampedBy(Erased(m, k).order, stamps - {k}, now + 1)
  {
    hide Without, Distinct;
    ErasedIsCut(m, k);
    assert k in SetOf(m.order) <==> k in m.contents;
    if i :| 0 <= i < |m.order| && m.order[i] == k {
      assert m.order[i..i + 1] == [k] && SetOf([k]) == {k};
      StampCut(m.order, stamps, now, i, i + 1);
    } else {
      assert stamps - {k} == stamps;
      StampLater(m.order, stamps, now);
    }
  }

  lemma StampPush<K, V>(m: Model<K, V>, stamps: map<K, nat>, now: nat, k: K, v: V)
    requires WellFormed(m) && StampedBy(m.order, stamps, now)
    ensures StampedBy(Emplaced(m, k, v).order, if k in stamps then stamps else stamps[k := now], now + 1)
  {
    hide Distinct;
    if k in stamps {
      StampLater(m.order, stamps, now);
    } else {
      StampNew(m.order, stamps, now, k);
    }
  }

  lemma StampNew<K>(order: seq<K>, stamps: map<K, nat>, now: nat, k: K)
    requires StampedBy(order, stamps, now) && k !in stamps
    ensures StampedBy(order + [k], stamps[k := now], now + 1)
  {
    assert SetOf(order + [k]) == SetOf(order) + {k};
    forall i | 0 <= i < |order| ensures order[i] in stamps && order[i] != k {
      assert order[i] in SetOf(order);
    }
  }

  lemma StampCut<K>(s: seq<K>, stamps: map<K, nat>, now: nat, a: nat, b: nat)
    requires StampedBy(s, stamps, now) && a <= b <= |s|
    ensures StampedBy(s[..a] + s[b..], stamps - SetOf(s[a..b]), now + 1)
  {
    assert Distinct(s);
    CutKeepsOthers(s, a, b);
    var cut := s[..a] + s[b..];
    forall i | 0 <= i < |cut| ensures cut[i] in stamps - SetOf(s[a..b]) {
      assert cut[i] in SetOf(cut);
    }
    CutAscends(s, stamps, a, b);
  }

  lemma CutAscends<K>(s: seq<K>, stamps: map<K, nat>, a: nat, b: nat)
    requires a <= b <= |s| && forall i | 0 <= i < |s| :: s[i] in stamps
    requires forall i, j | 0 <= i < j < |s| :: stamps[s[i]] < stamps[s[j]]
    ensures var cut := s[..a] + s[b..];
            (forall i | 0 <= i < |cut| :: cut[i] in stamps) &&
            forall i, j | 0 <= i < j < |cut| :: stamps[cut[i]] < stamps[cut[j]]
  {
  }

  /** The call at s inserted k when it was absent; since then k has been present and maps to what that call gave. */
  ghost predicate InsertedAt<K, V>(calls: seq<Call<K, V>>, k: K, s: nat) {
    && s < |calls|
    && (calls[s].Emplace? || calls[s].Insert?) && calls[s].k == k
    && k !in Run(calls[..s]).contents
    && forall i | s < i <= |calls| :: Maps(Run(calls[..i]), k, calls[s].v)
  }

  ghost predicate Maps<K, V>(m: Model<K, V>, k: K, v: V) {
    k in m.contents && m.contents[k] == v
  }

  /** A run stores what was inserted: a present key maps to the value of the call that inserted it, however often
      it was emplaced, inserted or looked up through operator[] since. */
  lemma RunStores<K, V>(calls: seq<Call<K, V>>)
    ensures Run(calls).contents.Keys == Stamps(calls).Keys
    ensures forall k | k in Run(calls).contents :: InsertedAt(calls, k, Stamps(calls)[k])
  {
    hide Run, Stamps, InsertedAt;
    RunWellFormed(calls);
    OrderIsInsertionOrder(calls);
    forall k | k in Run(calls).contents ensures InsertedAt(calls, k, Stamps(calls)[k]) { KeyStored(calls, k); }
  }

  lemma {:induction false} KeyStored<K, V>(calls: seq<Call<K, V>>, k: K)
    requires k in Run(calls).contents && k in Stamps(calls)
    ensures InsertedAt(calls, k, Stamps(calls)[k])
  {
    hide Step, WellFormed, InsertedAt;
    var now := |calls| - 1;
    var most, c := calls[..now], calls[now];
    RunWellFormed(most);
    StepStores(Run(most), c);
    OrderIsInsertionOrder(most);
    assert SetOf(Run(most).order) == Run(most).contents.Keys by { BothKeySets(most); }
    if k in Run(most).contents {
      KeyStored(most, k);
      MapsAtTheEnd(most, k, Stamps(most)[k]);
      StillInserted(calls, k, Stamps(most)[k]);
    } else {
      JustInserted(calls, k);
    }
  }

  lemma BothKeySets<K, V>(calls: seq<Call<K, V>>)
    ensures SetOf(Run(calls).order) == Run(calls).contents.Keys == Stamps(calls).Keys
  {
    hide Run, Stamps;
    RunWellFormed(calls);
    OrderIsInsertionOrder(calls);
  }

  lemma MapsAtTheEnd<K, V>(calls: seq<Call<K, V>>, k: K, s: nat)
    requires InsertedAt(calls, k, s)
    ensures s < |calls| && Maps(Run(calls), k, calls[s].v)
  {
    assert calls[..|calls|] == calls;
  }

  lemma StillInserted<K, V>(calls: seq<Call<K, V>>, k: K, s: nat)
    requires calls != [] && InsertedAt(calls[..|calls| - 1], k, s)
    requires Maps(Run(calls), k, calls[s].v)
    ensures InsertedAt(calls, k, s)
  {
    hide Run, Maps;
    var most := calls[..|calls| - 1];
    assert most[..s] == calls[..s];
    forall i | s < i <= |calls| ensures Maps(Run(calls[..i]), k, calls[s].v) {
      if i < |calls| { assert most[..i] == calls[..i]; } else { assert calls[..i] == calls; }
    }
  }

  lemma JustInserted<K, V>(calls: seq<Call<K, V>>, k: K)
    requires calls != []
    requires var c := calls[|calls| - 1];
             (c.Emplace? || c.Insert?) && c.k == k && Maps(Run(calls), k, c.v)
    requires k !in Run(calls[..|calls| - 1]).contents
    ensures InsertedAt(calls, k, |calls| - 1)
  {
    hide Run, Maps;
    assert calls[..|calls|] == calls;
  }

  /** One call: what it removes, what it adds, and that nothing else changes. */
  lemma StepStores<K, V>(m: Model<K, V>, c: Call<K, V>)
    requires WellFormed(m)
    ensures forall k | k in Step(m, c).contents ::
              if k in m.contents then Step(m, c).contents[k] == m.contents[k]
              else (c.Emplace? || c.Insert?) && k == c.k && Step(m, c).contents[k] == c.v
    ensures forall k | k in m.contents ::
              k !in Step(m, c).contents <==>
              (c.EraseKey? && k == c.k) ||
              (c.EraseRange? && c.first <= c.last <= |m.order| && k in m.order[c.first..c.last])
    ensures (c.Emplace? || c.Insert?) ==> c.k in Step(m, c).contents
  {
    hide Without;
  }

  // ---- the code: one vector, shifted in place ----

  /** A mapped value; a move leaves an unspecified value behind. */
  datatype Slot<V> = Live(v: V) | MovedFrom

  datatype Entry<K, V> = Entry(key: K, slot: Slot<V>)

  class OrderedMap<K(==), V> {
    var data: seq<Entry<K, V>>

    ghost predicate Valid()
      reads this
    {
      && (forall i | 0 <= i < |data| :: data[i].slot.Live?)
      && (forall i, j | 0 <= i < j < |data| :: data[i].key != data[j].key)
    }

    ghost function Abstract(): Model<K, V>
      reads this
      requires Valid()
    {
      ModelOf(data)
    }

    constructor ()
      ensures Valid() && Abstract() == Model([], map[])
    {
      data := [];
    }

    /** find: the position of key, or the size when it is absent. */
    method Find(key: K) returns (pos: nat)
      requires Valid()
      ensures pos <= |data|
      ensures pos < |data| <==> key in Abstract().contents
      ensures pos < |data| ==> data[pos].key == key
    {
      pos := 0;
      while pos < |data|
        invariant pos <= |data|
        invariant forall i | 0 <= i < pos :: data[i].key != key
      {
        if data[pos].key == key {
          KeyPresent(data, pos);
          return;
        }
        pos := pos + 1;
      }
      KeyAbsent(data, key);
    }

    /** at: the value, or an out_of_range exception. */
    method At(key: K) returns (v: Option<V>)
      requires Valid()
      ensures v == if key in Abstract().contents then Some(Abstract().contents[key]) else None
    {
      var pos := Find(key);
      if pos < |data| {
        KeyPresent(data, pos);
        return Some(data[pos].slot.v);
      }
      return None;
    }

    method Emplace(key: K, v: V) returns (pos: nat, inserted: bool)
      requires Valid()
      modifies this
      ensures Valid() && Abstract() == Emplaced(old(Abstract()), key, v)
      ensures inserted <==> key !in old(Abstract()).contents
      ensures pos < |data| && data[pos].key == key
    {
      pos := Find(key);
      inserted := pos == |data|;
      if inserted {
        PushBackModel(data, Entry(key, Live(v)));
        data := data + [Entry(key, Live(v))];
      }
    }

    /** insert(first, last): every pair in turn. */
    method InsertAll(pairs: seq<(K, V)>)
      requires Valid()
      modifies this
      ensures Valid() && Abstract() == EmplacedAll(old(Abstract()), pairs)
    {
      for i := 0 to |pairs|
        invariant Valid()
        invariant EmplacedAll(Abstract(), pairs[i..]) == EmplacedAll(old(Abstract()), pairs)
      {
        assert pairs[i..][1..] == pairs[i + 1..];
        var _, _ := Emplace(pairs[i].0, pairs[i].1);
      }
    }

    /** erase(key): every later pair is rebuilt one place further down, then the last one is dropped. */
    method EraseKey(key: K) returns (count: nat)
      requires Valid()
      modifies this
      ensures Valid() && Abstract() == Erased(old(Abstract()), key)
      ensures count == if key in old(Abstract()).contents then 1 else 0
    {
      hide Contents, Without, ErasedRange, Shifted;
      var it: nat := Find(key);
      EraseKeyModel(data, key);
      if it == |data| {
        return 0;
      }
      ghost var was, from := data, it;
      var next := it + 1;
      NotShifted(data, it, 1);
      while next != |data|
        invariant |data| == |was| && from <= it && next == it + 1 <= |data|
        invariant Shifted(was, data, from, 1, it)
        decreases |data| - next
      {
        ShiftOne(was, data, from, 1, it);
        data := data[it := Entry(data[next].key, data[next].slot)];
        data := data[next := Entry(data[next].key, MovedFrom)];
        it := it + 1;
        next := next + 1;
      }
      ShiftedAll(was, data, from, 1, it);
      data := data[..|data| - 1];
      CutModel(was, from, from + 1);
      return 1;
    }

    /** erase(first, last): the pairs after the range are rebuilt over it, then the vector is resized. */
    method EraseRange(first: nat, last: nat) returns (pos: nat)
      requires Valid() && first <= last <= |data|
      modifies this
      ensures Valid() && Abstract() == ErasedRange(old(Abstract()), first, last)
      ensures pos == first
    {
      hide Contents, ErasedRange, Shifted;
      CutNothing(data, first);
      if first == last {
        return first;
      }
      var affected, offset := last - first, first;
      ghost var was := data;
      var it: nat := first;
      NotShifted(data, first, affected);
      while it + affected != |data|
        invariant |data| == |was| && first <= it && it + affected <= |data|
        invariant Shifted(was, data, first, affected, it)
        decreases |data| - it
      {
        ShiftOne(was, data, first, affected, it);
        var next := it + affected;
        data := data[it := Entry(data[next].key, data[next].slot)];
        data := data[next := Entry(data[next].key, MovedFrom)];
        it := it + 1;
      }
      ShiftedAll(was, data, first, affected, it);
      data := data[..|data| - affected];
      CutModel(was, first, last);
      return offset;
    }

    /** Any sequence of calls on a fresh map gives the abstract run. */
    method Replay(calls: seq<Call<K, V>>)
      requires Valid() && Abstract() == Model([], map[])
      modifies this
      ensures Valid() && Abstract() == Run(calls)
    {
      for i := 0 to |calls|
        invariant Valid() && Abstract() == Run(calls[..i])
      {
        assert calls[..i + 1][..i] == calls[..i];
        match calls[i] {
          case Emplace(k, v) => var _, _ := Emplace(k, v);
          case Insert(k, v) => var _, _ := Emplace(k, v);
          case EraseKey(k) => var _ := EraseKey(k);
          case EraseRange(a, b) =>
            assert |Abstract().order| == |data|;
            if a <= b <= |data| { var _ := EraseRange(a, b); }
        }
      }
      assert calls[..|calls|] == calls;
    }
  }

  // ---- the vector and the map it stands for ----

  ghost predicate Stored<K, V>(data: seq<Entry<K, V>>) {
    && (forall i | 0 <= i < |data| :: data[i].slot.Live?)
    && (forall i, j | 0 <= i < j < |data| :: data[i].key != data[j].key)
  }

  function Keys<K, V>(data: seq<Entry<K, V>>): (ks: seq<K>)
    ensures |ks| == |data| && forall i | 0 <= i < |data| :: ks[i] == data[i].key
  {
    seq(|data|, i requires 0 <= i < |data| => data[i].key)
  }

  function Contents<K(==), V>(data: seq<Entry<K, V>>): map<K, V>
    requires forall i | 0 <= i < |data| :: data[i].slot.Live?
  {
    if data == [] then map[] else Contents(data[..|data| - 1])[data[|data| - 1].key := data[|data| - 1].slot.v]
  }

  ghost function ModelOf<K, V>(data: seq<Entry<K, V>>): Model<K, V>
    requires Stored(data)
  {
    Model(Keys(data), Contents(data))
  }

  lemma {:induction false} ContentsOfStored<K, V>(data: seq<Entry<K, V>>)
    requires Stored(data)
    ensures Contents(data).Keys == SetOf(Keys(data))
    ensures forall i | 0 <= i < |data| :: data[i].key in Contents(data) && Contents(data)[data[i].key] == data[i].slot.v
  {
    if data != [] {
      var most, last := data[..|data| - 1], data[|data| - 1];
      ContentsOfStored(most);
      assert Keys(data) == Keys(most) + [last.key];
      forall i | 0 <= i < |data| ensures data[i].key in Contents(data) && Contents(data)[data[i].key] == data[i].slot.v {
        if i < |most| { assert most[i] == data[i] && data[i].key != last.key; }
      }
    }
  }

  lemma KeyPresent<K, V>(data: seq<Entry<K, V>>, pos: nat)
    requires Stored(data) && pos < |data|
    ensures data[pos].key in Contents(data) && Contents(data)[data[pos].key] == data[pos].slot.v
  {
    ContentsOfStored(data);
  }

  lemma KeyAbsent<K, V>(data: seq<Entry<K, V>>, key: K)
    requires Stored(data) && forall i | 0 <= i < |data| :: data[i].key != key
    ensures key !in Contents(data)
  {
    ContentsOfStored(data);
  }

  lemma StoredWellFormed<K, V>(data: seq<Entry<K, V>>)
    requires Stored(data)
    ensures WellFormed(ModelOf(data))
  {
    ContentsOfStored(data);
  }

  /** The part of the vector below it has closed the gap of n places at first; the part from it + n on is as it
      was; what lies between is moved from or about to be overwritten. */
  ghost predicate Shifted<K, V>(was: seq<Entry<K, V>>, data: seq<Entry<K, V>>, first: nat, n: nat, it: nat) {
    && |data| == |was| && first <= it && it + n <= |was|
    && (forall i | 0 <= i < first :: data[i] == was[i])
    && (forall i | first <= i < it :: data[i] == was[i + n])
    && (forall i | it + n <= i < |was| :: data[i] == was[i])
  }

  lemma NotShifted<K, V>(data: seq<Entry<K, V>>, first: nat, n: nat)
    requires first + n <= |data|
    ensures Shifted(data, data, first, n, first)
  {
  }

  lemma ShiftOne<K, V>(was: seq<Entry<K, V>>, data: seq<Entry<K, V>>, first: nat, n: nat, it: nat)
    requires Shifted(was, data, first, n, it) && n > 0 && it + n < |data|
    ensures var moved := data[it := Entry(data[it + n].key, data[it + n].slot)];
            Shifted(was, moved[it + n := Entry(moved[it + n].key, MovedFrom)], first, n, it + 1)
  {
  }

  lemma ShiftedAll<K, V>(was: seq<Entry<K, V>>, data: seq<Entry<K, V>>, first: nat, n: nat, it: nat)
    requires Shifted(was, data, first, n, it) && it + n == |data|
    ensures data[..|data| - n] == was[..first] + was[first + n..]
  {
  }

  lemma CutNothing<K, V>(data: seq<Entry<K, V>>, at: nat)
    requires Stored(data) && at <= |data|
    ensures ErasedRange(ModelOf(data), at, at) == ModelOf(data)
  {
    hide Contents;
    var m := ModelOf(data);
    assert m.order[..at] + m.order[at..] == m.order;
    assert SetOf(m.order[at..at]) == {};
    assert m.contents - {} == m.contents;
  }

  /** Erasing a key of the abstract map, seen on the vector. */
  lemma EraseKeyModel<K, V>(data: seq<Entry<K, V>>, key: K)
    requires Stored(data)
    ensures key !in Contents(data) ==> Erased(ModelOf(data), key) == ModelOf(data)
    ensures forall i | 0 <= i < |data| && data[i].key == key :: Erased(ModelOf(data), key) == ErasedRange(ModelOf(data), i, i + 1)
  {
    StoredWellFormed(data);
    ErasedIsCut(ModelOf(data), key);
    assert forall i | 0 <= i < |data| :: Keys(data)[i] == data[i].key;
  }

  lemma PushBackModel<K, V>(data: seq<Entry<K, V>>, e: Entry<K, V>)
    requires Stored(data) && e.slot.Live? && e.key !in Contents(data)
    ensures Stored(data + [e])
    ensures ModelOf(data + [e]) == Emplaced(ModelOf(data), e.key, e.slot.v)
  {
    var more := data + [e];
    ContentsOfStored(data);
    assert more[..|data|] == data;
    forall i | 0 <= i < |data| ensures data[i].key != e.key { KeyPresent(data, i); }
    assert Keys(more) == Keys(data) + [e.key];
  }

  lemma CutModel<K, V>(data: seq<Entry<K, V>>, first: nat, last: nat)
    requires Stored(data) && first <= last <= |data|
    ensures Stored(data[..first] + data[last..])
    ensures ModelOf(data[..first] + data[last..]) == ErasedRange(ModelOf(data), first, last)
  {
    hide Contents;
    var cut := data[..first] + data[last..];
    assert Keys(cut) == Keys(data)[..first] + Keys(data)[last..];
    CutKeepsOthers(Keys(data), first, last);
    ContentsOfStored(data);
    ContentsOfStored(cut);
    CutContents(data, first, last);
  }

  lemma CutContents<K, V>(data: seq<Entry<K, V>>, first: nat, last: nat)
    requires Stored(data) && first <= last <= |data|
    requires Stored(data[..first] + data[last..])
    requires Contents(data[..first] + data[last..]).Keys == Contents(data).Keys - SetOf(Keys(data)[first..last])
    ensures Contents(data[..first] + data[last..]) == Contents(data) - SetOf(Keys(data)[first..last])
  {
    hide Contents, SetOf;
    var cut := data[..first] + data[last..];
    forall k | k in Contents(cut) ensures k in Contents(data) && Contents(cut)[k] == Contents(data)[k] {
      var i := PlaceOf(cut, k);
      KeyPresent(data, if i < first then i else i + (last - first));
    }
  }

  lemma PlaceOf<K, V>(data: seq<Entry<K, V>>, k: K) returns (i: nat)
    requires Stored(data) && k in Contents(data)
    ensures i < |data| && data[i].key == k && Contents(data)[k] == data[i].slot.v
  {
    hide Contents;
    ContentsOfStored(data);
    assert k in SetOf(Keys(data));
    i :| 0 <= i < |data| && Keys(data)[i] == k;
  }

  function EmplacedAll<K(==), V>(m: Model<K, V>, pairs: seq<(K, V)>): Model<K, V>
    decreases |pairs|
  {
    if pairs == [] then m else EmplacedAll(Emplaced(m, pairs[0].0, pairs[0].1), pairs[1..])
  }

  function Inserts<K, V>(pairs: seq<(K, V)>): (calls: seq<Call<K, V>>)
    ensures |calls| == |pairs| && forall i | 0 <= i < |pairs| :: calls[i] == Insert(pairs[i].0, pairs[i].1)
  {
    seq(|pairs|, i requires 0 <= i < |pairs| => Insert(pairs[i].0, pairs[i].1))
  }

  /** Inserting a range is a run of single insertions, so of two pairs with one key the first is stored. */
  lemma {:induction false} RangeIsInserts<K, V>(calls: seq<Call<K, V>>, pairs: seq<(K, V)>)
    ensures EmplacedAll(Run(calls), pairs) == Run(calls + Inserts(pairs))
    decreases |pairs|
  {
    if pairs == [] {
      assert calls + Inserts(pairs) == calls;
    } else {
      var next := calls + [Insert(pairs[0].0, pairs[0].1)];
      assert next[..|calls|] == calls;
      RangeIsInserts(next, pairs[1..]);
      assert calls + Inserts(pairs) == next + Inserts(pairs[1..]);
    }
  }
}
