/** Positional notation: how numbers are printed and read back in a base, most significant digit first.
    Array indices in JSON pointers (base 10) and the hand's identifier strings (bases 2, 16 and 256) use it. */
module Digits {
  function Render(n: nat, base: nat): (ds: seq<nat>)
    requires base >= 2
  {
    if n < base then [n] else
      DivShrinks(n, base);
      Render(n / base, base) + [n % base]
  }

  lemma DivShrinks(n: nat, base: nat)
    requires 2 <= base <= n
    ensures 0 < n / base < n
    ensures n / base * base + n % base == n
  {
    var q := n / base;
    assert n == q * base + n % base;
    MulMonotone(2, base, q);
  }

  lemma MulMonotone(a: nat, b: nat, c: nat)
    requires a <= b
    ensures a * c <= b * c
  {
    assert (b - a) * c >= 0;
  }

  function Value(ds: seq<nat>, base: nat): nat {
    if ds == [] then 0 else Value(ds[..|ds| - 1], base) * base + ds[|ds| - 1]
  }

  /** The digit strings that Render produces: no leading zero, except for zero itself. */
  predicate Canonical(ds: seq<nat>, base: nat) {
    && ds != []
    && (|ds| > 1 ==> ds[0] != 0)
    && forall i | 0 <= i < |ds| :: ds[i] < base
  }

  lemma {:induction false} RenderReadsBack(n: nat, base: nat)
    requires base >= 2
    ensures Value(Render(n, base), base) == n
    ensures Canonical(Render(n, base), base)
    ensures n > 0 ==> Render(n, base)[0] != 0
  {
    if n < base {
      assert [n][..0] == [];
      assert Value([n][..0], base) == 0;
    } else {
      var high := Render(n / base, base);
      DivShrinks(n, base);
      RenderReadsBack(n / base, base);
      assert (high + [n % base])[..|high|] == high;
    }
  }

  lemma DivModUnique(q: nat, r: nat, base: nat)
    requires r < base
    ensures (q * base + r) / base == q
    ensures (q * base + r) % base == r
  {
    var n := q * base + r;
    var q', r' := n / base, n % base;
    assert q' * base + r' == q * base + r;
    if q' < q {
      MulMonotone(q' + 1, q, base);
    } else if q < q' {
      MulMonotone(q + 1, q', base);
    }
  }

  lemma MulAtLeast(k: nat, base: nat)
    requires k >= 1
    ensures k * base >= base
  {
  }

  lemma {:induction false} CanonicalIsRendered(ds: seq<nat>, base: nat)
    requires base >= 2 && Canonical(ds, base)
    ensures Render(Value(ds, base), base) == ds
  {
    if |ds| == 1 {
      assert ds[..0] == [];
      assert ds == [ds[0]];
    } else {
      var high, last := ds[..|ds| - 1], ds[|ds| - 1];
      CanonicalIsRendered(high, base);
      assert Value(high, base) > 0 by { PositiveValue(high, base); }
      DivModUnique(Value(high, base), last, base);
      assert Value(ds, base) >= base by { MulAtLeast(Value(high, base), base); }
      assert ds == high + [last];
    }
  }

  lemma {:induction false} PositiveValue(ds: seq<nat>, base: nat)
    requires ds != [] && ds[0] != 0 && base >= 1
    ensures Value(ds, base) > 0
  {
    if |ds| > 1 {
      PositiveValue(ds[..|ds| - 1], base);
      MulAtLeast(Value(ds[..|ds| - 1], base), base);
    } else {
      assert ds[..0] == [];
    }
  }

  /** Bounds that tie the number of digits to the size of the number. */
  function Power(base: nat, e: nat): nat {
    if e == 0 then 1 else base * Power(base, e - 1)
  }

  lemma {:induction false} ValueBounded(ds: seq<nat>, base: nat)
    requires base >= 1
    requires forall i | 0 <= i < |ds| :: ds[i] < base
    ensures Value(ds, base) < Power(base, |ds|)
  {
    if ds != [] {
      var high := ds[..|ds| - 1];
      ValueBounded(high, base);
      AppendDigitBounded(Value(high, base), ds[|ds| - 1], Power(base, |high|), base);
    }
  }

  lemma AppendDigitBounded(v: nat, d: nat, p: nat, base: nat)
    requires v < p && d < base
    ensures v * base + d < base * p
  {
    MulMonotone(v + 1, p, base);
  }

  lemma {:induction false} ValueConcat(a: seq<nat>, b: seq<nat>, base: nat)
    ensures Value(a + b, base) == Value(a, base) * Power(base, |b|) + Value(b, base)
    decreases |b|
  {
    if b == [] {
      assert a + b == a;
    } else {
      var high := b[..|b| - 1];
      ValueConcat(a, high, base);
      assert (a + b)[..|a + b| - 1] == a + high;
      ShiftedSum(Value(a, base), Power(base, |high|), Value(high, base), base, b[|b| - 1]);
    }
  }

  lemma ShiftedSum(x: nat, p: nat, y: nat, base: nat, d: nat)
    ensures (x * p + y) * base + d == x * (base * p) + (y * base + d)
  {
  }

  lemma {:induction false} ValueAtLeast(ds: seq<nat>, base: nat)
    requires ds != [] && ds[0] >= 1 && base >= 1
    ensures Value(ds, base) >= Power(base, |ds| - 1)
  {
    if |ds| > 1 {
      var high := ds[..|ds| - 1];
      ValueAtLeast(high, base);
      MulMonotone(Power(base, |high| - 1), Value(high, base), base);
    } else {
      assert ds[..0] == [];
    }
  }

  lemma {:induction false} PowerSum(base: nat, a: nat, b: nat)
    ensures Power(base, a + b) == Power(base, a) * Power(base, b)
  {
    if a > 0 {
      PowerSum(base, a - 1, b);
      MulAssociates(base, Power(base, a - 1), Power(base, b));
    }
  }

  lemma MulAssociates(x: nat, y: nat, z: nat)
    ensures x * (y * z) == x * y * z
  {
  }

  lemma {:induction false} PowerGrows(base: nat, a: nat, b: nat)
    requires base >= 1 && a <= b
    ensures 1 <= Power(base, a) <= Power(base, b)
    decreases b
  {
    if a < b {
      PowerGrows(base, a, b - 1);
      MulMonotone(1, base, Power(base, b - 1));
    } else if a > 0 {
      PowerGrows(base, a - 1, a - 1);
      MulMonotone(1, base, Power(base, a - 1));
    }
  }

  /** The number of digits is fixed by the powers that enclose the number. */
  lemma RenderLength(n: nat, base: nat, k: nat)
    requires base >= 2 && k >= 1 && Power(base, k - 1) <= n < Power(base, k)
    ensures |Render(n, base)| == k
  {
    var ds := Render(n, base);
    PowerGrows(base, 0, k - 1);
    RenderReadsBack(n, base);
    ValueBounded(ds, base);
    ValueAtLeast(ds, base);
    if |ds| < k {
      PowerGrows(base, |ds|, k - 1);
    } else if |ds| > k {
      PowerGrows(base, k, |ds| - 1);
    }
  }

  /** Leading zeros do not change the value. */
  lemma {:induction false} LeadingZero(ds: seq<nat>, base: nat)
    requires ds != [] && ds[0] == 0
    ensures Value(ds, base) == Value(ds[1..], base)
    decreases |ds|
  {
    if |ds| == 1 {
      assert ds[..0] == [] && ds[1..] == [];
    } else {
      LeadingZero(ds[..|ds| - 1], base);
      assert ds[..|ds| - 1][1..] == ds[1..][..|ds| - 2];
    }
  }
}
