/** Small shared vocabulary: optional values, refusals, and exact real arithmetic. */
module Prelude {
  datatype Option<+T> = None | Some(value: T)

  datatype Result<+T, +E> = Ok(value: T) | Err(error: E)

  /** Some element of a non-empty set, in no particular order. */
  method AnyOf<T(==)>(s: set<T>) returns (x: T)
    requires s != {}
    ensures x in s
  {
    x :| x in s;
  }

  function AbsR(x: real): real {
    if x < 0.0 then -x else x
  }

  function MinR(a: real, b: real): real {
    if a <= b then a else b
  }

  function MaxR(a: real, b: real): real {
    if a <= b then b else a
  }

  /** The least integer at or above. */
  function Ceiling(x: real): (c: int)
    ensures x <= c as real < x + 1.0
  {
    -((-x).Floor)
  }

  // Nonlinear facts, one at a time, for the solver's sake.

  lemma ProductNonNegative(x: real, y: real)
    requires x >= 0.0 && y >= 0.0
    ensures x * y >= 0.0
  {
  }

  lemma ProductPositive(x: real, y: real)
    requires x > 0.0 && y > 0.0
    ensures x * y > 0.0
  {
  }

  lemma SquarePositive(n: real, y: real)
    requires n > 0.0 && y == n * n
    ensures y > 0.0
  {
    ProductNonNegative(n, n);
    assert y * (1.0 / n) == n;
  }

  lemma ProductMonotone(x: real, y: real, w: real)
    requires x <= y && w >= 0.0
    ensures x * w <= y * w
  {
    ProductNonNegative(y - x, w);
    assert (y - x) * w == y * w - x * w;
  }

  lemma Distribute(x: real, y: real, w: real)
    ensures (x + y) * w == x * w + y * w
    ensures (x - y) * w == x * w - y * w
  {
  }

  lemma QuotientTimes(v: real, w: real)
    requires w != 0.0
    ensures v / w * w == v
  {
  }

  lemma QuotientWithin(total: real, n: real, lo: real, hi: real)
    requires n > 0.0 && n * lo <= total <= n * hi
    ensures lo <= total / n <= hi
  {
    var mean := total / n;
    QuotientTimes(total, n);
    Distribute(lo, mean, n);
    Distribute(mean, hi, n);
    if mean < lo { ProductPositive(lo - mean, n); }
    if mean > hi { ProductPositive(mean - hi, n); }
  }
}

/** Sums of sequences of reals. */
module Sums {
  function Sum(s: seq<real>): real {
    if s == [] then 0.0 else s[0] + Sum(s[1..])
  }

  lemma {:induction false} SumAppend(s: seq<real>, x: real)
    ensures Sum(s + [x]) == Sum(s) + x
  {
    if s != [] {
      assert (s + [x])[1..] == s[1..] + [x];
      SumAppend(s[1..], x);
    }
  }

  lemma {:induction false} SumConcat(s: seq<real>, t: seq<real>)
    ensures Sum(s + t) == Sum(s) + Sum(t)
  {
    if s == [] {
      assert s + t == t;
    } else {
      assert (s + t)[1..] == s[1..] + t;
      SumConcat(s[1..], t);
    }
  }

  /** Differences add up term by term. */
  lemma {:induction false} SumDominates(x: seq<real>, y: seq<real>, u: seq<real>, v: seq<real>)
    requires |x| == |y| == |u| == |v|
    requires forall i :: 0 <= i < |x| ==> x[i] - y[i] >= u[i] - v[i]
    ensures Sum(x) - Sum(y) >= Sum(u) - Sum(v)
  {
    if x != [] {
      SumDominates(x[1..], y[1..], u[1..], v[1..]);
    }
  }

  lemma {:induction false} SumScales(x: seq<real>, y: seq<real>, c: real)
    requires |x| == |y| && forall i :: 0 <= i < |x| ==> y[i] == c * x[i]
    ensures Sum(y) == c * Sum(x)
  {
    if x != [] {
      SumScales(x[1..], y[1..], c);
      assert c * (x[0] + Sum(x[1..])) == c * x[0] + c * Sum(x[1..]);
    }
  }

  lemma {:induction false} SumBounds(x: seq<real>, y: seq<real>)
    requires |x| == |y| && forall i :: 0 <= i < |x| ==> x[i] <= y[i]
    ensures Sum(x) <= Sum(y)
  {
    if x != [] {
      SumBounds(x[1..], y[1..]);
    }
  }
}

/** Adding up the values of a finite map, in no particular order. */
module MapSums {
  ghost function MapSum<K(!new)>(m: map<K, real>): real
    decreases |m|
  {
    if m == map[] then 0.0
    else
      var k :| k in m;
      m[k] + MapSum(m - {k})
  }

  /** Any key may be taken out first. */
  lemma {:induction false} MapSumTakes<K(!new)>(m: map<K, real>, k: K)
    requires k in m
    ensures MapSum(m) == m[k] + MapSum(m - {k})
    decreases |m|
  {
    var first :| first in m && MapSum(m) == m[first] + MapSum(m - {first});
    if first != k {
      MapSumTakes(m - {first}, k);
      MapSumTakes(m - {k}, first);
      assert m - {first} - {k} == m - {k} - {first};
    }
  }

  lemma MapSumPut<K(!new)>(m: map<K, real>, k: K, v: real)
    ensures MapSum(m[k := v]) == v + MapSum(m - {k})
  {
    MapSumTakes(m[k := v], k);
    assert m[k := v] - {k} == m - {k};
  }

  /** Two maps that balance two others key by key balance them in total. */
  lemma {:induction false} MapSumBalances<K(!new)>(a: map<K, real>, b: map<K, real>, c: map<K, real>, d: map<K, real>)
    requires a.Keys == b.Keys == c.Keys == d.Keys
    requires forall k :: k in a ==> a[k] + b[k] == c[k] + d[k]
    ensures MapSum(a) + MapSum(b) == MapSum(c) + MapSum(d)
    decreases |a|
  {
    if k :| k in a {
      MapSumBalances(a - {k}, b - {k}, c - {k}, d - {k});
      MapSumTakes(a, k);
      MapSumTakes(b, k);
      MapSumTakes(c, k);
      MapSumTakes(d, k);
    } else {
      assert a == b == c == d == map[];
    }
  }

  /** Zeros add nothing. */
  lemma {:induction false} MapSumPads<K(!new)>(m: map<K, real>, padded: map<K, real>)
    requires m.Keys <= padded.Keys
    requires forall k :: k in padded ==> padded[k] == if k in m then m[k] else 0.0
    ensures MapSum(padded) == MapSum(m)
    decreases |padded|
  {
    if k :| k in padded {
      MapSumPads(m - {k}, padded - {k});
      MapSumTakes(padded, k);
      MapSumSplit(m, k);
    } else {
      assert m == padded == map[];
    }
  }

  lemma {:induction false} MapSumSplit<K(!new)>(m: map<K, real>, k: K)
    ensures MapSum(m) == (if k in m then m[k] else 0.0) + MapSum(m - {k})
  {
    if k in m {
      MapSumTakes(m, k);
    } else {
      assert m - {k} == m;
    }
  }
}

/** Code-point order on tickers, as Python's `sorted` compares strings. */
module TextOrder {
  import Sorting

  predicate StrLt(a: string, b: string) {
    if b == "" then false
    else if a == "" then true
    else if a[0] != b[0] then a[0] < b[0]
    else StrLt(a[1..], b[1..])
  }

  lemma {:induction false} StrLtIrreflexive(a: string)
    ensures !StrLt(a, a)
  {
    if a != "" {
      StrLtIrreflexive(a[1..]);
    }
  }

  lemma {:induction false} StrLtTransitive(a: string, b: string, c: string)
    requires StrLt(a, b) && StrLt(b, c)
    ensures StrLt(a, c)
  {
    if a != "" && a[0] == b[0] && b[0] == c[0] {
      StrLtTransitive(a[1..], b[1..], c[1..]);
    }
  }

  lemma {:induction false} StrLtConnected(a: string, b: string)
    requires a != b
    ensures StrLt(a, b) || StrLt(b, a)
  {
    if a != "" && b != "" && a[0] == b[0] {
      assert a == [a[0]] + a[1..] && b == [b[0]] + b[1..];
      StrLtConnected(a[1..], b[1..]);
    }
  }

  /** Strictly increasing sequences of tickers. */
  ghost predicate Increasing(s: seq<string>) {
    forall i, j :: 0 <= i < j < |s| ==> StrLt(s[i], s[j])
  }

  ghost function Members(s: seq<string>): set<string> {
    set t | t in s
  }

  /** Place `t` in an increasing sequence that does not hold it yet. */
  function Insert(t: string, s: seq<string>): (r: seq<string>) {
    Sorting.Place(t, s, StrLt)
  }

  lemma {:induction false} InsertKeepsOrder(t: string, s: seq<string>)
    requires Increasing(s) && t !in s
    ensures Increasing(Insert(t, s))
    ensures Members(Insert(t, s)) == Members(s) + {t}
  {
    if s == [] {
    } else if StrLt(t, s[0]) {
      forall j | 0 <= j < |s| ensures StrLt(t, s[j]) {
        if j > 0 { StrLtTransitive(t, s[0], s[j]); }
      }
    } else {
      var r := Insert(t, s[1..]);
      InsertKeepsOrder(t, s[1..]);
      StrLtConnected(t, s[0]);
      assert s == [s[0]] + s[1..];
      forall j | 0 <= j < |r| ensures StrLt(s[0], r[j]) {
        assert r[j] in Members(r);
        if r[j] != t {
          var k :| 0 <= k < |s[1..]| && s[1..][k] == r[j];
          assert StrLt(s[0], s[k + 1]);
        }
      }
      assert Members([s[0]] + r) == Members(r) + {s[0]};
      assert Members(s) == Members(s[1..]) + {s[0]};
    }
  }

  /** The members of a set, listed in increasing order. */
  method Sorted(ts: set<string>) returns (r: seq<string>)
    ensures Increasing(r)
    ensures Members(r) == ts
  {
    r := [];
    var todo := ts;
    while todo != {}
      invariant todo <= ts && Increasing(r) && Members(r) == ts - todo
      decreases |todo|
    {
      var t :| t in todo;
      assert t !in Members(r);
      InsertKeepsOrder(t, r);
      r := Insert(t, r);
      todo := todo - {t};
    }
  }
}
