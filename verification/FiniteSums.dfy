/** Sums over finite maps, and the least and greatest key of a finite map.
    The ledger keeps its amounts in ordered key-value maps; an absent key reads as zero. */
module FiniteSums {

  /** `map.get(k).unwrap_or_default()` */
  function Get<K>(m: map<K, nat>, k: K): nat {
    if k in m then m[k] else 0
  }

  function GetInt<K>(m: map<K, int>, k: K): int {
    if k in m then m[k] else 0
  }

  ghost function Sum<K>(m: map<K, int>): int
    decreases m.Keys
  {
    if m == map[] then 0
    else
      var k :| k in m;
      m[k] + Sum(m - {k})
  }

  lemma {:induction false} SumWithout<K>(m: map<K, int>, k: K)
    ensures Sum(m) == GetInt(m, k) + Sum(m - {k})
    decreases m.Keys
  {
    if k !in m {
      assert m - {k} == m;
    } else {
      var p :| p in m && Sum(m) == m[p] + Sum(m - {p});
      if p != k {
        SumWithout(m - {p}, k);
        SumWithout(m - {k}, p);
        assert m - {p} - {k} == m - {k} - {p};
      }
    }
  }

  lemma {:induction false} SumUpdate<K>(m: map<K, int>, k: K, v: int)
    ensures Sum(m[k := v]) == Sum(m) - GetInt(m, k) + v
  {
    SumWithout(m, k);
    SumWithout(m[k := v], k);
    assert m[k := v] - {k} == m - {k};
  }

  /** If `c` is entry by entry the sum of `a` and `b`, then so are the totals. */
  lemma SumPointwise<K>(a: map<K, int>, b: map<K, int>, c: map<K, int>)
    requires forall k :: GetInt(c, k) == GetInt(a, k) + GetInt(b, k)
    ensures Sum(c) == Sum(a) + Sum(b)
  {
    SumPointwiseOn(a.Keys + b.Keys + c.Keys, a, b, c);
  }

  lemma {:induction false} SumPointwiseOn<K>(ks: set<K>, a: map<K, int>, b: map<K, int>, c: map<K, int>)
    requires a.Keys <= ks && b.Keys <= ks && c.Keys <= ks
    requires forall k | k in ks :: GetInt(c, k) == GetInt(a, k) + GetInt(b, k)
    ensures Sum(c) == Sum(a) + Sum(b)
    decreases ks
  {
    if ks == {} {
      assert a == map[] && b == map[] && c == map[];
    } else {
      var k :| k in ks;
      SumWithout(a, k);
      SumWithout(b, k);
      SumWithout(c, k);
      SumPointwiseOn(ks - {k}, a - {k}, b - {k}, c - {k});
    }
  }

  lemma SumMonotone<K>(a: map<K, int>, b: map<K, int>)
    requires forall k :: GetInt(a, k) <= GetInt(b, k)
    ensures Sum(a) <= Sum(b)
  {
    SumMonotoneOn(a.Keys + b.Keys, a, b);
  }

  lemma {:induction false} SumMonotoneOn<K>(ks: set<K>, a: map<K, int>, b: map<K, int>)
    requires a.Keys <= ks && b.Keys <= ks
    requires forall k | k in ks :: GetInt(a, k) <= GetInt(b, k)
    ensures Sum(a) <= Sum(b)
    decreases ks
  {
    if ks == {} {
      assert a == map[] && b == map[];
    } else {
      var k :| k in ks;
      SumWithout(a, k);
      SumWithout(b, k);
      SumMonotoneOn(ks - {k}, a - {k}, b - {k});
    }
  }

  lemma SumNonNegative<K>(m: map<K, int>)
    requires forall k | k in m :: m[k] >= 0
    ensures Sum(m) >= 0
    ensures forall k | k in m :: m[k] <= Sum(m)
  {
    SumMonotone(map[], m);
    forall k | k in m ensures m[k] <= Sum(m) {
      SumWithout(m, k);
      SumMonotone(map[], m - {k});
    }
  }

  predicate IsMax(s: set<nat>, k: nat) {
    k in s && forall j | j in s :: j <= k
  }

  predicate IsMin(s: set<nat>, k: nat) {
    k in s && forall j | j in s :: k <= j
  }

  /** The total of a map of amounts. */
  ghost function Tally<K>(m: map<K, nat>): nat {
    SumNonNegative(m);
    Sum(m)
  }

  /** The greatest key: the next entry of a descending iteration. */
  function MaxKey(s: set<nat>): (k: nat)
    requires s != {}
    ensures IsMax(s, k)
  {
    MaxExists(s);
    var k :| IsMax(s, k);
    k
  }

  /** The least key: the next entry of an ascending iteration. */
  function MinKey(s: set<nat>): (k: nat)
    requires s != {}
    ensures IsMin(s, k)
  {
    MinExists(s);
    var k :| IsMin(s, k);
    k
  }

  lemma {:induction false} MaxExists(s: set<nat>)
    requires s != {}
    ensures exists k :: IsMax(s, k)
  {
    var x :| x in s;
    if s == {x} {
      assert IsMax(s, x);
    } else {
      MaxExists(s - {x});
      var y :| IsMax(s - {x}, y);
      assert s == (s - {x}) + {x};
      assert IsMax(s, if x <= y then y else x);
    }
  }

  lemma {:induction false} MinExists(s: set<nat>)
    requires s != {}
    ensures exists k :: IsMin(s, k)
  {
    var x :| x in s;
    if s == {x} {
      assert IsMin(s, x);
    } else {
      MinExists(s - {x});
      var y :| IsMin(s - {x}, y);
      assert s == (s - {x}) + {x};
      assert IsMin(s, if x <= y then x else y);
    }
  }
}
