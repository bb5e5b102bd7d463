/**
 Counting by sets of row ids: a `COUNT(*)` is the size of the set of matching rows, so two
 counts agree when the two sets do, and disjoint sources add up.
 */
module Counting {

  /** The largest element of a non-empty set: SQL `MAX`. */
  function MaxOf(s: set<int>): (m: int)
    requires s != {}
    ensures m in s && forall x <- s :: x <= m
  {
    MaxExists(s);
    var m :| m in s && forall x <- s :: x <= m;
    m
  }

  function MinOf(s: set<int>): (m: int)
    requires s != {}
    ensures m in s && forall x <- s :: m <= x
  {
    MinExists(s);
    var m :| m in s && forall x <- s :: m <= x;
    m
  }

  lemma {:induction false} MaxExists(s: set<int>)
    requires s != {}
    ensures exists m :: m in s && forall x <- s :: x <= m
  {
    var a := Pick(s);
    var rest := s - {a};
    assert forall x <- s :: x == a || x in rest;
    var top := a;
    if rest != {} {
      MaxExists(rest);
      var m :| m in rest && forall x <- rest :: x <= m;
      top := if a > m then a else m;
    }
    assert top in s && forall x <- s :: x <= top;
  }

  lemma {:induction false} MinExists(s: set<int>)
    requires s != {}
    ensures exists m :: m in s && forall x <- s :: m <= x
  {
    var a := Pick(s);
    var rest := s - {a};
    assert forall x <- s :: x == a || x in rest;
    var low := a;
    if rest != {} {
      MinExists(rest);
      var m :| m in rest && forall x <- rest :: m <= x;
      low := if a < m then a else m;
    }
    assert low in s && forall x <- s :: low <= x;
  }

  lemma SubsetSize<T>(a: set<T>, b: set<T>)
    requires a <= b
    ensures |a| <= |b|
    ensures |a| == |b| ==> a == b
  {
    assert b == a + (b - a);
    assert |b| == |a| + |b - a|;
  }

  lemma DisjointSize<T>(whole: set<T>, a: set<T>, b: set<T>)
    requires whole == a + b && a !! b
    ensures |whole| == |a| + |b|
  {
  }

  /** A fixed choice from a set, so that definitions and proofs can follow the same order. */
  ghost function Pick<T(!new)>(s: set<T>): (x: T)
    requires s != {}
    ensures x in s
  {
    var x :| x in s; x
  }

  /** SQL `SUM` of a column over a set of keys. */
  ghost function SumOver<K(!new)>(column: map<K, nat>, keys: set<K>): nat
    requires keys <= column.Keys
  {
    if keys == {} then 0
    else var k := Pick(keys); column[k] + SumOver(column, keys - {k})
  }

  /** The rows with a given key, and with a key among several. */
  function WithKey<I, K(==)>(rows: map<I, K>, k: K): set<I> { set i | i in rows && rows[i] == k }
  function WithKeyIn<I, K>(rows: map<I, K>, keys: set<K>): set<I> { set i | i in rows && rows[i] in keys }

  /** Summing per-key counts of a partition counts the whole: no double counting, no loss. */
  lemma {:induction false} SumOfPartition<K(!new), I(!new)>(column: map<K, nat>, keys: set<K>, rows: map<I, K>)
    requires keys <= column.Keys
    requires forall k <- keys :: column[k] == |WithKey(rows, k)|
    ensures SumOver(column, keys) == |WithKeyIn(rows, keys)|
  {
    if keys == {} {
      assert WithKeyIn(rows, keys) == {};
    } else {
      var k := Pick(keys);
      SumOfPartition(column, keys - {k}, rows);
      DisjointSize(WithKeyIn(rows, keys), WithKey(rows, k), WithKeyIn(rows, keys - {k}));
    }
  }

  /** The rows a `LIMIT` lets a statement touch: some of the matching ones, and all of them when they are too few. */
  method TakeUpTo<T(==,!new)>(matching: set<T>, limit: nat) returns (taken: set<T>)
    ensures taken <= matching && |taken| <= limit
    ensures |taken| < limit ==> taken == matching
  {
    taken := {};
    var rest := matching;
    while rest != {} && |taken| < limit
      invariant taken !! rest && taken + rest == matching && |taken| <= limit
      decreases |rest|
    {
      assert exists x :: x in rest by { assert Pick(rest) in rest; }
      var x :| x in rest;
      taken, rest := taken + {x}, rest - {x};
    }
  }
}
