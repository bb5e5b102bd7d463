/** The stable sort behind `Array.prototype.sort`, for any comparison that is a total preorder. */
module Sorting {

  ghost predicate TotalPreorder<T(!new)>(leq: (T, T) -> bool) {
    && (forall a, b :: leq(a, b) || leq(b, a))
    && (forall a, b, c :: leq(a, b) && leq(b, c) ==> leq(a, c))
  }

  predicate SortedBy<T>(xs: seq<T>, leq: (T, T) -> bool) { forall i, j :: 0 <= i < j < |xs| ==> leq(xs[i], xs[j]) }

  /** Inserts after everything that may stay in front. */
  function Insert<T>(xs: seq<T>, x: T, leq: (T, T) -> bool): seq<T> {
    if xs == [] || leq(xs[|xs| - 1], x) then xs + [x]
    else Insert(xs[..|xs| - 1], x, leq) + [xs[|xs| - 1]]
  }

  function Sort<T>(xs: seq<T>, leq: (T, T) -> bool): seq<T> {
    if xs == [] then [] else Insert(Sort(xs[..|xs| - 1], leq), xs[|xs| - 1], leq)
  }

  lemma {:induction false} InsertAdds<T>(xs: seq<T>, x: T, leq: (T, T) -> bool)
    ensures multiset(Insert(xs, x, leq)) == multiset(xs) + multiset{x}
  {
    if xs != [] && !leq(xs[|xs| - 1], x) {
      InsertAdds(xs[..|xs| - 1], x, leq);
      assert xs == xs[..|xs| - 1] + [xs[|xs| - 1]];
    }
  }

  lemma InsertElements<T>(xs: seq<T>, x: T, leq: (T, T) -> bool)
    ensures forall y <- Insert(xs, x, leq) :: y in xs || y == x
  {
    InsertAdds(xs, x, leq);
    forall y <- Insert(xs, x, leq) ensures y in xs || y == x { assert y in multiset(Insert(xs, x, leq)); }
  }

  lemma SortedSnoc<T>(xs: seq<T>, x: T, leq: (T, T) -> bool)
    requires SortedBy(xs, leq) && forall y <- xs :: leq(y, x)
    ensures SortedBy(xs + [x], leq)
  {
  }

  lemma {:induction false} InsertIsSorted<T(!new)>(xs: seq<T>, x: T, leq: (T, T) -> bool)
    requires TotalPreorder(leq) && SortedBy(xs, leq)
    ensures SortedBy(Insert(xs, x, leq), leq)
  {
    if xs != [] {
      var init, last := xs[..|xs| - 1], xs[|xs| - 1];
      forall y <- xs ensures leq(y, last) { assert leq(last, last); }
      if leq(last, x) {
        SortedSnoc(xs, x, leq);
      } else {
        InsertIsSorted(init, x, leq);
        InsertElements(init, x, leq);
        SortedSnoc(Insert(init, x, leq), last, leq);
      }
    }
  }

  /** Sorting is a permutation in order. */
  lemma {:induction false} SortIsSorted<T(!new)>(xs: seq<T>, leq: (T, T) -> bool)
    requires TotalPreorder(leq)
    ensures SortedBy(Sort(xs, leq), leq) && multiset(Sort(xs, leq)) == multiset(xs) && |Sort(xs, leq)| == |xs|
  {
    if xs != [] {
      SortIsSorted(xs[..|xs| - 1], leq);
      InsertIsSorted(Sort(xs[..|xs| - 1], leq), xs[|xs| - 1], leq);
      InsertAdds(Sort(xs[..|xs| - 1], leq), xs[|xs| - 1], leq);
      assert xs == xs[..|xs| - 1] + [xs[|xs| - 1]];
    }
    assert |multiset(Sort(xs, leq))| == |multiset(xs)|;
  }

  lemma WithoutFirst<T>(xs: seq<T>)
    requires xs != []
    ensures multiset(xs[1..]) == multiset(xs) - multiset{xs[0]}
  {
    assert xs == [xs[0]] + xs[1..];
  }

  /** Two orders of the same distinct elements are equal when the comparison never ties two of them. */
  lemma {:induction false} SortedIsUnique<T(!new)>(xs: seq<T>, ys: seq<T>, leq: (T, T) -> bool)
    requires SortedBy(xs, leq) && SortedBy(ys, leq) && multiset(xs) == multiset(ys)
    requires forall a, b :: a in xs && b in xs && leq(a, b) && leq(b, a) ==> a == b
    ensures xs == ys
    decreases |xs|
  {
    assert |multiset(xs)| == |multiset(ys)|;
    if xs != [] {
      assert xs[0] in multiset(ys) && ys[0] in multiset(xs);
      assert xs[0] in ys && ys[0] in xs;
      assert xs[0] == ys[0];
      WithoutFirst(xs);
      WithoutFirst(ys);
      SortedIsUnique(xs[1..], ys[1..], leq);
    }
  }

  function Filter<T>(xs: seq<T>, p: T -> bool): (ys: seq<T>)
    ensures forall y <- ys :: y in xs && p(y)
    ensures forall x <- xs :: p(x) ==> x in ys
  {
    if xs == [] then []
    else Filter(xs[..|xs| - 1], p) + if p(xs[|xs| - 1]) then [xs[|xs| - 1]] else []
  }

  lemma FilterSnoc<T>(xs: seq<T>, x: T, p: T -> bool)
    ensures Filter(xs + [x], p) == Filter(xs, p) + if p(x) then [x] else []
  {
    assert (xs + [x])[..|xs|] == xs;
  }

  lemma NotBoth<T(!new)>(last: T, x: T, leq: (T, T) -> bool, p: T -> bool)
    requires (forall a, b :: p(a) && p(b) ==> leq(a, b)) && !leq(last, x)
    ensures !p(last) || !p(x)
  {
  }

  lemma Swap<T>(kept: seq<T>, a: seq<T>, b: seq<T>)
    requires a == [] || b == []
    ensures kept + a + b == kept + b + a
  {
  }

  lemma {:induction false} InsertIsStable<T(!new)>(xs: seq<T>, x: T, leq: (T, T) -> bool, p: T -> bool)
    requires forall a, b :: p(a) && p(b) ==> leq(a, b)
    ensures Filter(Insert(xs, x, leq), p) == Filter(xs, p) + if p(x) then [x] else []
  {
    if xs == [] || leq(xs[|xs| - 1], x) {
      FilterSnoc(xs, x, p);
    } else {
      var init, last := xs[..|xs| - 1], xs[|xs| - 1];
      InsertIsStable(init, x, leq, p);
      NotBoth(last, x, leq, p);
      FilterSnoc(Insert(init, x, leq), last, p);
      Swap(Filter(init, p), if p(x) then [x] else [], if p(last) then [last] else []);
    }
  }

  /** Elements the comparison ties keep their order. */
  lemma {:induction false} SortIsStable<T(!new)>(xs: seq<T>, leq: (T, T) -> bool, p: T -> bool)
    requires forall a, b :: p(a) && p(b) ==> leq(a, b)
    ensures Filter(Sort(xs, leq), p) == Filter(xs, p)
  {
    if xs != [] {
      SortIsStable(xs[..|xs| - 1], leq, p);
      InsertIsStable(Sort(xs[..|xs| - 1], leq), xs[|xs| - 1], leq, p);
    }
  }

  /** Sorting neither adds nor loses an element. */
  lemma SortKeepsElements<T(!new)>(xs: seq<T>, leq: (T, T) -> bool)
    requires TotalPreorder(leq)
    ensures forall x :: x in Sort(xs, leq) <==> x in xs
  {
    SortIsSorted(xs, leq);
    forall x ensures x in Sort(xs, leq) <==> x in xs { assert x in multiset(Sort(xs, leq)) <==> x in multiset(xs); }
  }

  // ---- Distinct elements ----

  predicate Distinct<T(==)>(xs: seq<T>) { forall i, j :: 0 <= i < j < |xs| ==> xs[i] != xs[j] }

  lemma {:induction false} AtMostOnce<T>(xs: seq<T>, x: T)
    requires Distinct(xs)
    ensures multiset(xs)[x] <= 1
  {
    if xs != [] {
      var init, last := xs[..|xs| - 1], xs[|xs| - 1];
      AtMostOnce(init, x);
      assert xs == init + [last];
      assert forall k :: 0 <= k < |init| ==> init[k] == xs[k] != last;
    }
  }

  lemma TwiceCounts<T>(xs: seq<T>, i: nat, j: nat)
    requires i < j < |xs| && xs[i] == xs[j]
    ensures multiset(xs)[xs[i]] >= 2
  {
    assert xs == xs[..i] + [xs[i]] + xs[i + 1..j] + [xs[j]] + xs[j + 1..];
  }

  lemma PermutationKeepsDistinct<T>(xs: seq<T>, ys: seq<T>)
    requires Distinct(xs) && multiset(xs) == multiset(ys)
    ensures Distinct(ys)
  {
    forall i, j | 0 <= i < j < |ys| && ys[i] == ys[j] ensures false {
      TwiceCounts(ys, i, j);
      AtMostOnce(xs, ys[i]);
    }
  }

  lemma RemoveAt<T>(xs: seq<T>, k: nat)
    requires k < |xs|
    ensures multiset(xs[..k] + xs[k + 1..]) == multiset(xs) - multiset{xs[k]}
  {
    assert xs == xs[..k] + [xs[k]] + xs[k + 1..];
  }
}
