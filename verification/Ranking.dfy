/** Descending stable sorts: `sort_by(|a, b| b.partial_cmp(a).unwrap_or(Equal))` over keys that are
    never NaN.  The retrieval code ranks with it four times. */
module Ranking {

  function Map<A, B>(f: A -> B, xs: seq<A>): (r: seq<B>)
    ensures |r| == |xs| && forall i :: 0 <= i < |xs| ==> r[i] == f(xs[i])
  {
    seq(|xs|, i requires 0 <= i < |xs| => f(xs[i]))
  }

  ghost predicate Distinct<T>(xs: seq<T>) {
    forall i, j :: 0 <= i < j < |xs| ==> xs[i] != xs[j]
  }

  ghost predicate Descending<T>(xs: seq<T>, key: T -> real) {
    forall i, j :: 0 <= i < j < |xs| ==> key(xs[i]) >= key(xs[j])
  }

  function Truncated<T>(xs: seq<T>, n: nat): (r: seq<T>)
    ensures |r| <= n && r <= xs
  {
    if |xs| <= n then xs else xs[..n]
  }

  /** Put `x` before the first element that does not outrank it. */
  function Insert<T>(x: T, xs: seq<T>, key: T -> real): seq<T> {
    if xs == [] || key(xs[0]) <= key(x) then [x] + xs else [xs[0]] + Insert(x, xs[1..], key)
  }

  function SortDesc<T>(xs: seq<T>, key: T -> real): seq<T> {
    if xs == [] then [] else Insert(xs[0], SortDesc(xs[1..], key), key)
  }

  lemma {:induction false} InsertKeepsElements<T>(x: T, xs: seq<T>, key: T -> real)
    ensures multiset(Insert(x, xs, key)) == multiset{x} + multiset(xs)
  {
    if xs != [] && key(xs[0]) > key(x) {
      InsertKeepsElements(x, xs[1..], key);
      assert xs == [xs[0]] + xs[1..];
    }
  }

  lemma {:induction false} InsertKeepsOrder<T>(x: T, xs: seq<T>, key: T -> real)
    requires Descending(xs, key)
    ensures Descending(Insert(x, xs, key), key)
  {
    if xs != [] && key(xs[0]) > key(x) {
      var rest := Insert(x, xs[1..], key);
      InsertKeepsOrder(x, xs[1..], key);
      InsertKeepsElements(x, xs[1..], key);
      forall j | 0 <= j < |rest| ensures key(xs[0]) >= key(rest[j]) {
        assert rest[j] in multiset(rest);
        assert rest[j] == x || rest[j] in xs[1..];
      }
    }
  }

  /** A sort: the same elements, in descending order. */
  lemma {:induction false} SortDescSorts<T>(xs: seq<T>, key: T -> real)
    ensures Descending(SortDesc(xs, key), key)
    ensures multiset(SortDesc(xs, key)) == multiset(xs)
    ensures |SortDesc(xs, key)| == |xs|
  {
    if xs != [] {
      SortDescSorts(xs[1..], key);
      InsertKeepsOrder(xs[0], SortDesc(xs[1..], key), key);
      InsertKeepsElements(xs[0], SortDesc(xs[1..], key), key);
      assert xs == [xs[0]] + xs[1..];
    }
    assert |multiset(SortDesc(xs, key))| == |multiset(xs)|;
  }

  ghost predicate AllOf<T>(xs: seq<T>, p: T -> bool) {
    forall i :: 0 <= i < |xs| ==> p(xs[i])
  }

  lemma {:induction false} SortKeepsAll<T>(xs: seq<T>, key: T -> real, p: T -> bool)
    requires AllOf(xs, p)
    ensures AllOf(SortDesc(xs, key), p)
  {
    var sorted := SortDesc(xs, key);
    SortDescSorts(xs, key);
    forall i | 0 <= i < |sorted| ensures p(sorted[i]) {
      var x := sorted[i];
      assert x in multiset(sorted);
      assert x in multiset(xs);
    }
  }

  function WithKey<T>(xs: seq<T>, key: T -> real, k: real): seq<T> {
    if xs == [] then []
    else (if key(xs[0]) == k then [xs[0]] else []) + WithKey(xs[1..], key, k)
  }

  lemma {:induction false} InsertIsStable<T>(x: T, xs: seq<T>, key: T -> real, k: real)
    requires Descending(xs, key)
    ensures WithKey(Insert(x, xs, key), key, k) == WithKey([x] + xs, key, k)
  {
    assert ([x] + xs)[1..] == xs;
    if xs != [] && key(xs[0]) > key(x) {
      var rest := Insert(x, xs[1..], key);
      InsertIsStable(x, xs[1..], key, k);
      assert ([xs[0]] + rest)[1..] == rest;
      assert ([x] + xs[1..])[1..] == xs[1..];
    }
  }

  /** Elements that compare equal keep their order. */
  lemma {:induction false} SortDescIsStable<T>(xs: seq<T>, key: T -> real, k: real)
    ensures WithKey(SortDesc(xs, key), key, k) == WithKey(xs, key, k)
  {
    if xs != [] {
      var sorted := SortDesc(xs[1..], key);
      SortDescIsStable(xs[1..], key, k);
      SortDescSorts(xs[1..], key);
      InsertIsStable(xs[0], sorted, key, k);
      assert ([xs[0]] + sorted)[1..] == sorted;
    }
  }

  lemma {:induction false} SameElements<T>(xs: seq<T>, ys: seq<T>)
    requires multiset(xs) == multiset(ys)
    ensures forall x :: x in xs <==> x in ys
  {
    forall x ensures x in xs <==> x in ys {
      assert x in multiset(xs) <==> x in multiset(ys);
    }
  }

  // ---- What a sort does to identifiers -----------------------------------------------------

  lemma {:induction false} RepeatCounts<T>(xs: seq<T>, i: nat, j: nat)
    requires i < j < |xs| && xs[i] == xs[j]
    ensures multiset(xs)[xs[i]] >= 2
  {
    assert xs == xs[..j] + xs[j..];
    assert xs[..j][i] == xs[i] && xs[j..][0] == xs[i];
  }

  lemma {:induction false} DistinctCounts<T>(xs: seq<T>, x: T)
    requires Distinct(xs)
    ensures multiset(xs)[x] <= 1
  {
    if xs != [] {
      assert xs == [xs[0]] + xs[1..];
      DistinctCounts(xs[1..], x);
    }
  }

  lemma {:induction false} DistinctByCount<T>(xs: seq<T>, ys: seq<T>)
    requires multiset(xs) == multiset(ys) && Distinct(xs)
    ensures Distinct(ys)
  {
    forall i, j | 0 <= i < j < |ys| && ys[i] == ys[j] ensures multiset(xs)[ys[i]] >= 2 {
      RepeatCounts(ys, i, j);
    }
    forall i | 0 <= i < |ys| ensures multiset(xs)[ys[i]] <= 1 {
      DistinctCounts(xs, ys[i]);
    }
  }

  lemma {:induction false} MapOverCons<A, B>(f: A -> B, x: A, xs: seq<A>)
    ensures Map(f, [x] + xs) == [f(x)] + Map(f, xs)
  {
  }

  lemma {:induction false} InsertKeepsMapped<T, U>(x: T, xs: seq<T>, key: T -> real, f: T -> U)
    ensures multiset(Map(f, Insert(x, xs, key))) == multiset{f(x)} + multiset(Map(f, xs))
  {
    if xs == [] || key(xs[0]) <= key(x) {
      MapOverCons(f, x, xs);
    } else {
      InsertKeepsMapped(x, xs[1..], key, f);
      MapOverCons(f, xs[0], Insert(x, xs[1..], key));
      MapOverCons(f, xs[0], xs[1..]);
      assert xs == [xs[0]] + xs[1..];
    }
  }

  /** Sorting rows with distinct identifiers leaves them distinct. */
  lemma {:induction false} SortKeepsMapped<T, U>(xs: seq<T>, key: T -> real, f: T -> U)
    ensures multiset(Map(f, SortDesc(xs, key))) == multiset(Map(f, xs))
    ensures Distinct(Map(f, xs)) ==> Distinct(Map(f, SortDesc(xs, key)))
  {
    if xs != [] {
      SortKeepsMapped(xs[1..], key, f);
      InsertKeepsMapped(xs[0], SortDesc(xs[1..], key), key, f);
      MapOverCons(f, xs[0], xs[1..]);
      assert xs == [xs[0]] + xs[1..];
    }
    if Distinct(Map(f, xs)) {
      DistinctByCount(Map(f, xs), Map(f, SortDesc(xs, key)));
    }
  }

  ghost predicate Falling(xs: seq<real>) {
    forall i, j :: 0 <= i < j < |xs| ==> xs[i] >= xs[j]
  }

  lemma {:induction false} HeadIsGreatest(xs: seq<real>, x: real)
    requires Falling(xs) && x in multiset(xs)
    ensures xs != [] && xs[0] >= x
  {
    var i :| 0 <= i < |xs| && xs[i] == x;
  }

  lemma {:induction false} TailsAgree(a: seq<real>, b: seq<real>)
    requires a != [] && b != [] && a[0] == b[0]
    requires multiset(a) == multiset(b)
    requires Falling(a) && Falling(b)
    ensures multiset(a[1..]) == multiset(b[1..])
    ensures Falling(a[1..]) && Falling(b[1..])
  {
    assert a == [a[0]] + a[1..] && b == [b[0]] + b[1..];
    assert multiset(a[1..]) == multiset(a) - multiset{a[0]};
    assert multiset(b[1..]) == multiset(b) - multiset{b[0]};
  }

  /** A descending sequence of numbers is determined by its elements. */
  lemma {:induction false} FallingIsUnique(a: seq<real>, b: seq<real>)
    requires multiset(a) == multiset(b)
    requires Falling(a) && Falling(b)
    ensures a == b
    decreases |a|
  {
    if a == [] {
      assert |multiset(b)| == 0;
    } else {
      assert a[0] in multiset(a);
      HeadIsGreatest(b, a[0]);
      assert b[0] in multiset(b);
      HeadIsGreatest(a, b[0]);
      var x, as1, bs := a[0], a[1..], b[1..];
      assert a == [x] + as1 && b == [x] + bs;
      TailsAgree(a, b);
      FallingIsUnique(as1, bs);
    }
  }
}
