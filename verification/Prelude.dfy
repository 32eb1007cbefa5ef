/** Vocabulary shared by the components. */
module Prelude {
  datatype Option<+T> = None | Some(value: T) {
    function Or(default: T): T {
      if Some? then value else default
    }
  }

  function Min(a: int, b: int): int {
    if a < b then a else b
  }

  function Max(a: int, b: int): int {
    if a < b then b else a
  }

  lemma Associates<T>(a: seq<T>, b: seq<T>, c: seq<T>)
    ensures (a + b) + c == a + (b + c)
  {
  }

  /** x added up k times. */
  ghost function Multiple(k: nat, x: int): int {
    if k == 0 then 0 else x + Multiple(k - 1, x)
  }

  lemma {:induction false} MultipleIsProduct(k: nat, x: int)
    ensures Multiple(k, x) == k * x
  {
    if k > 0 { MultipleIsProduct(k - 1, x); }
  }

  lemma ModIs(x: int, n: int, r: int, q: int)
    requires 0 <= r < n && x == q * n + r
    ensures x % n == r
  {
    var d := q - x / n;
    assert d * n == x % n - r;
    assert (d > 0 ==> d * n >= n) && (d < 0 ==> d * n <= -n);
  }

  function Map<T,U>(f: T -> U, xs: seq<T>): (r: seq<U>)
    ensures |r| == |xs| && forall i :: 0 <= i < |xs| ==> r[i] == f(xs[i])
  {
    seq(|xs|, i requires 0 <= i < |xs| => f(xs[i]))
  }

  function RemoveAt<T>(xs: seq<T>, i: nat): seq<T>
    requires i < |xs|
  {
    xs[..i] + xs[i + 1..]
  }

  lemma RemoveAtCounts<T>(xs: seq<T>, i: nat)
    requires i < |xs|
    ensures multiset(xs) == multiset(RemoveAt(xs, i)) + multiset{xs[i]}
    ensures multiset(RemoveAt(xs, i)) == multiset(xs) - multiset{xs[i]}
  {
    assert xs == xs[..i] + [xs[i]] + xs[i + 1..];
  }

  lemma MapWithout<T,U>(f: T -> U, xs: seq<T>, i: nat)
    requires i < |xs|
    ensures multiset(Map(f, xs)) == multiset(Map(f, RemoveAt(xs, i))) + multiset{f(xs[i])}
  {
    RemoveAtCounts(Map(f, xs), i);
    assert RemoveAt(Map(f, xs), i) == Map(f, RemoveAt(xs, i));
  }

  lemma Occurs<T>(x: T, xs: seq<T>) returns (i: nat)
    requires x in multiset(xs)
    ensures i < |xs| && xs[i] == x
  {
    i :| i < |xs| && xs[i] == x;
  }

  /** Mapping keeps permutations. */
  lemma {:induction false} MapPermutes<T,U>(f: T -> U, a: seq<T>, b: seq<T>)
    requires multiset(a) == multiset(b)
    ensures multiset(Map(f, a)) == multiset(Map(f, b)) && |a| == |b|
    decreases |a|
  {
    assert |multiset(a)| == |a| && |multiset(b)| == |b|;
    if a != [] {
      var i := Occurs(a[0], b);
      RemoveAtCounts(a, 0);
      RemoveAtCounts(b, i);
      MapPermutes(f, RemoveAt(a, 0), RemoveAt(b, i));
      MapWithout(f, a, 0);
      MapWithout(f, b, i);
    }
  }

  ghost predicate Distinct<T>(xs: seq<T>) {
    forall i, j :: 0 <= i < j < |xs| ==> xs[i] != xs[j]
  }

  lemma {:induction false} DistinctByMultiset<T>(xs: seq<T>)
    ensures Distinct(xs) <==> forall x :: x in xs ==> multiset(xs)[x] == 1
  {
    if xs != [] {
      var rest := xs[1..];
      DistinctByMultiset(rest);
      assert xs == [xs[0]] + rest;
      if Distinct(xs) {
        assert xs[0] !in rest;
      } else if Distinct(rest) {
        assert xs[0] in rest && multiset(xs)[xs[0]] >= 2;
      } else {
        var x :| x in rest && multiset(rest)[x] != 1;
        assert x in multiset(rest) && multiset(xs)[x] >= 2;
      }
    }
  }

  lemma PermutationKeepsDistinct<T>(xs: seq<T>, ys: seq<T>)
    requires Distinct(xs) && multiset(xs) == multiset(ys)
    ensures Distinct(ys)
  {
    DistinctByMultiset(xs);
    DistinctByMultiset(ys);
    forall y | y in ys ensures multiset(ys)[y] == 1 {
      assert y in multiset(xs);
    }
  }

  /** The first n clients. */
  function Clients(n: nat): (r: set<nat>)
    ensures forall c :: c in r <==> 1 <= c <= n
    ensures |r| == n
  {
    if n == 0 then {} else Clients(n - 1) + {n}
  }

  lemma AtMost(s: set<nat>, n: nat)
    requires s <= Clients(n)
    ensures |s| <= n
  {
    assert |Clients(n)| == |s| + |Clients(n) - s|;
  }
}
