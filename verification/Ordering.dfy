/** The sort keys of the routing strategies, and sorting by them. */
module Ordering {
  import opened Prelude

  datatype Health = Healthy | Degraded | RateLimited | Down | Unknown

  datatype Strategy = Priority | Weighted | RoundRobin | LatencyAware | CostAware | Failover

  /** What is known about a candidate; `key` identifies it. */
  datatype Facts = Facts(key: string, health: Option<Health>, latency: Option<int>, price: Option<real>,
                         priority: Option<int>, weight: Option<int>)

  /** A candidate during one decision. */
  datatype Entry<T> = Entry(facts: Facts, eligible: bool, item: T)

  function PriorityOf(f: Facts): real {
    f.priority.Or(100) as real
  }

  function WeightOf(f: Facts): real {
    f.weight.Or(100) as real
  }

  function HealthRank(f: Facts): int {
    match f.health.Or(Unknown)
    case Healthy => 0
    case Degraded => 1
    case Unknown => 2
    case RateLimited => 3
    case Down => 9
  }

  // ----- Sort keys ---------------------------------------------------------------------------

  datatype Number = Finite(value: real) | Infinity

  /** The key tuples of all strategies, compared from left to right. */
  datatype SortKey = SortKey(tier: int, first: Number, second: Number, name: string)

  function KeyOf(f: Facts, eligible: bool, strategy: Strategy): SortKey {
    var priority := Finite(PriorityOf(f));
    match strategy
    case Weighted =>
      if !eligible then SortKey(2, Finite(0.0), priority, f.key)
      else SortKey(0, Finite(-WeightOf(f)), priority, f.key)
    case LatencyAware =>
      if !eligible then SortKey(2, Infinity, Finite(0.0), f.key)
      else if f.latency.None? then SortKey(1, Infinity, priority, f.key)
      else SortKey(0, Finite(f.latency.value as real), priority, f.key)
    case CostAware =>
      if !eligible then SortKey(2, Infinity, Finite(0.0), f.key)
      else if f.price.None? then SortKey(1, Infinity, priority, f.key)
      else SortKey(0, Finite(f.price.value), priority, f.key)
    case Failover => SortKey(HealthRank(f), priority, priority, f.key)
    case _ => SortKey(if eligible then 0 else 2, priority, Finite(0.0), f.key)
  }

  function Key<T>(e: Entry<T>, strategy: Strategy): SortKey {
    KeyOf(e.facts, e.eligible, strategy)
  }

  predicate NumberLess(x: Number, y: Number) {
    x.Finite? && (y.Infinity? || x.value < y.value)
  }

  predicate NameLess(a: string, b: string) {
    if b == "" then false
    else if a == "" then true
    else a[0] < b[0] || (a[0] == b[0] && NameLess(a[1..], b[1..]))
  }

  predicate Less(x: SortKey, y: SortKey) {
    if x.tier != y.tier then x.tier < y.tier
    else if x.first != y.first then NumberLess(x.first, y.first)
    else if x.second != y.second then NumberLess(x.second, y.second)
    else NameLess(x.name, y.name)
  }

  lemma {:induction false} NameOrder(a: string, b: string)
    ensures !NameLess(a, a)
    ensures a == b || NameLess(a, b) || NameLess(b, a)
    ensures !(NameLess(a, b) && NameLess(b, a))
  {
    if a != "" { NameOrder(a[1..], a[1..]); }
    if a != "" && b != "" {
      NameOrder(a[1..], b[1..]);
      assert a == [a[0]] + a[1..] && b == [b[0]] + b[1..];
    }
  }

  lemma {:induction false} NameTransitive(a: string, b: string, c: string)
    requires NameLess(a, b) && NameLess(b, c)
    ensures NameLess(a, c)
  {
    if a != "" && a[0] == b[0] && b[0] == c[0] { NameTransitive(a[1..], b[1..], c[1..]); }
  }

  /** Tuple comparison is a strict total order. */
  lemma LessIsTotalOrder(x: SortKey, y: SortKey)
    ensures !Less(x, x)
    ensures x == y || Less(x, y) || Less(y, x)
    ensures !(Less(x, y) && Less(y, x))
  {
    NameOrder(x.name, y.name);
  }

  lemma LessTransitive(x: SortKey, y: SortKey, z: SortKey)
    requires Less(x, y) && Less(y, z)
    ensures Less(x, z)
  {
    if x.tier == y.tier == z.tier && x.first == y.first == z.first && x.second == y.second == z.second {
      NameTransitive(x.name, y.name, z.name);
    }
  }

  /** x is not after y. */
  lemma NotAfterTransitive(x: SortKey, y: SortKey, z: SortKey)
    requires !Less(y, x) && !Less(z, y)
    ensures !Less(z, x)
  {
    LessIsTotalOrder(x, y);
    LessIsTotalOrder(y, z);
    LessIsTotalOrder(x, z);
    if x != y && y != z { LessTransitive(x, y, z); }
  }

  // ----- Stable sorting ------------------------------------------------------------------------

  function Insert<T>(e: Entry<T>, sorted: seq<Entry<T>>, s: Strategy): seq<Entry<T>> {
    if sorted == [] then [e]
    else if Less(Key(sorted[0], s), Key(e, s)) then [sorted[0]] + Insert(e, sorted[1..], s)
    else [e] + sorted
  }

  function Sort<T>(es: seq<Entry<T>>, s: Strategy): seq<Entry<T>> {
    if es == [] then [] else Insert(es[0], Sort(es[1..], s), s)
  }

  /** No entry belongs before an earlier one. */
  ghost predicate Sorted<T>(es: seq<Entry<T>>, s: Strategy) {
    forall i, j :: 0 <= i < j < |es| ==> !Less(Key(es[j], s), Key(es[i], s))
  }

  lemma {:induction false} InsertPermutes<T>(e: Entry<T>, sorted: seq<Entry<T>>, s: Strategy)
    ensures multiset(Insert(e, sorted, s)) == multiset(sorted) + multiset{e}
    ensures |Insert(e, sorted, s)| == |sorted| + 1
    decreases |sorted|
  {
    if sorted != [] {
      assert sorted == [sorted[0]] + sorted[1..];
      InsertPermutes(e, sorted[1..], s);
    }
  }

  /** No entry of es belongs before key. */
  ghost predicate NoneBefore<T>(es: seq<Entry<T>>, key: SortKey, s: Strategy) {
    forall e :: e in es ==> !Less(Key(e, s), key)
  }

  lemma PrependSorts<T>(e: Entry<T>, sorted: seq<Entry<T>>, s: Strategy)
    requires Sorted(sorted, s) && NoneBefore(sorted, Key(e, s), s)
    ensures Sorted([e] + sorted, s)
  {
    var r := [e] + sorted;
    forall i, j | 0 <= i < j < |r| ensures !Less(Key(r[j], s), Key(r[i], s)) {
      assert r[j] == sorted[j - 1] && r[j] in sorted;
    }
  }

  lemma HeadIsFirst<T>(sorted: seq<Entry<T>>, s: Strategy)
    requires sorted != [] && Sorted(sorted, s)
    ensures NoneBefore(sorted, Key(sorted[0], s), s) && Sorted(sorted[1..], s)
  {
    LessIsTotalOrder(Key(sorted[0], s), Key(sorted[0], s));
  }

  lemma NoneBeforeEarlier<T>(es: seq<Entry<T>>, key: SortKey, earlier: SortKey, s: Strategy)
    requires NoneBefore(es, key, s) && !Less(key, earlier)
    ensures NoneBefore(es, earlier, s)
  {
    forall e | e in es ensures !Less(Key(e, s), earlier) {
      NotAfterTransitive(earlier, key, Key(e, s));
    }
  }

  lemma {:induction false} InsertSorts<T>(e: Entry<T>, sorted: seq<Entry<T>>, s: Strategy)
    requires Sorted(sorted, s)
    ensures Sorted(Insert(e, sorted, s), s)
    decreases |sorted|
  {
    if sorted != [] {
      var head, rest := sorted[0], sorted[1..];
      HeadIsFirst(sorted, s);
      if Less(Key(head, s), Key(e, s)) {
        InsertSorts(e, rest, s);
        InsertPermutes(e, rest, s);
        LessIsTotalOrder(Key(head, s), Key(e, s));
        forall x | x in Insert(e, rest, s) ensures !Less(Key(x, s), Key(head, s)) {
          assert x in multiset(Insert(e, rest, s));
        }
        PrependSorts(head, Insert(e, rest, s), s);
      } else {
        NoneBeforeEarlier(sorted, Key(head, s), Key(e, s), s);
        PrependSorts(e, sorted, s);
      }
    }
  }

  lemma {:induction false} SortPermutes<T>(es: seq<Entry<T>>, s: Strategy)
    ensures multiset(Sort(es, s)) == multiset(es) && |Sort(es, s)| == |es|
    decreases |es|
  {
    if es != [] {
      var rest := es[1..];
      assert es == [es[0]] + rest;
      SortPermutes(rest, s);
      InsertPermutes(es[0], Sort(rest, s), s);
    }
  }

  lemma {:induction false} SortSorts<T>(es: seq<Entry<T>>, s: Strategy)
    ensures Sorted(Sort(es, s), s)
    ensures multiset(Sort(es, s)) == multiset(es) && |Sort(es, s)| == |es|
    decreases |es|
  {
    SortPermutes(es, s);
    if es != [] {
      SortSorts(es[1..], s);
      InsertSorts(es[0], Sort(es[1..], s), s);
    }
  }

  // ----- The order is canonical ------------------------------------------------------------------

  /** Candidates with the same key are the same candidate. */
  ghost predicate KeysIdentify<T>(es: seq<Entry<T>>) {
    forall d, e :: d in es && e in es && d.facts.key == e.facts.key ==> d == e
  }

  lemma HeadsAgree<T>(a: seq<Entry<T>>, b: seq<Entry<T>>, s: Strategy)
    requires Sorted(a, s) && Sorted(b, s) && KeysIdentify(a)
    requires multiset(a) == multiset(b) && a != [] && b != []
    ensures a[0] == b[0]
  {
    assert b[0] in multiset(b) && a[0] in multiset(a);
    HeadIsFirst(a, s);
    HeadIsFirst(b, s);
    LessIsTotalOrder(Key(a[0], s), Key(b[0], s));
    assert Key(a[0], s).name == Key(b[0], s).name;
  }

  /** There is one sorted permutation. */
  lemma {:induction false} SortedPermutationIsUnique<T>(a: seq<Entry<T>>, b: seq<Entry<T>>, s: Strategy)
    requires Sorted(a, s) && Sorted(b, s) && KeysIdentify(a)
    requires multiset(a) == multiset(b)
    ensures a == b
    decreases |a|
  {
    assert |multiset(a)| == |a| && |multiset(b)| == |b|;
    if a != [] {
      HeadsAgree(a, b, s);
      HeadIsFirst(a, s);
      HeadIsFirst(b, s);
      assert a == [a[0]] + a[1..] && b == [b[0]] + b[1..];
      assert multiset(a[1..]) == multiset(a) - multiset{a[0]};
      assert multiset(b[1..]) == multiset(b) - multiset{b[0]};
      SortedPermutationIsUnique(a[1..], b[1..], s);
    }
  }

  /** The order does not depend on the order of the input. */
  lemma OrderIsCanonical<T>(a: seq<Entry<T>>, b: seq<Entry<T>>, s: Strategy)
    requires KeysIdentify(a) && multiset(a) == multiset(b)
    ensures Sort(a, s) == Sort(b, s)
  {
    SortSorts(a, s);
    SortSorts(b, s);
    forall e | e in Sort(a, s) ensures e in a { assert e in multiset(Sort(a, s)); }
    SortedPermutationIsUnique(Sort(a, s), Sort(b, s), s);
  }

  // ----- What comes first --------------------------------------------------------------------------

  /** f is ahead of g in what the strategy looks at. */
  predicate Beats(f: Facts, g: Facts, s: Strategy) {
    match s
    case Weighted => WeightOf(f) > WeightOf(g)
    case LatencyAware => f.latency.Some? && (g.latency.None? || f.latency.value < g.latency.value)
    case CostAware => f.price.Some? && (g.price.None? || f.price.value < g.price.value)
    case Failover => HealthRank(f) < HealthRank(g)
    case _ => PriorityOf(f) < PriorityOf(g)
  }

  /** Ahead of g, or level with it and of lower priority value; the weight decides under WEIGHTED only. */
  predicate BeatsOrTies(f: Facts, g: Facts, s: Strategy) {
    Beats(f, g, s) || (!Beats(g, f, s) && PriorityOf(f) < PriorityOf(g))
  }

  /** Among eligible candidates the better one comes first, and the priority breaks ties. */
  lemma BetterComesFirst<T>(es: seq<Entry<T>>, s: Strategy, i: nat, j: nat)
    requires i < |Sort(es, s)| && j < |Sort(es, s)|
    requires Sort(es, s)[i].eligible && Sort(es, s)[j].eligible
    requires BeatsOrTies(Sort(es, s)[i].facts, Sort(es, s)[j].facts, s)
    ensures i < j
  {
    SortSorts(es, s);
    LessIsTotalOrder(Key(Sort(es, s)[i], s), Key(Sort(es, s)[j], s));
    BetterHasSmallerKey(Sort(es, s)[i].facts, Sort(es, s)[j].facts, s);
  }

  lemma BetterHasSmallerKey(f: Facts, g: Facts, s: Strategy)
    requires BeatsOrTies(f, g, s)
    ensures Less(KeyOf(f, true, s), KeyOf(g, true, s))
  {
  }

  // ----- Deleting candidates -----------------------------------------------------------------------

  /** The entries whose key is not in dropped, in order. */
  function Without<T>(es: seq<Entry<T>>, dropped: set<string>): seq<Entry<T>> {
    if es == [] then []
    else if es[0].facts.key in dropped then Without(es[1..], dropped)
    else [es[0]] + Without(es[1..], dropped)
  }

  lemma {:induction false} WithoutKeepsMembers<T>(es: seq<Entry<T>>, dropped: set<string>, e: Entry<T>)
    ensures e in Without(es, dropped) <==> e in es && e.facts.key !in dropped
    decreases |es|
  {
    if es != [] {
      WithoutKeepsMembers(es[1..], dropped, e);
      assert es == [es[0]] + es[1..];
    }
  }

  lemma {:induction false} InsertWithout<T>(e: Entry<T>, sorted: seq<Entry<T>>, dropped: set<string>, s: Strategy)
    requires Sorted(sorted, s)
    ensures Without(Insert(e, sorted, s), dropped)
         == if e.facts.key in dropped then Without(sorted, dropped) else Insert(e, Without(sorted, dropped), s)
    decreases |sorted|
  {
    if sorted != [] {
      HeadIsFirst(sorted, s);
      var w := Without(sorted, dropped);
      if Less(Key(sorted[0], s), Key(e, s)) {
        InsertWithout(e, sorted[1..], dropped, s);
        var r := Insert(e, sorted, s);
        assert r[0] == sorted[0] && r[1..] == Insert(e, sorted[1..], s);
        if sorted[0].facts.key !in dropped { assert w[1..] == Without(sorted[1..], dropped); }
      } else {
        NoneBeforeEarlier(sorted, Key(sorted[0], s), Key(e, s), s);
        assert ([e] + sorted)[1..] == sorted;
        if w != [] { WithoutKeepsMembers(sorted, dropped, w[0]); }
      }
    }
  }

  lemma SortUnfolds<T>(e: Entry<T>, rest: seq<Entry<T>>, s: Strategy)
    ensures Sort([e] + rest, s) == Insert(e, Sort(rest, s), s)
  {
    assert ([e] + rest)[1..] == rest;
  }

  /** Deleting candidates leaves the relative order of the others unchanged. */
  lemma {:induction false} DeletionKeepsOrder<T>(es: seq<Entry<T>>, dropped: set<string>, s: Strategy)
    ensures Sort(Without(es, dropped), s) == Without(Sort(es, s), dropped)
    decreases |es|
  {
    if es != [] {
      var e, rest := es[0], es[1..];
      DeletionKeepsOrder(rest, dropped, s);
      SortSorts(rest, s);
      InsertWithout(e, Sort(rest, s), dropped, s);
      if e.facts.key !in dropped { SortUnfolds(e, Without(rest, dropped), s); }
    }
  }

  // ----- Improving a candidate ---------------------------------------------------------------------

  function CountBefore<T>(es: seq<Entry<T>>, key: SortKey, s: Strategy): nat {
    if es == [] then 0 else (if Less(Key(es[0], s), key) then 1 else 0) + CountBefore(es[1..], key, s)
  }

  lemma {:induction false} InsertCounts<T>(e: Entry<T>, sorted: seq<Entry<T>>, key: SortKey, s: Strategy)
    ensures CountBefore(Insert(e, sorted, s), key, s) == CountBefore([e] + sorted, key, s)
    decreases |sorted|
  {
    assert ([e] + sorted)[1..] == sorted;
    if sorted != [] && Less(Key(sorted[0], s), Key(e, s)) {
      InsertCounts(e, sorted[1..], key, s);
      assert Insert(e, sorted, s)[1..] == Insert(e, sorted[1..], s);
      assert ([e] + sorted[1..])[1..] == sorted[1..];
    }
  }

  lemma {:induction false} SortCounts<T>(es: seq<Entry<T>>, key: SortKey, s: Strategy)
    ensures CountBefore(Sort(es, s), key, s) == CountBefore(es, key, s)
    decreases |es|
  {
    if es != [] {
      SortCounts(es[1..], key, s);
      InsertCounts(es[0], Sort(es[1..], s), key, s);
      assert ([es[0]] + Sort(es[1..], s))[1..] == Sort(es[1..], s);
    }
  }

  lemma {:induction false} NoneToCount<T>(es: seq<Entry<T>>, key: SortKey, s: Strategy)
    requires NoneBefore(es, key, s)
    ensures CountBefore(es, key, s) == 0
    decreases |es|
  {
    if es != [] { NoneToCount(es[1..], key, s); }
  }

  ghost predicate DistinctKeys<T>(es: seq<Entry<T>>) {
    forall i, j :: 0 <= i < j < |es| ==> es[i].facts.key != es[j].facts.key
  }

  /** With distinct keys an entry's position is the number of entries that belong before it. */
  lemma {:induction false} PositionIsCount<T>(sorted: seq<Entry<T>>, at: nat, s: Strategy)
    requires Sorted(sorted, s) && DistinctKeys(sorted) && at < |sorted|
    ensures CountBefore(sorted, Key(sorted[at], s), s) == at
    decreases |sorted|
  {
    HeadIsFirst(sorted, s);
    if at == 0 {
      NoneToCount(sorted, Key(sorted[0], s), s);
    } else {
      PositionIsCount(sorted[1..], at - 1, s);
      LessIsTotalOrder(Key(sorted[0], s), Key(sorted[at], s));
      assert Key(sorted[0], s).name != Key(sorted[at], s).name;
    }
  }

  predicate AtMost(x: Option<int>, y: Option<int>) {
    x == y || (x.Some? && (y.None? || x.value <= y.value))
  }

  predicate NoDearer(x: Option<real>, y: Option<real>) {
    x == y || (x.Some? && (y.None? || x.value <= y.value))
  }

  /** The same candidate, no worse in any respect: health, latency, price, priority and weight. */
  predicate NoWorse(better: Facts, worse: Facts) {
    && better.key == worse.key
    && HealthRank(better) <= HealthRank(worse)
    && AtMost(better.latency, worse.latency) && NoDearer(better.price, worse.price)
    && PriorityOf(better) <= PriorityOf(worse) && WeightOf(better) >= WeightOf(worse)
  }

  lemma NoWorseSortsNoLater(better: Facts, worse: Facts, eligible: bool, wasEligible: bool, s: Strategy)
    requires NoWorse(better, worse) && (wasEligible ==> eligible)
    ensures !Less(KeyOf(worse, wasEligible, s), KeyOf(better, eligible, s))
  {
    NameOrder(better.key, better.key);
  }

  lemma {:induction false} CountIsMonotone<T>(es: seq<Entry<T>>, key: SortKey, later: SortKey, s: Strategy)
    requires !Less(later, key)
    ensures CountBefore(es, key, s) <= CountBefore(es, later, s)
    decreases |es|
  {
    if es != [] {
      CountIsMonotone(es[1..], key, later, s);
      LessIsTotalOrder(key, later);
      if Less(Key(es[0], s), key) && key != later { LessTransitive(Key(es[0], s), key, later); }
    }
  }

  lemma {:induction false} CountIgnoresSelf<T>(es: seq<Entry<T>>, at: nat, e: Entry<T>, key: SortKey, s: Strategy)
    requires at < |es| && !Less(Key(e, s), key) && !Less(Key(es[at], s), key)
    ensures CountBefore(es[at := e], key, s) == CountBefore(es, key, s)
    decreases |es|
  {
    if at > 0 {
      CountIgnoresSelf(es[1..], at - 1, e, key, s);
      assert es[at := e][1..] == es[1..][at - 1 := e];
    } else {
      assert es[at := e][1..] == es[1..];
    }
  }

  lemma SortKeepsDistinctKeys<T>(es: seq<Entry<T>>, s: Strategy)
    requires DistinctKeys(es)
    ensures DistinctKeys(Sort(es, s))
    decreases |es|
  {
    if es != [] {
      SortKeepsDistinctKeys(es[1..], s);
      SortSorts(es[1..], s);
      forall e | e in Sort(es[1..], s) ensures e.facts.key != es[0].facts.key {
        assert e in multiset(Sort(es[1..], s));
      }
      InsertKeepsDistinctKeys(es[0], Sort(es[1..], s), s);
    }
  }

  lemma {:induction false} InsertKeepsDistinctKeys<T>(e: Entry<T>, sorted: seq<Entry<T>>, s: Strategy)
    requires DistinctKeys(sorted) && forall x :: x in sorted ==> x.facts.key != e.facts.key
    ensures DistinctKeys(Insert(e, sorted, s))
    decreases |sorted|
  {
    if sorted != [] && Less(Key(sorted[0], s), Key(e, s)) {
      InsertKeepsDistinctKeys(e, sorted[1..], s);
      InsertPermutes(e, sorted[1..], s);
      var r := Insert(e, sorted[1..], s);
      forall j | 0 <= j < |r| ensures r[j].facts.key != sorted[0].facts.key {
        assert r[j] in multiset(r);
      }
    }
  }

  /** A candidate that improves never moves back, whatever the strategy. */
  lemma ImprovementNeverMovesBack<T>(es: seq<Entry<T>>, at: nat, e: Entry<T>, before: nat, now: nat, s: Strategy)
    requires at < |es| && DistinctKeys(es)
    requires NoWorse(e.facts, es[at].facts) && (es[at].eligible ==> e.eligible)
    requires before < |Sort(es, s)| && Sort(es, s)[before] == es[at]
    requires now < |Sort(es[at := e], s)| && Sort(es[at := e], s)[now] == e
    ensures now <= before
  {
    var es' := es[at := e];
    var k, k' := Key(es[at], s), Key(e, s);
    NoWorseSortsNoLater(e.facts, es[at].facts, e.eligible, es[at].eligible, s);
    PositionInSort(es, before, s);
    PositionInSort(es', now, s);
    LessIsTotalOrder(k', k');
    CountIgnoresSelf(es, at, e, k', s);
    CountIsMonotone(es, k', k, s);
  }

  lemma PositionInSort<T>(es: seq<Entry<T>>, at: nat, s: Strategy)
    requires DistinctKeys(es) && at < |Sort(es, s)|
    ensures CountBefore(es, Key(Sort(es, s)[at], s), s) == at
  {
    SortSorts(es, s);
    SortKeepsDistinctKeys(es, s);
    PositionIsCount(Sort(es, s), at, s);
    SortCounts(es, Key(Sort(es, s)[at], s), s);
  }

  // ----- The items ride along ------------------------------------------------------------------------

  ghost predicate KeysIn<T,U>(es: seq<Entry<T>>, byKey: map<string, U>) {
    forall e :: e in es ==> e.facts.key in byKey
  }

  /** Each entry with the item its key stands for. */
  function Relabel<T,U>(es: seq<Entry<T>>, byKey: map<string, U>): (r: seq<Entry<U>>)
    requires KeysIn(es, byKey)
    ensures |r| == |es|
    ensures forall i :: 0 <= i < |es| ==> r[i] == Entry(es[i].facts, es[i].eligible, byKey[es[i].facts.key])
  {
    if es == [] then []
    else [Entry(es[0].facts, es[0].eligible, byKey[es[0].facts.key])] + Relabel(es[1..], byKey)
  }

  lemma {:induction false} RelabelInsert<T,U>(e: Entry<T>, sorted: seq<Entry<T>>, byKey: map<string, U>, s: Strategy)
    requires KeysIn(sorted, byKey) && e.facts.key in byKey
    ensures KeysIn(Insert(e, sorted, s), byKey)
    ensures Relabel(Insert(e, sorted, s), byKey)
         == Insert(Entry(e.facts, e.eligible, byKey[e.facts.key]), Relabel(sorted, byKey), s)
    decreases |sorted|
  {
    if sorted != [] {
      if Less(Key(sorted[0], s), Key(e, s)) {
        RelabelInsert(e, sorted[1..], byKey, s);
        assert Relabel(sorted, byKey)[1..] == Relabel(sorted[1..], byKey);
      }
    }
  }

  /** Sorting looks at facts and eligibility only. */
  lemma {:induction false} RelabelSort<T,U>(es: seq<Entry<T>>, byKey: map<string, U>, s: Strategy)
    requires KeysIn(es, byKey)
    ensures KeysIn(Sort(es, s), byKey)
    ensures Relabel(Sort(es, s), byKey) == Sort(Relabel(es, byKey), s)
    decreases |es|
  {
    if es != [] {
      RelabelSort(es[1..], byKey, s);
      RelabelInsert(es[0], Sort(es[1..], s), byKey, s);
      assert Relabel(es, byKey)[1..] == Relabel(es[1..], byKey);
    }
  }

  // ----- Stable sorting by number ----------------------------------------------------------------------

  datatype Numbered<T> = Numbered(major: int, minor: int, item: T)

  predicate Before<T>(x: Numbered<T>, y: Numbered<T>) {
    x.major < y.major || (x.major == y.major && x.minor < y.minor)
  }

  function Place<T>(x: Numbered<T>, sorted: seq<Numbered<T>>): seq<Numbered<T>> {
    if sorted == [] then [x]
    else if Before(sorted[0], x) then [sorted[0]] + Place(x, sorted[1..])
    else [x] + sorted
  }

  function SortNumbered<T>(xs: seq<Numbered<T>>): (r: seq<Numbered<T>>)
    ensures |r| == |xs| && multiset(r) == multiset(xs)
  {
    if xs == [] then [] else
      var r := Place(xs[0], SortNumbered(xs[1..]));
      PlacePermutes(xs[0], SortNumbered(xs[1..]));
      assert xs == [xs[0]] + xs[1..];
      r
  }

  lemma {:induction false} PlacePermutes<T>(x: Numbered<T>, sorted: seq<Numbered<T>>)
    ensures multiset(Place(x, sorted)) == multiset(sorted) + multiset{x}
    ensures |Place(x, sorted)| == |sorted| + 1
    decreases |sorted|
  {
    if sorted != [] {
      assert sorted == [sorted[0]] + sorted[1..];
      PlacePermutes(x, sorted[1..]);
    }
  }

  ghost predicate InOrder<T>(xs: seq<Numbered<T>>) {
    forall i, j :: 0 <= i < j < |xs| ==> !Before(xs[j], xs[i])
  }

  lemma {:induction false} PlaceSorts<T>(x: Numbered<T>, sorted: seq<Numbered<T>>)
    requires InOrder(sorted)
    ensures InOrder(Place(x, sorted))
    decreases |sorted|
  {
    if sorted != [] && Before(sorted[0], x) {
      var rest := Place(x, sorted[1..]);
      PlaceSorts(x, sorted[1..]);
      PlacePermutes(x, sorted[1..]);
      forall j | 0 <= j < |rest| ensures !Before(rest[j], sorted[0]) {
        assert rest[j] in multiset(rest);
      }
    }
  }

  lemma {:induction false} SortNumberedSorts<T>(xs: seq<Numbered<T>>)
    ensures InOrder(SortNumbered(xs))
  {
    if xs != [] {
      SortNumberedSorts(xs[1..]);
      PlaceSorts(xs[0], SortNumbered(xs[1..]));
    }
  }

  /** What is in order stays as it is. */
  lemma {:induction false} SortNumberedStays<T>(xs: seq<Numbered<T>>)
    requires InOrder(xs)
    ensures SortNumbered(xs) == xs
  {
    if xs != [] {
      SortNumberedStays(xs[1..]);
      assert |xs| > 1 ==> !Before(xs[1], xs[0]);
    }
  }

  /** The numbered items that are kept, in order. */
  function Pick<T>(xs: seq<Numbered<T>>, keep: T -> bool): seq<Numbered<T>> {
    if xs == [] then []
    else if keep(xs[0].item) then [xs[0]] + Pick(xs[1..], keep)
    else Pick(xs[1..], keep)
  }

  lemma {:induction false} PickMembers<T>(xs: seq<Numbered<T>>, keep: T -> bool, x: Numbered<T>)
    requires x in Pick(xs, keep)
    ensures x in xs
  {
    if x !in [xs[0]] { PickMembers(xs[1..], keep, x); }
  }

  lemma FirstIsLeast<T>(sorted: seq<Numbered<T>>, x: Numbered<T>)
    requires InOrder(sorted) && sorted != [] && !Before(sorted[0], x)
    ensures forall y :: y in sorted ==> !Before(y, x)
  {
  }

  lemma {:induction false} PickPlace<T>(x: Numbered<T>, sorted: seq<Numbered<T>>, keep: T -> bool)
    requires InOrder(sorted)
    ensures Pick(Place(x, sorted), keep)
         == if keep(x.item) then Place(x, Pick(sorted, keep)) else Pick(sorted, keep)
    decreases |sorted|
  {
    if sorted != [] {
      var picked := Pick(sorted, keep);
      if Before(sorted[0], x) {
        PickPlace(x, sorted[1..], keep);
        var r := Place(x, sorted);
        assert r[0] == sorted[0] && r[1..] == Place(x, sorted[1..]);
        if keep(sorted[0].item) { assert picked[1..] == Pick(sorted[1..], keep); }
      } else {
        FirstIsLeast(sorted, x);
        assert ([x] + sorted)[1..] == sorted;
        if picked != [] { PickMembers(sorted, keep, picked[0]); }
      }
    }
  }

  /** Sorting commutes with leaving items out. */
  lemma {:induction false} PickSorted<T>(xs: seq<Numbered<T>>, keep: T -> bool)
    ensures Pick(SortNumbered(xs), keep) == SortNumbered(Pick(xs, keep))
  {
    if xs != [] {
      PickSorted(xs[1..], keep);
      SortNumberedSorts(xs[1..]);
      PickPlace(xs[0], SortNumbered(xs[1..]), keep);
      if keep(xs[0].item) { assert Pick(xs, keep)[1..] == Pick(xs[1..], keep); }
    }
  }
}
