/** The reports over one window and filter: totals, a time series and breakdowns. */
module Reports {
  import opened Prelude
  import opened Gateway
  import opened Usage
  import Ordering

  datatype Filter = Filter(provider: Option<nat>, model: Option<nat>, apiKey: Option<nat>) {
    predicate Admits(r: UsageRecord) {
      && (provider.Some? ==> r.provider == provider)
      && (model.Some? ==> r.model == model)
      && (apiKey.Some? ==> r.apiKey == apiKey)
    }
  }

  /** The attempts every report on a window starts from. */
  function Base(rows: seq<UsageRecord>, filter: Filter, w: Window): seq<UsageRecord> {
    Where(rows, (r: UsageRecord) => w.Contains(r.createdAt) && filter.Admits(r))
  }

  // ----- Buckets ---------------------------------------------------------------------------------

  datatype Interval = Hour | Day | Week | Month

  /** Start of the bucket; weeks start on Monday (day 0 was a Thursday). */
  function Bucket(t: int, interval: Interval, monthStart: int -> int): int {
    match interval
    case Hour => t / HOUR * HOUR
    case Day => DayOf(t) * DAY
    case Week => (DayOf(t) - (DayOf(t) + 3) % 7) * DAY
    case Month => monthStart(DayOf(t)) * DAY
  }

  lemma SameDayInHour(t: int)
    ensures DayOf(t / HOUR * HOUR) == DayOf(t)
  {
    var h := t / HOUR;
    var d := h / 24;
    assert d * DAY <= h * HOUR && h * HOUR + HOUR <= d * DAY + DAY;
  }

  lemma DayStart(d: int)
    ensures DayOf(d * DAY) == d
  {
  }

  lemma FineBucketKeepsDay(t: int, fine: Interval, monthStart: int -> int)
    requires fine.Hour? || fine.Day?
    ensures DayOf(Bucket(t, fine, monthStart)) == DayOf(t)
  {
    if fine.Hour? { SameDayInHour(t); } else { DayStart(DayOf(t)); }
  }

  lemma DayDecidesBucket(t: int, u: int, coarse: Interval, monthStart: int -> int)
    requires !coarse.Hour? && DayOf(t) == DayOf(u)
    ensures Bucket(t, coarse, monthStart) == Bucket(u, coarse, monthStart)
  {
  }

  lemma HourStart(h: int)
    ensures h * HOUR / HOUR == h
  {
  }

  /** Hours refine days, and days refine weeks and months. */
  lemma BucketsNest(t: int, fine: Interval, coarse: Interval, monthStart: int -> int)
    requires fine.Hour? || (fine.Day? && !coarse.Hour?)
    ensures Bucket(Bucket(t, fine, monthStart), coarse, monthStart) == Bucket(t, coarse, monthStart)
  {
    if coarse.Hour? {
      HourStart(t / HOUR);
    } else {
      FineBucketKeepsDay(t, fine, monthStart);
      DayDecidesBucket(Bucket(t, fine, monthStart), t, coarse, monthStart);
    }
  }

  // ----- Series ------------------------------------------------------------------------------------

  ghost predicate Ascending(bs: seq<int>) {
    forall i, j :: 0 <= i < j < |bs| ==> bs[i] < bs[j]
  }

  function AddBucket(b: int, bs: seq<int>): (r: seq<int>)
    requires Ascending(bs)
    ensures Ascending(r) && forall x :: x in r <==> x == b || x in bs
  {
    if bs == [] then [b]
    else if b == bs[0] then bs
    else if b < bs[0] then [b] + bs
    else
      var rest := AddBucket(b, bs[1..]);
      assert forall i :: 0 <= i < |rest| ==> rest[i] in rest && bs[0] < rest[i];
      [bs[0]] + rest
  }

  /** The buckets in ascending order. */
  function Buckets(rows: seq<UsageRecord>, key: UsageRecord -> int): (bs: seq<int>)
    ensures Ascending(bs) && Groups(rows, key, bs)
  {
    if rows == [] then [] else AddBucket(key(rows[0]), Buckets(rows[1..], key))
  }

  datatype Point = Point(bucket: int, requests: nat, tokens: int, cost: int, errorRate: int, latency: int)

  function PointOf(b: int, s: Stats): Point {
    Point(b, s.requests, s.tokens, s.cost, Rate(s.errors, s.requests), Average(s.latency, s.requests))
  }

  /** points lists the buckets of rows in ascending order, each with the fold of its attempts. */
  ghost predicate SeriesOf(points: seq<Point>, rows: seq<UsageRecord>, key: UsageRecord -> int) {
    && (forall i, j :: 0 <= i < j < |points| ==> points[i].bucket < points[j].bucket)
    && (forall p :: p in points ==> p == PointOf(p.bucket, Fold(Select(rows, key, p.bucket))))
    && (forall p :: p in points ==> exists r :: r in rows && key(r) == p.bucket)
    && forall r :: r in rows ==> exists p :: p in points && p.bucket == key(r)
  }

  method Series(rows: seq<UsageRecord>, key: UsageRecord -> int) returns (points: seq<Point>)
    ensures SeriesOf(points, rows, key)
  {
    var bs := Buckets(rows, key);
    points := [];
    for i := 0 to |bs|
      invariant |points| == i
      invariant forall j :: 0 <= j < i ==> points[j] == PointOf(bs[j], Fold(Select(rows, key, bs[j])))
    {
      points := points + [PointOf(bs[i], Fold(Select(rows, key, bs[i])))];
    }
    PointsMakeSeries(points, rows, key, bs);
  }

  lemma PointOfBucket(points: seq<Point>, bs: seq<int>, b: int)
    requires |points| == |bs| && b in bs
    requires forall j :: 0 <= j < |bs| ==> points[j].bucket == bs[j]
    ensures exists p :: p in points && p.bucket == b
  {
    var i :| 0 <= i < |bs| && bs[i] == b;
    assert points[i] in points && points[i].bucket == b;
  }

  lemma PointsMakeSeries(points: seq<Point>, rows: seq<UsageRecord>, key: UsageRecord -> int, bs: seq<int>)
    requires Ascending(bs) && Groups(rows, key, bs) && |points| == |bs|
    requires forall j :: 0 <= j < |bs| ==> points[j] == PointOf(bs[j], Fold(Select(rows, key, bs[j])))
    ensures SeriesOf(points, rows, key)
  {
    assert forall p :: p in points ==> p.bucket in bs && p == PointOf(p.bucket, Fold(Select(rows, key, p.bucket)));
    forall r | r in rows ensures exists p :: p in points && p.bucket == key(r) {
      PointOfBucket(points, bs, key(r));
    }
  }

  datatype Sums = Sums(requests: int, tokens: int, cost: int)

  function SumPoints(points: seq<Point>): Sums {
    if points == [] then Sums(0, 0, 0)
    else
      var rest := SumPoints(points[1..]);
      Sums(points[0].requests + rest.requests, points[0].tokens + rest.tokens, points[0].cost + rest.cost)
  }

  function SumsOf(s: Stats): Sums {
    Sums(s.requests, s.tokens, s.cost)
  }

  function BucketsOf(points: seq<Point>): (bs: seq<int>)
    ensures |bs| == |points| && forall i :: 0 <= i < |bs| ==> bs[i] == points[i].bucket
  {
    seq(|points|, i requires 0 <= i < |points| => points[i].bucket)
  }

  lemma {:induction false} PointsAreGroups(points: seq<Point>, rows: seq<UsageRecord>, key: UsageRecord -> int)
    requires forall p :: p in points ==> p == PointOf(p.bucket, Fold(Select(rows, key, p.bucket)))
    ensures SumPoints(points) == SumsOf(SumGroups(rows, key, BucketsOf(points)))
    decreases |points|
  {
    if points != [] {
      PointsAreGroups(points[1..], rows, key);
      assert BucketsOf(points)[1..] == BucketsOf(points[1..]);
      assert points[0] in points;
    }
  }

  /** The points of a series add up to the totals. */
  lemma SeriesAddsUp(points: seq<Point>, rows: seq<UsageRecord>, key: UsageRecord -> int)
    requires SeriesOf(points, rows, key)
    ensures SumPoints(points) == SumsOf(Fold(rows))
  {
    var bs := BucketsOf(points);
    forall r | r in rows ensures key(r) in bs {
      var p :| p in points && p.bucket == key(r);
      var i :| 0 <= i < |points| && points[i] == p;
      assert bs[i] == key(r);
    }
    GroupsAddUp(rows, key, bs);
    PointsAreGroups(points, rows, key);
  }

  // ----- Regrouping ----------------------------------------------------------------------------------

  function PointsWithin(points: seq<Point>, coarse: int -> int, b: int): seq<Point> {
    if points == [] then []
    else if coarse(points[0].bucket) == b then [points[0]] + PointsWithin(points[1..], coarse, b)
    else PointsWithin(points[1..], coarse, b)
  }

  lemma {:induction false} PointsWithinMembers(points: seq<Point>, coarse: int -> int, b: int, p: Point)
    ensures p in PointsWithin(points, coarse, b) <==> p in points && coarse(p.bucket) == b
  {
    if points != [] {
      PointsWithinMembers(points[1..], coarse, b, p);
      assert points == [points[0]] + points[1..];
    }
  }

  lemma {:induction false} PointsWithinAscend(points: seq<Point>, coarse: int -> int, b: int)
    requires forall i, j :: 0 <= i < j < |points| ==> points[i].bucket < points[j].bucket
    ensures var within := PointsWithin(points, coarse, b);
            forall i, j :: 0 <= i < j < |within| ==> within[i].bucket < within[j].bucket
  {
    if points != [] {
      PointsWithinAscend(points[1..], coarse, b);
      var rest := PointsWithin(points[1..], coarse, b);
      forall j | 0 <= j < |rest| ensures points[0].bucket < rest[j].bucket {
        PointsWithinMembers(points[1..], coarse, b, rest[j]);
      }
    }
  }

  /** Within one coarse bucket, the fine ones select the same attempts. */
  lemma {:induction false} SelectWithin(rows: seq<UsageRecord>, fine: UsageRecord -> int, coarse: int -> int, f: int)
    ensures Select(Select(rows, r => coarse(fine(r)), coarse(f)), fine, f) == Select(rows, fine, f)
  {
    if rows != [] { SelectWithin(rows[1..], fine, coarse, f); }
  }

  lemma {:induction false} SelectMembers<K>(rows: seq<UsageRecord>, key: UsageRecord -> K, k: K, r: UsageRecord)
    ensures r in Select(rows, key, k) <==> r in rows && key(r) == k
  {
    if rows != [] {
      SelectMembers(rows[1..], key, k, r);
      assert rows == [rows[0]] + rows[1..];
    }
  }

  /** Adding up the fine points of a coarse bucket gives the coarse point: hours regroup to days. */
  lemma RegroupingAgrees(points: seq<Point>, rows: seq<UsageRecord>, fine: UsageRecord -> int, coarse: int -> int,
                         b: int)
    requires SeriesOf(points, rows, fine)
    ensures SumPoints(PointsWithin(points, coarse, b)) == SumsOf(Fold(Select(rows, r => coarse(fine(r)), b)))
  {
    var within := PointsWithin(points, coarse, b);
    var chosen := Select(rows, r => coarse(fine(r)), b);
    PointsWithinAscend(points, coarse, b);
    forall p | p in within ensures p == PointOf(p.bucket, Fold(Select(chosen, fine, p.bucket))) {
      PointsWithinMembers(points, coarse, b, p);
      SelectWithin(rows, fine, coarse, p.bucket);
    }
    forall p | p in within ensures exists r :: r in chosen && fine(r) == p.bucket {
      PointsWithinMembers(points, coarse, b, p);
      var r :| r in rows && fine(r) == p.bucket;
      SelectMembers(rows, r => coarse(fine(r)), b, r);
    }
    forall r | r in chosen ensures exists p :: p in within && p.bucket == fine(r) {
      SelectMembers(rows, r => coarse(fine(r)), b, r);
      var p :| p in points && p.bucket == fine(r);
      PointsWithinMembers(points, coarse, b, p);
    }
    SeriesAddsUp(within, chosen, fine);
  }

  lemma {:induction false} SelectSame<K>(rows: seq<UsageRecord>, key: UsageRecord -> K, other: UsageRecord -> K, k: K)
    requires forall r :: r in rows ==> key(r) == other(r)
    ensures Select(rows, key, k) == Select(rows, other, k)
  {
    if rows != [] { SelectSame(rows[1..], key, other, k); }
  }

  function BucketKey(interval: Interval, monthStart: int -> int): UsageRecord -> int {
    (r: UsageRecord) => Bucket(r.createdAt, interval, monthStart)
  }

  method SeriesBy(rows: seq<UsageRecord>, filter: Filter, w: Window, interval: Interval, monthStart: int -> int)
    returns (points: seq<Point>)
    ensures SeriesOf(points, Base(rows, filter, w), BucketKey(interval, monthStart))
    ensures SumPoints(points) == SumsOf(Fold(Base(rows, filter, w)))
  {
    points := Series(Base(rows, filter, w), BucketKey(interval, monthStart));
    SeriesAddsUp(points, Base(rows, filter, w), BucketKey(interval, monthStart));
  }

  ghost predicate HasPoint(points: seq<Point>, b: int) {
    exists q :: q in points && q.bucket == b
  }

  lemma BucketHasRow(points: seq<Point>, rows: seq<UsageRecord>, key: UsageRecord -> int, b: int)
    requires SeriesOf(points, rows, key)
    ensures HasPoint(points, b) <==> exists r :: r in rows && key(r) == b
  {
    if q :| q in points && q.bucket == b {
      var r :| r in rows && key(r) == q.bucket;
    }
  }

  lemma WithinHasRow(points: seq<Point>, rows: seq<UsageRecord>, fine: UsageRecord -> int, coarse: int -> int, b: int)
    requires SeriesOf(points, rows, fine)
    ensures PointsWithin(points, coarse, b) != [] <==> exists r :: r in rows && coarse(fine(r)) == b
  {
    if PointsWithin(points, coarse, b) != [] {
      var p := PointsWithin(points, coarse, b)[0];
      PointsWithinMembers(points, coarse, b, p);
      var r :| r in rows && fine(r) == p.bucket;
    }
    if r :| r in rows && coarse(fine(r)) == b {
      var p :| p in points && p.bucket == fine(r);
      PointsWithinMembers(points, coarse, b, p);
    }
  }

  /** The coarse point of b: it exists exactly if a fine point falls into b, and carries the sums of those that do. */
  ghost predicate Regroups(points: seq<Point>, coarsePoints: seq<Point>, coarse: int -> int, b: int) {
    var within := PointsWithin(points, coarse, b);
    && (HasPoint(coarsePoints, b) <==> within != [])
    && forall q :: q in coarsePoints && q.bucket == b ==> Sums(q.requests, q.tokens, q.cost) == SumPoints(within)
  }

  lemma SeriesRegroup(points: seq<Point>, coarsePoints: seq<Point>, rows: seq<UsageRecord>, fine: UsageRecord -> int,
                      key: UsageRecord -> int, coarse: int -> int, b: int)
    requires SeriesOf(points, rows, fine) && SeriesOf(coarsePoints, rows, key)
    requires forall r :: r in rows ==> key(r) == coarse(fine(r))
    ensures Regroups(points, coarsePoints, coarse, b)
  {
    BucketHasRow(coarsePoints, rows, key, b);
    WithinHasRow(points, rows, fine, coarse, b);
    var composed := (r: UsageRecord) => coarse(fine(r));
    RegroupingAgrees(points, rows, fine, coarse, b);
    SelectSame(rows, key, composed, b);
    assert SumPoints(PointsWithin(points, coarse, b)) == SumsOf(Fold(Select(rows, key, b)));
  }

  function BucketFrom(interval: Interval, monthStart: int -> int): int -> int {
    t => Bucket(t, interval, monthStart)
  }

  lemma KeysNest(rows: seq<UsageRecord>, fine: Interval, coarse: Interval, monthStart: int -> int)
    requires fine.Hour? || (fine.Day? && !coarse.Hour?)
    ensures forall r :: r in rows ==>
      BucketKey(coarse, monthStart)(r) == BucketFrom(coarse, monthStart)(BucketKey(fine, monthStart)(r))
  {
    forall r | r in rows
      ensures BucketKey(coarse, monthStart)(r) == BucketFrom(coarse, monthStart)(BucketKey(fine, monthStart)(r))
    {
      BucketsNest(r.createdAt, fine, coarse, monthStart);
    }
  }

  /** From the hourly points one gets exactly the day points: the same buckets, and in each the sums of its hours;
      and so for every pair of intervals that nest. */
  lemma IntervalsRegroup(points: seq<Point>, coarsePoints: seq<Point>, rows: seq<UsageRecord>, fine: Interval,
                         coarse: Interval, monthStart: int -> int, b: int)
    requires fine.Hour? || (fine.Day? && !coarse.Hour?)
    requires SeriesOf(points, rows, BucketKey(fine, monthStart))
    requires SeriesOf(coarsePoints, rows, BucketKey(coarse, monthStart))
    ensures Regroups(points, coarsePoints, BucketFrom(coarse, monthStart), b)
  {
    KeysNest(rows, fine, coarse, monthStart);
    SeriesRegroup(points, coarsePoints, rows, BucketKey(fine, monthStart), BucketKey(coarse, monthStart),
                  BucketFrom(coarse, monthStart), b);
  }

  // ----- Breakdown -------------------------------------------------------------------------------------

  datatype Dimension = ByProvider | ByModel | ByApiKey

  function DimensionOf(r: UsageRecord, d: Dimension): Option<nat> {
    match d
    case ByProvider => r.provider
    case ByModel => r.model
    case ByApiKey => r.apiKey
  }

  datatype BreakdownRow = BreakdownRow(key: Option<nat>, title: string, stats: Stats, errorRate: int, latency: int)

  /** The name of what the row is about, or a dash. */
  function LabelOf(k: Option<nat>, names: map<nat, string>): string {
    if k.Some? && k.value in names then names[k.value] else "\U{2014}"
  }

  function BreakdownOf(k: Option<nat>, s: Stats, names: map<nat, string>): BreakdownRow {
    BreakdownRow(k, LabelOf(k, names), s, Rate(s.errors, s.requests), Average(s.latency, s.requests))
  }

  function SumBreakdown(results: seq<BreakdownRow>): Stats {
    if results == [] then NoStats() else results[0].stats.Plus(SumBreakdown(results[1..]))
  }

  /** Each value of the dimension has one row with the fold of its attempts, busiest first, and the rows add
      up to the totals. */
  ghost predicate BreaksDown(results: seq<BreakdownRow>, rows: seq<UsageRecord>, key: UsageRecord -> Option<nat>,
                             names: map<nat, string>) {
    && (forall i, j :: 0 <= i < j < |results| ==> results[i].key != results[j].key)
    && (forall i, j :: 0 <= i < j < |results| ==> results[i].stats.requests >= results[j].stats.requests)
    && (forall b :: b in results ==> b == BreakdownOf(b.key, Fold(Select(rows, key, b.key)), names))
    && SumBreakdown(results) == Fold(rows)
  }

  /** Keys numbered so that the busiest sorts first. */
  function ByCount(rows: seq<UsageRecord>, key: UsageRecord -> Option<nat>, ks: seq<Option<nat>>)
    : (r: seq<Ordering.Numbered<Option<nat>>>)
    ensures |r| == |ks|
    ensures forall i :: 0 <= i < |ks| ==>
      r[i] == Ordering.Numbered(-(Fold(Select(rows, key, ks[i])).requests as int), 0, ks[i])
  {
    seq(|ks|, i requires 0 <= i < |ks| =>
      Ordering.Numbered(-(Fold(Select(rows, key, ks[i])).requests as int), 0, ks[i]))
  }

  /** The keys of the groups, busiest first. */
  function Busiest(rows: seq<UsageRecord>, key: UsageRecord -> Option<nat>): seq<Option<nat>> {
    var item := (x: Ordering.Numbered<Option<nat>>) => x.item;
    Map(item, Ordering.SortNumbered(ByCount(rows, key, GroupKeys(rows, key))))
  }

  lemma BusiestIsPermutation(rows: seq<UsageRecord>, key: UsageRecord -> Option<nat>)
    ensures multiset(Busiest(rows, key)) == multiset(GroupKeys(rows, key)) && Distinct(Busiest(rows, key))
    ensures Groups(rows, key, Busiest(rows, key))
  {
    var ks := GroupKeys(rows, key);
    var counted := ByCount(rows, key, ks);
    var item := (x: Ordering.Numbered<Option<nat>>) => x.item;
    MapPermutes(item, Ordering.SortNumbered(counted), counted);
    assert Map(item, counted) == ks;
    PermutationKeepsDistinct(ks, Busiest(rows, key));
    forall k ensures k in Busiest(rows, key) <==> k in ks {
      assert k in multiset(Busiest(rows, key)) <==> k in multiset(ks);
    }
  }

  lemma BusiestFirst(rows: seq<UsageRecord>, key: UsageRecord -> Option<nat>, i: nat, j: nat)
    requires i < j < |Busiest(rows, key)|
    ensures Fold(Select(rows, key, Busiest(rows, key)[i])).requests
         >= Fold(Select(rows, key, Busiest(rows, key)[j])).requests
  {
    var counted := ByCount(rows, key, GroupKeys(rows, key));
    var sorted := Ordering.SortNumbered(counted);
    Ordering.SortNumberedSorts(counted);
    assert sorted[i] in multiset(counted) && sorted[j] in multiset(counted);
    assert !Ordering.Before(sorted[j], sorted[i]);
  }

  /** Attempts whose provider, model or key was deleted form a row of their own. */
  method Breakdown(rows: seq<UsageRecord>, dimension: Dimension, names: map<nat, string>)
    returns (results: seq<BreakdownRow>)
    ensures BreaksDown(results, rows, r => DimensionOf(r, dimension), names)
  {
    var key := (r: UsageRecord) => DimensionOf(r, dimension);
    var ks := Busiest(rows, key);
    results := [];
    for i := 0 to |ks|
      invariant |results| == i
      invariant forall j :: 0 <= j < i ==> results[j] == BreakdownOf(ks[j], Fold(Select(rows, key, ks[j])), names)
    {
      results := results + [BreakdownOf(ks[i], Fold(Select(rows, key, ks[i])), names)];
    }
    RowsBreakDown(results, rows, key, ks, names);
  }

  lemma {:induction false} RowsAreGroups(results: seq<BreakdownRow>, rows: seq<UsageRecord>,
                                         key: UsageRecord -> Option<nat>, ks: seq<Option<nat>>, names: map<nat, string>)
    requires |results| == |ks|
    requires forall j :: 0 <= j < |ks| ==> results[j] == BreakdownOf(ks[j], Fold(Select(rows, key, ks[j])), names)
    ensures SumBreakdown(results) == SumGroups(rows, key, ks)
    decreases |ks|
  {
    if ks != [] { RowsAreGroups(results[1..], rows, key, ks[1..], names); }
  }

  lemma RowsBreakDown(results: seq<BreakdownRow>, rows: seq<UsageRecord>, key: UsageRecord -> Option<nat>,
                      ks: seq<Option<nat>>, names: map<nat, string>)
    requires ks == Busiest(rows, key) && |results| == |ks|
    requires forall j :: 0 <= j < |ks| ==> results[j] == BreakdownOf(ks[j], Fold(Select(rows, key, ks[j])), names)
    ensures BreaksDown(results, rows, key, names)
  {
    BusiestIsPermutation(rows, key);
    GroupsAddUp(rows, key, ks);
    RowsAreGroups(results, rows, key, ks, names);
    forall i, j | 0 <= i < j < |results| ensures results[i].stats.requests >= results[j].stats.requests {
      BusiestFirst(rows, key, i, j);
    }
  }
}
