/** Usage analytics: grouping attempts by day, dimension or time bucket, and the daily rollup. */
module Usage {
  import opened Prelude
  import opened Cost
  import opened Gateway

  // ----- Folding attempts ----------------------------------------------------------------------

  /** The aggregates of a set of attempts; `latency` is the sum. */
  datatype Stats = Stats(requests: nat, input: int, output: int, tokens: int, cost: int, latency: int, errors: nat) {
    function Plus(s: Stats): Stats {
      Stats(requests + s.requests, input + s.input, output + s.output, tokens + s.tokens,
            cost + s.cost, latency + s.latency, errors + s.errors)
    }
  }

  function NoStats(): Stats {
    Stats(0, 0, 0, 0, 0, 0, 0)
  }

  function OfAttempt(r: UsageRecord): Stats {
    Stats(1, r.inputTokens, r.outputTokens, r.totalTokens, r.cost, r.latency, if r.error.Some? then 1 else 0)
  }

  function Fold(rows: seq<UsageRecord>): Stats {
    if rows == [] then NoStats() else OfAttempt(rows[0]).Plus(Fold(rows[1..]))
  }

  lemma {:induction false} FoldCounts(rows: seq<UsageRecord>)
    ensures Fold(rows).requests == |rows|
  {
    if rows != [] { FoldCounts(rows[1..]); }
  }

  // ----- GROUP BY ------------------------------------------------------------------------------

  function Where(rows: seq<UsageRecord>, p: UsageRecord -> bool): seq<UsageRecord> {
    if rows == [] then [] else if p(rows[0]) then [rows[0]] + Where(rows[1..], p) else Where(rows[1..], p)
  }

  /** The attempts of one group. */
  function Select<K(==)>(rows: seq<UsageRecord>, key: UsageRecord -> K, k: K): seq<UsageRecord> {
    if rows == [] then []
    else if key(rows[0]) == k then [rows[0]] + Select(rows[1..], key, k)
    else Select(rows[1..], key, k)
  }

  /** ks lists the groups of rows, each once. */
  ghost predicate Groups<K>(rows: seq<UsageRecord>, key: UsageRecord -> K, ks: seq<K>) {
    && (forall i, j :: 0 <= i < j < |ks| ==> ks[i] != ks[j])
    && (forall r :: r in rows ==> key(r) in ks)
    && forall k :: k in ks ==> exists r :: r in rows && key(r) == k
  }

  /** The aggregates of all listed groups together. */
  function SumGroups<K(==)>(rows: seq<UsageRecord>, key: UsageRecord -> K, ks: seq<K>): Stats
    decreases |ks|
  {
    if ks == [] then NoStats() else Fold(Select(rows, key, ks[0])).Plus(SumGroups(rows, key, ks[1..]))
  }

  lemma {:induction false} SelectNothing<K>(rows: seq<UsageRecord>, key: UsageRecord -> K, k: K)
    requires forall r :: r in rows ==> key(r) != k
    ensures Select(rows, key, k) == []
  {
    if rows != [] { SelectNothing(rows[1..], key, k); }
  }

  lemma {:induction false} EmptyGroups<K>(rows: seq<UsageRecord>, key: UsageRecord -> K, ks: seq<K>)
    requires rows == []
    ensures SumGroups(rows, key, ks) == NoStats()
    decreases |ks|
  {
    if ks != [] {
      EmptyGroups(rows, key, ks[1..]);
      assert Fold(Select(rows, key, ks[0])) == NoStats();
    }
  }

  lemma PlusFirst(a: Stats, b: Stats, c: Stats)
    ensures a.Plus(b).Plus(c) == a.Plus(b.Plus(c)) == b.Plus(a.Plus(c))
  {
  }

  /** One more attempt raises the sum over the groups by that attempt, provided its group is listed once. */
  lemma {:induction false} OneMoreAttempt<K>(r: UsageRecord, rows: seq<UsageRecord>, key: UsageRecord -> K, ks: seq<K>)
    requires forall i, j :: 0 <= i < j < |ks| ==> ks[i] != ks[j]
    ensures SumGroups([r] + rows, key, ks)
         == if key(r) in ks then OfAttempt(r).Plus(SumGroups(rows, key, ks)) else SumGroups(rows, key, ks)
    decreases |ks|
  {
    if ks != [] {
      OneMoreAttempt(r, rows, key, ks[1..]);
      SelectCons(r, rows, key, ks[0]);
      assert key(r) == ks[0] ==> key(r) !in ks[1..];
      PlusFirst(OfAttempt(r), Fold(Select(rows, key, ks[0])), SumGroups(rows, key, ks[1..]));
    }
  }

  lemma SelectCons<K>(r: UsageRecord, rows: seq<UsageRecord>, key: UsageRecord -> K, k: K)
    ensures Fold(Select([r] + rows, key, k))
         == if key(r) == k then OfAttempt(r).Plus(Fold(Select(rows, key, k))) else Fold(Select(rows, key, k))
  {
    assert ([r] + rows)[1..] == rows;
    if key(r) == k { assert ([r] + Select(rows, key, k))[1..] == Select(rows, key, k); }
  }

  /** Grouping partitions: whatever the attempts are grouped by, the groups add up to all of them. */
  lemma {:induction false} GroupsAddUp<K>(rows: seq<UsageRecord>, key: UsageRecord -> K, ks: seq<K>)
    requires forall i, j :: 0 <= i < j < |ks| ==> ks[i] != ks[j]
    requires forall r :: r in rows ==> key(r) in ks
    ensures SumGroups(rows, key, ks) == Fold(rows)
  {
    if rows == [] {
      EmptyGroups(rows, key, ks);
    } else {
      GroupsAddUp(rows[1..], key, ks);
      OneMoreAttempt(rows[0], rows[1..], key, ks);
      assert rows == [rows[0]] + rows[1..];
    }
  }

  /** The groups of rows in the order in which they last start. */
  function GroupKeys<K(==)>(rows: seq<UsageRecord>, key: UsageRecord -> K): (ks: seq<K>)
    ensures Groups(rows, key, ks)
  {
    if rows == [] then []
    else
      var rest := GroupKeys(rows[1..], key);
      if key(rows[0]) in rest then rest else [key(rows[0])] + rest
  }

  // ----- Time windows ------------------------------------------------------------------------------

  const HOUR := 3_600_000_000
  const DAY := 86_400_000_000

  /** Days are numbered from the epoch, times are in microseconds. */
  function DayOf(t: int): int {
    t / DAY
  }

  datatype Window = Window(start: int, end: int) {
    predicate Contains(t: int) {
      start <= t <= end
    }
  }

  /** From the first instant of one day to the last instant of another. */
  function DaysWindow(first: int, last: int): Window {
    Window(first * DAY, last * DAY + DAY - 1)
  }

  /** Between midnight and the last microsecond before the next lies exactly one day. */
  lemma WindowOfDays(first: int, last: int, t: int)
    ensures DaysWindow(first, last).Contains(t) <==> first <= DayOf(t) <= last
  {
    var d := DayOf(t);
    assert d * DAY <= t < d * DAY + DAY;
  }

  /** The window of an optional date range; a range given backwards has its ends exchanged. */
  function ResolveWindow(dateFrom: Option<int>, dateTo: Option<int>, today: int, defaultDays: int): Window {
    var last := dateTo.Or(today);
    var first := dateFrom.Or(last - (defaultDays - 1));
    var w := DaysWindow(first, last);
    if w.start > w.end then Window(w.end, w.start) else w
  }

  /** The window covers the inclusive range of days exactly if the range is not given backwards. */
  lemma WindowCoversRangeIff(first: int, last: int, today: int, defaultDays: int)
    ensures (forall t :: ResolveWindow(Some(first), Some(last), today, defaultDays).Contains(t)
                    <==> first <= DayOf(t) <= last)
       <==> first <= last
  {
    var w := ResolveWindow(Some(first), Some(last), today, defaultDays);
    if first <= last {
      forall t ensures w.Contains(t) <==> first <= DayOf(t) <= last { WindowOfDays(first, last, t); }
    } else {
      assert w.Contains(first * DAY) && DayOf(first * DAY) == first;
    }
  }

  /** Without dates the window holds the last defaultDays days. */
  lemma DefaultWindow(today: int, defaultDays: int, t: int)
    requires defaultDays >= 1
    ensures ResolveWindow(None, None, today, defaultDays).Contains(t) <==> today - defaultDays < DayOf(t) <= today
  {
    WindowOfDays(today - (defaultDays - 1), today, t);
  }

  // ----- Rollups -----------------------------------------------------------------------------------

  /** The dimensions of an attempt; each is lost when what it refers to is deleted. */
  datatype Group = Group(provider: Option<nat>, model: Option<nat>, apiKey: Option<nat>)

  function GroupOf(r: UsageRecord): Group {
    Group(r.provider, r.model, r.apiKey)
  }

  /** The mean, truncated towards zero. */
  function Average(sum: int, count: nat): (r: int)
    ensures count > 0 && sum >= 0 ==> 0 <= r && r * count <= sum < r * count + count
    ensures count > 0 && sum < 0 ==> r <= 0 && r * count - count < sum <= r * count
  {
    if count == 0 then 0 else if sum >= 0 then sum / count else -(-sum / count)
  }

  /** The significand of a float has 53 bits: this is the least one. */
  const SIGNIFICAND := 0x10_0000_0000_0000

  function Pow2(n: nat): nat {
    if n == 0 then 1 else 2 * Pow2(n - 1)
  }

  /** How often x has to be doubled to reach the goal. */
  function Doublings(x: nat, goal: nat): nat
    requires x > 0
    decreases goal - x
  {
    if x >= goal then 0 else 1 + Doublings(2 * x, goal)
  }

  lemma {:induction false} DoublingsReach(x: nat, goal: nat)
    requires x > 0
    ensures x * Pow2(Doublings(x, goal)) >= goal
    decreases goal - x
  {
    if x < goal {
      DoublingsReach(2 * x, goal);
      assert 2 * x * Pow2(Doublings(2 * x, goal)) == x * (2 * Pow2(Doublings(2 * x, goal)));
    }
  }

  /** q is an integer nearest to x / n. */
  predicate IsNearest(q: int, x: int, n: int) {
    -n <= 2 * (x - q * n) <= n
  }

  /** The error rate in units of 10^-4. The quotient becomes the nearest float, and the exact value of that float is
      rounded half to even. The result is nearest to the true quotient, so only a tie can be broken differently. */
  function Rate(errors: nat, requests: nat): (r: int)
    ensures requests == 0 || errors == 0 ==> r == 0
    ensures errors <= requests && 10000 * requests < SIGNIFICAND ==> IsNearest(r, 10000 * errors, requests)
  {
    if requests == 0 || errors == 0 then 0
    else
      var scale := Pow2(Doublings(errors, SIGNIFICAND * requests));
      DoublingsReach(errors, SIGNIFICAND * requests);
      var float := HalfEven(errors * scale, requests);
      HalfEvenIsNearest(errors * scale, requests);
      HalfEvenIsNearest(10000 * float, scale);
      if errors <= requests && 10000 * requests < SIGNIFICAND then
        ScaleIsFine(errors, requests, scale);
        NearestTwice(errors, requests, scale, float, HalfEven(10000 * float, scale));
        HalfEven(10000 * float, scale)
      else HalfEven(10000 * float, scale)
  }

  lemma Cancel(a: int, b: int, n: int)
    requires n > 0 && b * n <= a * n
    ensures b <= a
  {
    if a < b { MulAtLeast(b, a + 1, n); }
  }

  lemma ScaleIsFine(errors: nat, requests: nat, scale: nat)
    requires 0 < errors <= requests && errors * scale >= SIGNIFICAND * requests
    ensures scale >= SIGNIFICAND
  {
    assert scale > 0;
    MulAtLeast(requests, errors, scale);
    Cancel(scale, SIGNIFICAND, requests);
  }

  /** Rounding to a scale that is fine enough first makes no difference but in ties. */
  lemma NearestTwice(errors: int, requests: int, scale: int, float: int, r: int)
    requires 0 < 10000 * requests < scale
    requires IsNearest(float, errors * scale, requests) && IsNearest(r, 10000 * float, scale)
    ensures IsNearest(r, 10000 * errors, requests)
  {
    var d, e := errors * scale - float * requests, 10000 * float - r * scale;
    GapIs(errors, requests, scale, float, r);
    Within(2 * e, scale, requests);
    GapIsSmall(10000 * errors - r * requests, requests, scale, 10000 * d + e * requests);
  }

  lemma GapIs(errors: int, requests: int, scale: int, float: int, r: int)
    ensures (10000 * errors - r * requests) * scale
         == 10000 * (errors * scale - float * requests) + (10000 * float - r * scale) * requests
  {
    assert (10000 * errors - r * requests) * scale == 10000 * (errors * scale) - r * requests * scale;
    assert (10000 * float - r * scale) * requests == 10000 * (float * requests) - r * scale * requests;
    assert r * requests * scale == r * scale * requests;
  }

  lemma Within(x: int, bound: int, n: int)
    requires n > 0 && -bound <= x <= bound
    ensures -(bound * n) <= x * n <= bound * n
  {
    MulAtLeast(bound, x, n);
    MulAtLeast(x, -bound, n);
  }

  lemma GapIsSmall(gap: int, requests: int, scale: int, product: int)
    requires 0 < requests && 10000 * requests < scale && product == gap * scale
    requires -(scale * requests) - 10000 * requests <= 2 * product <= scale * requests + 10000 * requests
    ensures -requests <= 2 * gap <= requests
  {
    if 2 * gap > requests { MulAtLeast(2 * gap, requests + 1, scale); }
    if 2 * gap < -requests { MulAtLeast(-requests - 1, 2 * gap, scale); }
  }

  lemma TieIsMidway(q: int, x: int, n: int)
    requires n > 0 && (2 * (x - q * n) == n || 2 * (x - q * n) == -n)
    ensures 2 * x % (2 * n) == n
  {
    ModIs(2 * x, 2 * n, n, if 2 * (x - q * n) == n then q else q - 1);
  }

  lemma NearestUnlessMidway(q: int, x: int, n: int)
    requires n > 0 && IsNearest(q, x, n) && 2 * x % (2 * n) != n
    ensures q == HalfEven(x, n)
  {
    if 2 * (x - q * n) == n || 2 * (x - q * n) == -n {
      TieIsMidway(q, x, n);
    } else {
      HalfEvenIsNearest(x, n);
      HalfEvenUnique(q, HalfEven(x, n), x, n);
    }
  }

  /** Unless the quotient lies midway, the rate is the one it would be rounded to exactly. */
  lemma RateIsExactlyRounded(errors: nat, requests: nat)
    requires errors <= requests && 0 < 10000 * requests < SIGNIFICAND
    requires 2 * (10000 * errors) % (2 * requests) != requests
    ensures Rate(errors, requests) == HalfEven(10000 * errors, requests)
  {
    var q := Rate(errors, requests);
    NearestUnlessMidway(q, 10000 * errors, requests);
  }

  /** `latency` is stored in a column named for a percentile, but it is the average. */
  datatype Rollup = Rollup(requests: nat, tokens: int, cost: int, latency: int, errorRate: int)

  function RollupOf(s: Stats): Rollup {
    Rollup(s.requests, s.tokens, s.cost, Average(s.latency, s.requests), Rate(s.errors, s.requests))
  }

  /** The attempts that failed. */
  function Failures(rows: seq<UsageRecord>): seq<UsageRecord> {
    if rows == [] then []
    else (if rows[0].error == None then [] else [rows[0]]) + Failures(rows[1..])
  }

  /** An attempt counts as an error exactly if it stored one. */
  lemma {:induction false} ErrorsAreFailures(rows: seq<UsageRecord>)
    ensures Fold(rows).errors == |Failures(rows)| <= |rows|
    ensures forall r :: r in Failures(rows) <==> r in rows && r.error.Some?
  {
    if rows != [] {
      ErrorsAreFailures(rows[1..]);
      assert rows == [rows[0]] + rows[1..];
    }
  }

  /** For any number of attempts below 4.5 * 10^11 the stored error rate is nearest to the share that failed. */
  lemma StoredRateIsNearest(rows: seq<UsageRecord>)
    requires 10000 * |rows| < SIGNIFICAND
    ensures IsNearest(RollupOf(Fold(rows)).errorRate, 10000 * |Failures(rows)|, |rows|)
  {
    ErrorsAreFailures(rows);
    FoldCounts(rows);
  }

  type Rollups = map<(int, Group), Rollup>

  function OnDay(rows: seq<UsageRecord>, day: int): seq<UsageRecord> {
    if rows == [] then []
    else if DaysWindow(day, day).Contains(rows[0].createdAt) then [rows[0]] + OnDay(rows[1..], day)
    else OnDay(rows[1..], day)
  }

  lemma {:induction false} OnDayMembers(rows: seq<UsageRecord>, day: int, r: UsageRecord)
    ensures r in OnDay(rows, day) <==> r in rows && DayOf(r.createdAt) == day
  {
    if rows != [] {
      OnDayMembers(rows[1..], day, r);
      WindowOfDays(day, day, rows[0].createdAt);
      assert rows == [rows[0]] + rows[1..];
    }
  }

  /** What the attempts of one group on one day amount to. */
  function GroupRollup(rows: seq<UsageRecord>, day: int, g: Group): Rollup {
    RollupOf(Fold(Select(OnDay(rows, day), GroupOf, g)))
  }

  /** The group has attempts on the day. */
  ghost predicate Active(rows: seq<UsageRecord>, day: int, g: Group) {
    exists r :: r in OnDay(rows, day) && GroupOf(r) == g
  }

  lemma ActiveGroups(rows: seq<UsageRecord>, day: int, g: Group)
    ensures g in GroupKeys(OnDay(rows, day), GroupOf) <==> Active(rows, day, g)
  {
    assert Groups(OnDay(rows, day), GroupOf, GroupKeys(OnDay(rows, day), GroupOf));
  }

  /** The day's entries hold exactly the folds of the groups that have attempts on it. */
  ghost predicate Agrees(rollups: Rollups, rows: seq<UsageRecord>, day: int) {
    && (forall g :: (day, g) in rollups <==> Active(rows, day, g))
    && forall g :: (day, g) in rollups ==> rollups[(day, g)] == GroupRollup(rows, day, g)
  }

  /** Every entry belongs to a group that has attempts on its day. */
  ghost predicate NoPhantoms(rollups: Rollups, rows: seq<UsageRecord>) {
    forall day, g :: (day, g) in rollups ==> Active(rows, day, g)
  }

  /** now differs from before in the day's entries of the given groups only, and those hold their folds. */
  ghost predicate RebuiltFor(now: Rollups, before: Rollups, rows: seq<UsageRecord>, day: int, groups: seq<Group>) {
    && (forall k :: k in now <==> k in before || (k.0 == day && k.1 in groups))
    && (forall g :: g in groups ==> now[(day, g)] == GroupRollup(rows, day, g))
    && forall k :: k in before && !(k.0 == day && k.1 in groups) ==> now[k] == before[k]
  }

  ghost predicate RebuiltDay(now: Rollups, before: Rollups, rows: seq<UsageRecord>, day: int) {
    RebuiltFor(now, before, rows, day, GroupKeys(OnDay(rows, day), GroupOf))
  }

  lemma RebuiltOneMore(now: Rollups, before: Rollups, rows: seq<UsageRecord>, day: int, groups: seq<Group>, g: Group)
    requires RebuiltFor(now, before, rows, day, groups)
    ensures RebuiltFor(now[(day, g) := GroupRollup(rows, day, g)], before, rows, day, groups + [g])
  {
  }

  function Rebuilt(before: Rollups, rows: seq<UsageRecord>, day: int): Rollups {
    before + map g | g in GroupKeys(OnDay(rows, day), GroupOf) :: (day, g) := GroupRollup(rows, day, g)
  }

  lemma RebuiltRebuilds(before: Rollups, rows: seq<UsageRecord>, day: int)
    ensures RebuiltDay(Rebuilt(before, rows, day), before, rows, day)
  {
    var groups := GroupKeys(OnDay(rows, day), GroupOf);
    var news := map g | g in groups :: (day, g) := GroupRollup(rows, day, g);
    forall k ensures k in news <==> k.0 == day && k.1 in groups {
      if k.0 == day && k.1 in groups { assert (day, k.1) in news; }
    }
  }

  lemma RebuiltIsUnique(a: Rollups, b: Rollups, before: Rollups, rows: seq<UsageRecord>, day: int)
    requires RebuiltDay(a, before, rows, day) && RebuiltDay(b, before, rows, day)
    ensures a == b
  {
    forall k | k in a ensures k in b && a[k] == b[k] {
      assert k == (k.0, k.1);
    }
  }

  class UsageService {
    var rollups: Rollups

    constructor ()
      ensures rollups == map[]
    {
      rollups := map[];
    }

    /** Recomputes one day: entries are added or overwritten, never removed. */
    method RebuildRollups(rows: seq<UsageRecord>, day: int) returns (written: nat)
      modifies this
      ensures rollups == Rebuilt(old(rollups), rows, day)
      ensures written == |GroupKeys(OnDay(rows, day), GroupOf)|
    {
      var attempts := OnDay(rows, day);
      var groups := GroupKeys(attempts, GroupOf);
      written := 0;
      assert groups[..0] == [];
      for i := 0 to |groups|
        invariant written == i && RebuiltFor(rollups, old(rollups), rows, day, groups[..i])
      {
        var s := Fold(Select(attempts, GroupOf, groups[i]));
        RebuiltOneMore(rollups, old(rollups), rows, day, groups[..i], groups[i]);
        rollups := rollups[(day, groups[i]) := RollupOf(s)];
        written := written + 1;
        assert groups[..i + 1] == groups[..i] + [groups[i]];
      }
      assert groups[..|groups|] == groups;
      RebuiltRebuilds(old(rollups), rows, day);
      RebuiltIsUnique(rollups, Rebuilt(old(rollups), rows, day), old(rollups), rows, day);
    }
  }

  /** Rebuilding leaves other days alone, and rebuilding again changes nothing. */
  lemma RebuildIsIdempotent(before: Rollups, rows: seq<UsageRecord>, day: int, k: (int, Group))
    ensures Rebuilt(Rebuilt(before, rows, day), rows, day) == Rebuilt(before, rows, day)
    ensures k.0 != day ==> (k in Rebuilt(before, rows, day) <==> k in before)
    ensures k.0 != day && k in before ==> Rebuilt(before, rows, day)[k] == before[k]
  {
    var rebuilt := Rebuilt(before, rows, day);
    RebuiltRebuilds(before, rows, day);
    RebuiltRebuilds(rebuilt, rows, day);
    RebuiltIsUnique(Rebuilt(rebuilt, rows, day), rebuilt, rebuilt, rows, day);
  }

  /** After a rebuild the day agrees with the ledger, unless an entry outlived its attempts. */
  lemma RebuildAgrees(before: Rollups, rows: seq<UsageRecord>, day: int)
    requires NoPhantoms(before, rows)
    ensures Agrees(Rebuilt(before, rows, day), rows, day) && NoPhantoms(Rebuilt(before, rows, day), rows)
  {
    var rebuilt := Rebuilt(before, rows, day);
    RebuiltRebuilds(before, rows, day);
    forall d: int, g: Group
      ensures (d, g) in rebuilt ==> Active(rows, d, g)
      ensures Active(rows, day, g) ==> (day, g) in rebuilt && rebuilt[(day, g)] == GroupRollup(rows, day, g)
    {
      ActiveGroups(rows, day, g);
    }
  }

  /** The groups' request counts sum to the day's attempts, and their tokens and cost to the day's. */
  lemma RollupsAddUp(rows: seq<UsageRecord>, day: int)
    ensures var attempts := OnDay(rows, day); var groups := GroupKeys(attempts, GroupOf);
            && Groups(attempts, GroupOf, groups)
            && SumGroups(attempts, GroupOf, groups) == Fold(attempts)
            && SumGroups(attempts, GroupOf, groups).requests == |attempts|
  {
    var attempts := OnDay(rows, day);
    GroupsAddUp(attempts, GroupOf, GroupKeys(attempts, GroupOf));
    FoldCounts(attempts);
  }

  // ----- Deleting what attempts refer to -----------------------------------------------------------

  /** What is deleted together, as a provider with its credentials, models and endpoints is. */
  datatype Gone = Gone(providers: set<nat>, credentials: set<nat>, models: set<nat>, endpoints: set<nat>,
                       apiKeys: set<nat>)

  function Without(id: Option<nat>, gone: set<nat>): Option<nat> {
    if id.Some? && id.value in gone then None else id
  }

  /** The attempt stays, its references to what is gone become null. */
  function Forgetful(r: UsageRecord, gone: Gone): UsageRecord {
    r.(provider := Without(r.provider, gone.providers), credential := Without(r.credential, gone.credentials),
       model := Without(r.model, gone.models), endpoint := Without(r.endpoint, gone.endpoints),
       apiKey := Without(r.apiKey, gone.apiKeys))
  }

  function Forget(rows: seq<UsageRecord>, gone: Gone): seq<UsageRecord> {
    if rows == [] then [] else [Forgetful(rows[0], gone)] + Forget(rows[1..], gone)
  }

  /** The group that attempts of g belong to afterwards. */
  function Moved(g: Group, gone: Gone): Group {
    Group(Without(g.provider, gone.providers), Without(g.model, gone.models), Without(g.apiKey, gone.apiKeys))
  }

  predicate Refers(g: Group, gone: Gone) {
    Moved(g, gone) != g
  }

  /** The rollup entries of whatever is gone go with it. */
  function Cascaded(rollups: Rollups, gone: Gone): Rollups {
    map k | k in rollups && !Refers(k.1, gone) :: rollups[k]
  }

  lemma {:induction false} OnDayForget(rows: seq<UsageRecord>, gone: Gone, day: int)
    ensures OnDay(Forget(rows, gone), day) == Forget(OnDay(rows, day), gone)
  {
    if rows != [] {
      OnDayForget(rows[1..], gone, day);
      assert Forget(rows, gone)[1..] == Forget(rows[1..], gone);
    }
  }

  lemma {:induction false} ForgetMembers(rows: seq<UsageRecord>, gone: Gone, r: UsageRecord)
    requires r in rows
    ensures Forgetful(r, gone) in Forget(rows, gone)
  {
    if r != rows[0] { ForgetMembers(rows[1..], gone, r); }
  }

  lemma SelectFirst(r: UsageRecord, rows: seq<UsageRecord>, g: Group)
    ensures Select([r] + rows, GroupOf, g) == (if GroupOf(r) == g then [r] else []) + Select(rows, GroupOf, g)
  {
    assert ([r] + rows)[1..] == rows;
    assert [] + Select(rows, GroupOf, g) == Select(rows, GroupOf, g);
  }

  /** A group that stays loses no attempt. */
  lemma {:induction false} ForgetKeepsCount(rows: seq<UsageRecord>, gone: Gone, g: Group)
    requires !Refers(g, gone)
    ensures |Select(Forget(rows, gone), GroupOf, g)| >= |Select(rows, GroupOf, g)|
  {
    if rows != [] {
      ForgetKeepsCount(rows[1..], gone, g);
      SelectFirst(Forgetful(rows[0], gone), Forget(rows[1..], gone), g);
    }
  }

  /** And gains those that are moved into it. */
  lemma {:induction false} ForgetAddsCount(rows: seq<UsageRecord>, gone: Gone, r: UsageRecord)
    requires r in rows && Refers(GroupOf(r), gone)
    ensures var g := Moved(GroupOf(r), gone);
            |Select(Forget(rows, gone), GroupOf, g)| > |Select(rows, GroupOf, g)|
  {
    var g := Moved(GroupOf(r), gone);
    SelectFirst(Forgetful(rows[0], gone), Forget(rows[1..], gone), g);
    if r == rows[0] {
      ForgetKeepsCount(rows[1..], gone, g);
    } else {
      ForgetAddsCount(rows[1..], gone, r);
    }
  }

  /** If no attempt refers to what is gone, every group keeps its fold. */
  lemma {:induction false} ForgetKeepsFold(rows: seq<UsageRecord>, gone: Gone, g: Group)
    requires forall r :: r in rows ==> !Refers(GroupOf(r), gone)
    ensures Fold(Select(Forget(rows, gone), GroupOf, g)) == Fold(Select(rows, GroupOf, g))
  {
    if rows != [] {
      ForgetKeepsFold(rows[1..], gone, g);
      assert !Refers(GroupOf(rows[0]), gone);
      SelectCons(Forgetful(rows[0], gone), Forget(rows[1..], gone), GroupOf, g);
      SelectCons(rows[0], rows[1..], GroupOf, g);
      assert rows == [rows[0]] + rows[1..];
    }
  }

  // ----- Any history ---------------------------------------------------------------------------------

  datatype Step = Append(row: UsageRecord) | Rebuild(day: int) | Delete(gone: Gone)

  datatype State = State(rows: seq<UsageRecord>, rollups: Rollups)

  function Next(s: State, step: Step): State {
    match step
    case Append(row) => s.(rows := s.rows + [row])
    case Rebuild(day) => s.(rollups := Rebuilt(s.rollups, s.rows, day))
    case Delete(gone) => State(Forget(s.rows, gone), Cascaded(s.rollups, gone))
  }

  function Run(s: State, steps: seq<Step>): State
    decreases |steps|
  {
    if steps == [] then s else Run(Next(s, steps[0]), steps[1..])
  }

  lemma {:induction false} OnDayAppend(a: seq<UsageRecord>, b: seq<UsageRecord>, day: int)
    ensures OnDay(a + b, day) == OnDay(a, day) + OnDay(b, day)
  {
    if a == [] {
      assert a + b == b;
    } else {
      OnDayAppend(a[1..], b, day);
      assert (a + b)[0] == a[0] && (a + b)[1..] == a[1..] + b;
    }
  }

  lemma AppendKeepsNoPhantoms(rollups: Rollups, rows: seq<UsageRecord>, row: UsageRecord)
    requires NoPhantoms(rollups, rows)
    ensures NoPhantoms(rollups, rows + [row])
  {
    forall day, g | (day, g) in rollups ensures Active(rows + [row], day, g) {
      OnDayAppend(rows, [row], day);
      var r :| r in OnDay(rows, day) && GroupOf(r) == g;
      assert r in OnDay(rows + [row], day);
    }
  }

  lemma ForgetKeepsActive(rows: seq<UsageRecord>, gone: Gone, day: int, g: Group)
    requires Active(rows, day, g)
    ensures Active(Forget(rows, gone), day, Moved(g, gone))
  {
    var r :| r in OnDay(rows, day) && GroupOf(r) == g;
    OnDayForget(rows, gone, day);
    ForgetMembers(OnDay(rows, day), gone, r);
    assert GroupOf(Forgetful(r, gone)) == Moved(g, gone);
  }

  lemma DeleteKeepsNoPhantoms(rollups: Rollups, rows: seq<UsageRecord>, gone: Gone)
    requires NoPhantoms(rollups, rows)
    ensures NoPhantoms(Cascaded(rollups, gone), Forget(rows, gone))
  {
    forall day, g | (day, g) in Cascaded(rollups, gone) ensures Active(Forget(rows, gone), day, g) {
      ForgetKeepsActive(rows, gone, day, g);
    }
  }

  lemma {:induction false} RunKeepsNoPhantoms(s: State, steps: seq<Step>)
    requires NoPhantoms(s.rollups, s.rows)
    ensures NoPhantoms(Run(s, steps).rollups, Run(s, steps).rows)
    decreases |steps|
  {
    if steps != [] {
      match steps[0] {
        case Append(row) => AppendKeepsNoPhantoms(s.rollups, s.rows, row);
        case Rebuild(day) => RebuildAgrees(s.rollups, s.rows, day);
        case Delete(gone) => DeleteKeepsNoPhantoms(s.rollups, s.rows, gone);
      }
      RunKeepsNoPhantoms(Next(s, steps[0]), steps[1..]);
    }
  }

  /** Whatever was appended, deleted and rebuilt before, a rebuilt day agrees with the ledger. */
  lemma RebuiltDayAgrees(steps: seq<Step>, day: int)
    ensures var s := Next(Run(State([], map[]), steps), Rebuild(day)); Agrees(s.rollups, s.rows, day)
  {
    RunKeepsNoPhantoms(State([], map[]), steps);
    var s := Run(State([], map[]), steps);
    RebuildAgrees(s.rollups, s.rows, day);
  }

  // ----- When a rollup goes stale --------------------------------------------------------------------

  /** The step appends an attempt of the day, or deletes what one refers to. */
  ghost predicate Hits(s: State, step: Step, day: int) {
    match step
    case Append(row) => DayOf(row.createdAt) == day
    case Rebuild(_) => false
    case Delete(gone) => exists r :: r in OnDay(s.rows, day) && Refers(GroupOf(r), gone)
  }

  ghost predicate AnyHits(s: State, steps: seq<Step>, day: int)
    decreases |steps|
  {
    steps != [] && (Hits(s, steps[0], day) || AnyHits(Next(s, steps[0]), steps[1..], day))
  }

  function Attempts(rows: seq<UsageRecord>, day: int, g: Group): nat {
    |Select(OnDay(rows, day), GroupOf, g)|
  }

  lemma RollupCounts(rows: seq<UsageRecord>, day: int, g: Group)
    ensures GroupRollup(rows, day, g).requests == Attempts(rows, day, g)
  {
    FoldCounts(Select(OnDay(rows, day), GroupOf, g));
  }

  /** No entry of the day counts more attempts than there are. */
  ghost predicate Bounded(s: State, day: int) {
    forall g :: (day, g) in s.rollups ==> s.rollups[(day, g)].requests <= Attempts(s.rows, day, g)
  }

  ghost predicate BehindAt(s: State, day: int, g: Group) {
    Active(s.rows, day, g) && ((day, g) in s.rollups ==> s.rollups[(day, g)].requests < Attempts(s.rows, day, g))
  }

  /** Some group has attempts that its entry does not count. */
  ghost predicate Behind(s: State, day: int) {
    exists g :: BehindAt(s, day, g)
  }

  lemma AgreesIsNotBehind(s: State, day: int)
    requires Agrees(s.rollups, s.rows, day)
    ensures Bounded(s, day) && !Behind(s, day)
  {
    forall g ensures (day, g) in s.rollups ==> s.rollups[(day, g)].requests == Attempts(s.rows, day, g) {
      RollupCounts(s.rows, day, g);
    }
  }

  lemma {:induction false} SelectAppend(a: seq<UsageRecord>, b: seq<UsageRecord>, g: Group)
    ensures Select(a + b, GroupOf, g) == Select(a, GroupOf, g) + Select(b, GroupOf, g)
  {
    if a == [] {
      assert a + b == b;
    } else {
      SelectAppend(a[1..], b, g);
      assert (a + b)[0] == a[0] && (a + b)[1..] == a[1..] + b;
    }
  }

  /** An appended attempt is counted in its own group and nowhere else. */
  lemma AppendCounts(rows: seq<UsageRecord>, row: UsageRecord, day: int, g: Group)
    ensures Attempts(rows + [row], day, g)
         == Attempts(rows, day, g) + if DayOf(row.createdAt) == day && GroupOf(row) == g then 1 else 0
    ensures Active(rows, day, g) || (DayOf(row.createdAt) == day && GroupOf(row) == g) ==> Active(rows + [row], day, g)
    ensures DayOf(row.createdAt) != day ==> OnDay(rows + [row], day) == OnDay(rows, day)
  {
    OnDayAppend(rows, [row], day);
    OnDayMembers([row], day, row);
    WindowOfDays(day, day, row.createdAt);
    assert [row][1..] == [];
    assert OnDay([row], day) == if DayOf(row.createdAt) == day then [row] else [];
    SelectAppend(OnDay(rows, day), OnDay([row], day), g);
    SelectFirst(row, [], g);
    assert [row] + [] == [row];
    assert forall r :: r in OnDay(rows, day) ==> r in OnDay(rows + [row], day);
  }

  lemma DeleteCounts(rows: seq<UsageRecord>, gone: Gone, day: int, g: Group)
    requires !Refers(g, gone)
    ensures Attempts(Forget(rows, gone), day, g) >= Attempts(rows, day, g)
    ensures forall r :: r in OnDay(rows, day) && Refers(GroupOf(r), gone) && Moved(GroupOf(r), gone) == g ==>
      Attempts(Forget(rows, gone), day, g) > Attempts(rows, day, g)
  {
    OnDayForget(rows, gone, day);
    ForgetKeepsCount(OnDay(rows, day), gone, g);
    forall r | r in OnDay(rows, day) && Refers(GroupOf(r), gone) && Moved(GroupOf(r), gone) == g
      ensures Attempts(Forget(rows, gone), day, g) > Attempts(rows, day, g)
    {
      ForgetAddsCount(OnDay(rows, day), gone, r);
    }
  }

  lemma BoundedStep(s: State, step: Step, day: int)
    requires Bounded(s, day) && step != Rebuild(day)
    ensures Bounded(Next(s, step), day)
  {
    var t := Next(s, step);
    forall g | (day, g) in t.rollups ensures t.rollups[(day, g)].requests <= Attempts(t.rows, day, g) {
      match step
      case Append(row) => AppendCounts(s.rows, row, day, g);
      case Rebuild(other) => RebuildIsIdempotent(s.rollups, s.rows, other, (day, g));
      case Delete(gone) => DeleteCounts(s.rows, gone, day, g);
    }
  }

  /** A deletion that hits an attempt of the day leaves the group it moves to behind. */
  lemma HitByDeletion(s: State, gone: Gone, day: int, r: UsageRecord)
    requires Bounded(s, day) && r in OnDay(s.rows, day) && Refers(GroupOf(r), gone)
    ensures BehindAt(Next(s, Delete(gone)), day, Moved(GroupOf(r), gone))
  {
    var g := Moved(GroupOf(r), gone);
    ForgetKeepsActive(s.rows, gone, day, GroupOf(r));
    DeleteCounts(s.rows, gone, day, g);
  }

  lemma HitLeavesBehind(s: State, step: Step, day: int)
    requires Bounded(s, day) && Hits(s, step, day)
    ensures Behind(Next(s, step), day)
  {
    match step
    case Append(row) =>
      AppendCounts(s.rows, row, day, GroupOf(row));
      assert BehindAt(Next(s, step), day, GroupOf(row));
    case Delete(gone) =>
      var r :| r in OnDay(s.rows, day) && Refers(GroupOf(r), gone);
      HitByDeletion(s, gone, day, r);
  }

  lemma BehindStep(s: State, step: Step, day: int)
    requires Bounded(s, day) && Behind(s, day) && step != Rebuild(day)
    ensures Behind(Next(s, step), day)
  {
    var g :| BehindAt(s, day, g);
    var t := Next(s, step);
    match step
    case Append(row) =>
      AppendCounts(s.rows, row, day, g);
      assert BehindAt(t, day, g);
    case Rebuild(other) =>
      RebuildIsIdempotent(s.rollups, s.rows, other, (day, g));
      assert BehindAt(t, day, g);
    case Delete(gone) =>
      if Refers(g, gone) {
        var r :| r in OnDay(s.rows, day) && GroupOf(r) == g;
        HitByDeletion(s, gone, day, r);
      } else {
        ForgetKeepsActive(s.rows, gone, day, g);
        DeleteCounts(s.rows, gone, day, g);
        assert BehindAt(t, day, g);
      }
  }

  lemma {:induction false} BehindRun(s: State, steps: seq<Step>, day: int)
    requires Bounded(s, day) && Behind(s, day) && Rebuild(day) !in steps
    ensures !Agrees(Run(s, steps).rollups, Run(s, steps).rows, day)
    decreases |steps|
  {
    if steps == [] {
      if Agrees(s.rollups, s.rows, day) { AgreesIsNotBehind(s, day); }
    } else {
      BoundedStep(s, steps[0], day);
      BehindStep(s, steps[0], day);
      BehindRun(Next(s, steps[0]), steps[1..], day);
    }
  }

  lemma MissKeepsRollup(s: State, step: Step, day: int, g: Group)
    requires !Hits(s, step, day) && step != Rebuild(day)
    ensures Active(Next(s, step).rows, day, g) <==> Active(s.rows, day, g)
    ensures GroupRollup(Next(s, step).rows, day, g) == GroupRollup(s.rows, day, g)
  {
    match step
    case Append(row) => AppendCounts(s.rows, row, day, g);
    case Rebuild(_) =>
    case Delete(gone) =>
      OnDayForget(s.rows, gone, day);
      ForgetKeepsFold(OnDay(s.rows, day), gone, g);
      MissKeepsActive(OnDay(s.rows, day), gone, g);
  }

  lemma {:induction false} MissKeepsActive(rows: seq<UsageRecord>, gone: Gone, g: Group)
    requires forall r :: r in rows ==> !Refers(GroupOf(r), gone)
    ensures (exists r :: r in Forget(rows, gone) && GroupOf(r) == g) <==> exists r :: r in rows && GroupOf(r) == g
  {
    if rows != [] {
      MissKeepsActive(rows[1..], gone, g);
      assert !Refers(GroupOf(rows[0]), gone);
      assert GroupOf(Forgetful(rows[0], gone)) == GroupOf(rows[0]);
      assert rows == [rows[0]] + rows[1..];
    }
  }

  lemma MissKeepsAgreement(s: State, step: Step, day: int)
    requires Agrees(s.rollups, s.rows, day) && !Hits(s, step, day) && step != Rebuild(day)
    ensures Agrees(Next(s, step).rollups, Next(s, step).rows, day)
  {
    var t := Next(s, step);
    forall g
      ensures (day, g) in t.rollups <==> Active(t.rows, day, g)
      ensures (day, g) in t.rollups ==> t.rollups[(day, g)] == GroupRollup(t.rows, day, g)
    {
      MissKeepsRollup(s, step, day, g);
      if step.Rebuild? { RebuildIsIdempotent(s.rollups, s.rows, step.day, (day, g)); }
    }
  }

  /** An agreeing day stays right until it is hit, and from then on is wrong until it is rebuilt. */
  lemma {:induction false} StaleExactlyAfterHit(s: State, steps: seq<Step>, day: int)
    requires Agrees(s.rollups, s.rows, day) && Rebuild(day) !in steps
    ensures Agrees(Run(s, steps).rollups, Run(s, steps).rows, day) <==> !AnyHits(s, steps, day)
    decreases |steps|
  {
    if steps != [] {
      if Hits(s, steps[0], day) {
        AgreesIsNotBehind(s, day);
        BoundedStep(s, steps[0], day);
        HitLeavesBehind(s, steps[0], day);
        BehindRun(Next(s, steps[0]), steps[1..], day);
      } else {
        MissKeepsAgreement(s, steps[0], day);
        StaleExactlyAfterHit(Next(s, steps[0]), steps[1..], day);
      }
    }
  }
}
