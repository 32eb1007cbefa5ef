/** What the numbers of rollups and reports are, told by the columns of the attempts and by the client requests. */
module AnalyticsRules {
  import opened Prelude
  import Cost
  import opened Gateway
  import opened Failover
  import opened Accounting
  import opened Usage
  import Reports

  // ----- What a fold adds up ------------------------------------------------------------------

  function LatencySum(rows: seq<UsageRecord>): int {
    if rows == [] then 0 else rows[0].latency + LatencySum(rows[1..])
  }

  /** A fold counts the attempts and the failed ones, and sums up the columns. */
  lemma {:induction false} FoldTells(rows: seq<UsageRecord>)
    ensures var s := Fold(rows);
            && s.requests == |rows| && s.errors == |Failures(rows)|
            && Totals(s.input, s.output, s.tokens, s.cost) == SumRows(rows) && s.latency == LatencySum(rows)
  {
    if rows != [] { FoldTells(rows[1..]); }
  }

  function SumRequests(requests: seq<Request>): Totals {
    if requests == [] then Totals(0, 0, 0, 0)
    else OfRequest(requests[|requests| - 1]).Plus(SumRequests(requests[..|requests| - 1]))
  }

  function Answered(requests: seq<Request>): nat {
    if requests == [] then 0
    else Answered(requests[..|requests| - 1]) + if requests[|requests| - 1].state == Succeeded then 1 else 0
  }

  lemma {:induction false} FailuresAppend(a: seq<UsageRecord>, b: seq<UsageRecord>)
    ensures Failures(a + b) == Failures(a) + Failures(b)
  {
    if a == [] {
      assert a + b == b;
    } else {
      FailuresAppend(a[1..], b);
      assert (a + b)[0] == a[0] && (a + b)[1..] == a[1..] + b;
      Associates(if a[0].error == None then [] else [a[0]], Failures(a[1..]), Failures(b));
    }
  }

  lemma {:induction false} AllButLastFailed(rows: seq<UsageRecord>)
    requires forall k :: 0 <= k < |rows| - 1 ==> rows[k].error.Some?
    ensures |Failures(rows)| == |rows| - if rows != [] && rows[|rows| - 1].error.None? then 1 else 0
  {
    if |rows| > 1 {
      assert forall k :: 0 <= k < |rows[1..]| - 1 ==> rows[1..][k] == rows[k + 1];
      AllButLastFailed(rows[1..]);
    } else if |rows| == 1 {
      assert rows[1..] == [];
    }
  }

  lemma EarlierFailed(c: Call, id: nat)
    ensures var rows := RowsFrom(c, id, 0); forall k :: 0 <= k < |rows| - 1 ==> rows[k].error.Some?
  {
    var rows := RowsFrom(c, id, 0);
    LastRow(c, id);
    forall k | 0 <= k < |rows| - 1 ensures rows[k].error.Some? { EarlierRowFailed(c, id, k); }
  }

  lemma CallFailures(c: Call, id: nat)
    ensures var rows := RowsFrom(c, id, 0);
            |Failures(rows)| + (if Closed(c, id).state == Succeeded then 1 else 0) == |rows|
  {
    LastRowAnswers(c, id);
    EarlierFailed(c, id);
    AllButLastFailed(RowsFrom(c, id, 0));
    assert Closed(c, id).state == Succeeded <==> AnsweredFrom(c, 0).Some?;
  }

  lemma TotalsOfAttempts(l: Ledger, c: Call)
    requires Recorded(c)
    ensures var q := Closed(c, |l.requests|); var rows := RowsFrom(c, |l.requests|, 0);
            && SumRows(Apply(l, c).usage) == SumRows(l.usage).Plus(OfRequest(q))
            && |Failures(Apply(l, c).usage)| == |Failures(l.usage)| + |rows| - (if q.state == Succeeded then 1 else 0)
  {
    var id := |l.requests|;
    SumRowsAppend(l.usage, RowsFrom(c, id, 0));
    CallIsKept(c, id);
    FailuresAppend(l.usage, RowsFrom(c, id, 0));
    CallFailures(c, id);
  }

  ghost predicate TotalsAgree(l: Ledger) {
    && SumRows(l.usage) == SumRequests(l.requests)
    && |Failures(l.usage)| + Answered(l.requests) == |l.usage|
  }

  lemma OneMoreRequest(requests: seq<Request>, q: Request)
    ensures SumRequests(requests + [q]) == SumRequests(requests).Plus(OfRequest(q))
    ensures Answered(requests + [q]) == Answered(requests) + if q.state == Succeeded then 1 else 0
  {
    assert (requests + [q])[..|requests|] == requests;
  }

  lemma CallKeepsTotals(l: Ledger, c: Call)
    requires TotalsAgree(l)
    ensures TotalsAgree(Apply(l, c))
  {
    if Recorded(c) {
      TotalsOfAttempts(l, c);
      OneMoreRequest(l.requests, Closed(c, |l.requests|));
    }
  }

  lemma {:induction false} ReplayKeepsTotals(calls: seq<Call>)
    ensures TotalsAgree(Replay(calls))
  {
    if calls != [] {
      ReplayKeepsTotals(calls[..|calls| - 1]);
      CallKeepsTotals(Replay(calls[..|calls| - 1]), calls[|calls| - 1]);
    }
  }

  /** Over every history of calls, a fold of all attempts agrees with the client requests in tokens and cost, and
      every attempt either failed or answered a request. */
  lemma LedgerTotals(calls: seq<Call>)
    ensures var l := Replay(calls); var s := Fold(l.usage);
            && Totals(s.input, s.output, s.tokens, s.cost) == SumRequests(l.requests)
            && s.errors + Answered(l.requests) == s.requests == |l.usage|
  {
    FoldTells(Replay(calls).usage);
    ReplayKeepsTotals(calls);
  }

  // ----- Which attempts count -----------------------------------------------------------------

  lemma {:induction false} WhereTells(rows: seq<UsageRecord>, p: UsageRecord -> bool, r: UsageRecord)
    ensures multiset(Where(rows, p))[r] == if p(r) then multiset(rows)[r] else 0
  {
    if rows != [] {
      WhereTells(rows[1..], p, r);
      assert rows == [rows[0]] + rows[1..];
    }
  }

  lemma {:induction false} SelectTells<K>(rows: seq<UsageRecord>, key: UsageRecord -> K, k: K, r: UsageRecord)
    ensures multiset(Select(rows, key, k))[r] == if key(r) == k then multiset(rows)[r] else 0
  {
    if rows != [] {
      SelectTells(rows[1..], key, k, r);
      assert rows == [rows[0]] + rows[1..];
    }
  }

  lemma {:induction false} OnDayTells(rows: seq<UsageRecord>, day: int, r: UsageRecord)
    ensures multiset(OnDay(rows, day))[r] == if day * 86_400_000_000 <= r.createdAt < (day + 1) * 86_400_000_000
                                             then multiset(rows)[r] else 0
  {
    if rows != [] {
      OnDayTells(rows[1..], day, r);
      assert rows == [rows[0]] + rows[1..];
    }
  }

  /** The attempts behind a rollup entry: those of the day with the entry's provider, model and key. */
  function EntryAttempts(rows: seq<UsageRecord>, day: int, g: Group): seq<UsageRecord> {
    Select(OnDay(rows, day), GroupOf, g)
  }

  lemma EntryAttemptsTell(rows: seq<UsageRecord>, day: int, g: Group, r: UsageRecord)
    ensures multiset(EntryAttempts(rows, day, g))[r] ==
            if && day * 86_400_000_000 <= r.createdAt < (day + 1) * 86_400_000_000
               && r.provider == g.provider && r.model == g.model && r.apiKey == g.apiKey
            then multiset(rows)[r] else 0
  {
    OnDayTells(rows, day, r);
    SelectTells(OnDay(rows, day), GroupOf, g, r);
  }

  /** An entry holds their number, their tokens and cost, their mean latency and the share that failed. */
  lemma EntryTells(rows: seq<UsageRecord>, day: int, g: Group)
    ensures var e := GroupRollup(rows, day, g); var attempts := EntryAttempts(rows, day, g);
            && e.requests == |attempts| && e.tokens == SumRows(attempts).total && e.cost == SumRows(attempts).cost
            && e.errorRate == Rate(|Failures(attempts)|, |attempts|)
            && (attempts != [] && LatencySum(attempts) >= 0 ==>
                  e.latency * |attempts| <= LatencySum(attempts) < (e.latency + 1) * |attempts|)
  {
    FoldTells(EntryAttempts(rows, day, g));
  }

  /** A report counts the attempts inside its window that its filter does not exclude. */
  lemma BaseTells(rows: seq<UsageRecord>, f: Reports.Filter, w: Window, r: UsageRecord)
    ensures multiset(Reports.Base(rows, f, w))[r] ==
            if && w.start <= r.createdAt <= w.end
               && (f.provider == None || f.provider == r.provider) && (f.model == None || f.model == r.model)
               && (f.apiKey == None || f.apiKey == r.apiKey)
            then multiset(rows)[r] else 0
  {
    WhereTells(rows, (x: UsageRecord) => w.Contains(x.createdAt) && f.Admits(x), r);
  }

  // ----- Buckets and rows ---------------------------------------------------------------------

  /** A bucket starts at a whole hour, at midnight, or at the midnight before a Monday, and what falls into it lies no
      further behind than an hour, a day or a week; the first of January 1970 was a Thursday. */
  lemma BucketTells(t: int, interval: Reports.Interval, monthStart: int -> int)
    ensures var b := Reports.Bucket(t, interval, monthStart);
            match interval
            case Hour => b % 3_600_000_000 == 0 && b <= t < b + 3_600_000_000
            case Day => b % 86_400_000_000 == 0 && b <= t < b + 86_400_000_000
            case Week => (b - 4 * 86_400_000_000) % 604_800_000_000 == 0 && b <= t < b + 604_800_000_000
            case Month => b == monthStart(t / 86_400_000_000) * 86_400_000_000
  {
    var d := DayOf(t);
    if interval.Week? {
      var monday := d - (d + 3) % 7;
      var week := (d + 3) / 7;
      assert monday - 4 == 7 * (week - 1);
      assert monday * DAY - 4 * 86_400_000_000 == (week - 1) * 604_800_000_000;
    }
  }

  /** A point of a series tells about the attempts of its bucket what an entry of the rollup tells. */
  lemma PointTells(b: int, attempts: seq<UsageRecord>)
    ensures var p := Reports.PointOf(b, Fold(attempts));
            && p.bucket == b && p.requests == |attempts|
            && p.tokens == SumRows(attempts).total && p.cost == SumRows(attempts).cost
            && p.errorRate == Rate(|Failures(attempts)|, |attempts|)
            && p.latency == Average(LatencySum(attempts), |attempts|)
  {
    FoldTells(attempts);
  }

  /** And so does a row of a breakdown, which has the name of what it is about, or a dash. */
  lemma BreakdownTells(k: Option<nat>, attempts: seq<UsageRecord>, names: map<nat, string>)
    ensures var row := Reports.BreakdownOf(k, Fold(attempts), names);
            && row.key == k && row.stats == Fold(attempts)
            && row.title == (match k case None => "\U{2014}"
                                     case Some(id) => if id in names then names[id] else "\U{2014}")
            && row.errorRate == Rate(|Failures(attempts)|, |attempts|)
            && row.latency == Average(LatencySum(attempts), |attempts|)
  {
    FoldTells(attempts);
  }

  lemma DimensionTells(r: UsageRecord)
    ensures Reports.DimensionOf(r, Reports.ByProvider) == r.provider
    ensures Reports.DimensionOf(r, Reports.ByModel) == r.model
    ensures Reports.DimensionOf(r, Reports.ByApiKey) == r.apiKey
  {
  }

  // ----- Deletions ----------------------------------------------------------------------------

  /** A deletion empties the references to what is gone, and nothing else of an attempt. */
  lemma AttemptAfterDeletion(r: UsageRecord, gone: Gone)
    ensures var t := Forgetful(r, gone);
            && t.provider == (if r.provider.Some? && r.provider.value in gone.providers then None else r.provider)
            && t.credential == (if r.credential.Some? && r.credential.value in gone.credentials then None
                                else r.credential)
            && t.model == (if r.model.Some? && r.model.value in gone.models then None else r.model)
            && t.endpoint == (if r.endpoint.Some? && r.endpoint.value in gone.endpoints then None else r.endpoint)
            && t.apiKey == (if r.apiKey.Some? && r.apiKey.value in gone.apiKeys then None else r.apiKey)
            && t.(provider := r.provider, credential := r.credential, model := r.model, endpoint := r.endpoint,
                  apiKey := r.apiKey) == r
  {
  }

  predicate Mentions(g: Group, gone: Gone) {
    || (g.provider.Some? && g.provider.value in gone.providers)
    || (g.model.Some? && g.model.value in gone.models)
    || (g.apiKey.Some? && g.apiKey.value in gone.apiKeys)
  }

  lemma {:induction false} ForgetEach(rows: seq<UsageRecord>, gone: Gone)
    ensures |Forget(rows, gone)| == |rows|
    ensures forall i :: 0 <= i < |rows| ==> Forget(rows, gone)[i] == Forgetful(rows[i], gone)
  {
    if rows != [] { ForgetEach(rows[1..], gone); }
  }

  /** It keeps every attempt, and of the entries exactly those that mention nothing that is gone. */
  lemma DeletionTells(s: Usage.State, gone: Gone)
    ensures var t := Usage.Next(s, Delete(gone));
            && |t.rows| == |s.rows| && (forall i :: 0 <= i < |s.rows| ==> t.rows[i] == Forgetful(s.rows[i], gone))
            && (forall k :: k in t.rollups <==> k in s.rollups && !Mentions(k.1, gone))
            && forall k :: k in t.rollups ==> t.rollups[k] == s.rollups[k]
  {
    ForgetEach(s.rows, gone);
    forall g: Group ensures Refers(g, gone) <==> Mentions(g, gone) {}
  }

  // ----- The float behind the error rate ------------------------------------------------------

  lemma {:induction false} PowersOfTwo(a: nat, b: nat)
    ensures Pow2(0) == 1 && Pow2(1) == 2 && Pow2(a + b) == Pow2(a) * Pow2(b)
  {
    if a > 0 {
      PowersOfTwo(a - 1, b);
      assert Pow2(a + b) == 2 * Pow2(a - 1 + b);
    }
  }

  lemma {:induction false} DoublingsAre(x: nat, goal: nat, n: nat)
    requires x > 0 && goal <= x * Pow2(n) && (n > 0 ==> x * Pow2(n) < 2 * goal)
    ensures Doublings(x, goal) == n
    decreases n
  {
    if n > 0 {
      assert x * Pow2(n) == 2 * x * Pow2(n - 1);
      PowerIsPositive(n - 1);
      assert x <= x * Pow2(n - 1);
      DoublingsAre(2 * x, goal, n - 1);
    }
  }

  lemma {:induction false} PowerIsPositive(n: nat)
    ensures Pow2(n) >= 1
  {
    if n > 0 { PowerIsPositive(n - 1); }
  }

  /** Scaled by a power of two the quotient has 53 binary digits before the point; rounded there it is the float, and
      the rate is the float, taken exactly, rounded at four decimal places. Both times half goes to even. */
  lemma RateTells(errors: nat, requests: nat, n: nat, float: int)
    requires 0 < errors <= requests
    requires SIGNIFICAND * requests <= errors * Pow2(n) < 2 * SIGNIFICAND * requests
    requires Cost.IsHalfEven(float, errors * Pow2(n), requests)
    ensures Cost.IsHalfEven(Rate(errors, requests), 10000 * float, Pow2(n))
  {
    DoublingsAre(errors, SIGNIFICAND * requests, n);
    Cost.HalfEvenIsNearest(errors * Pow2(n), requests);
    Cost.HalfEvenUnique(float, Cost.HalfEven(errors * Pow2(n), requests), errors * Pow2(n), requests);
    PowerIsPositive(n);
    Cost.HalfEvenIsNearest(10000 * float, Pow2(n));
  }
}
