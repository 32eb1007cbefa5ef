/** What the ledger keeps over any history of client requests. */
module Accounting {
  import opened Prelude
  import opened Gateway
  import opened Failover

  // ----- Sums ---------------------------------------------------------------------------------

  datatype Totals = Totals(input: int, output: int, total: int, cost: int) {
    function Plus(t: Totals): Totals {
      Totals(input + t.input, output + t.output, total + t.total, cost + t.cost)
    }
  }

  function Zero(): Totals {
    Totals(0, 0, 0, 0)
  }

  function OfRow(r: UsageRecord): Totals {
    Totals(r.inputTokens, r.outputTokens, r.totalTokens, r.cost)
  }

  function OfRequest(q: Request): Totals {
    Totals(q.inputTokens, q.outputTokens, q.totalTokens, q.cost)
  }

  function SumRows(rows: seq<UsageRecord>): Totals {
    if rows == [] then Zero() else OfRow(rows[0]).Plus(SumRows(rows[1..]))
  }

  lemma {:induction false} SumRowsAppend(a: seq<UsageRecord>, b: seq<UsageRecord>)
    ensures SumRows(a + b) == SumRows(a).Plus(SumRows(b))
  {
    if a == [] {
      assert a + b == b;
    } else {
      assert (a + b)[0] == a[0] && (a + b)[1..] == a[1..] + b;
      SumRowsAppend(a[1..], b);
    }
  }

  // ----- One request --------------------------------------------------------------------------

  lemma FailedRowIsFree(c: Call, request: nat, i: nat)
    requires i < |c.tries| && c.tries[i].reply.error.Some?
    ensures OfRow(Row(c, request, i)) == Zero()
  {
  }

  lemma SumCons(row: UsageRecord, rest: seq<UsageRecord>)
    ensures SumRows([row] + rest) == OfRow(row).Plus(SumRows(rest))
  {
    assert ([row] + rest)[1..] == rest;
  }

  lemma SumOne(row: UsageRecord)
    ensures SumRows([row]) == OfRow(row)
  {
    assert [row][1..] == [];
  }

  /** What the client is charged for. */
  function Billed(c: Call, request: nat, i: nat): Totals
    requires i <= |c.tries|
  {
    match AnsweredFrom(c, i)
    case Some(j) => OfRow(Row(c, request, j))
    case None => Zero()
  }

  /** A failed attempt costs nothing, so the rows sum up to the answering one. */
  lemma {:induction false} RowsSumToAnswer(c: Call, request: nat, i: nat)
    requires i <= |c.tries|
    ensures SumRows(RowsFrom(c, request, i)) == Billed(c, request, i)
    decreases |c.tries| - i
  {
    if i < |c.tries| {
      match VerdictAt(c, i)
      case OutOfTime =>
      case Escape =>
      case Skip => RowsSumToAnswer(c, request, i + 1);
      case Retry =>
        RowsSumToAnswer(c, request, i + 1);
        FailedRowIsFree(c, request, i);
        SumCons(Row(c, request, i), RowsFrom(c, request, i + 1));
      case GiveUp =>
        FailedRowIsFree(c, request, i);
        SumOne(Row(c, request, i));
      case Success =>
        SumOne(Row(c, request, i));
    }
  }

  /** How a closed request and its attempt rows fit together. */
  ghost predicate Kept(q: Request, rows: seq<UsageRecord>) {
    && InOrder(rows, 0, q.attemptCount)
    && Of(rows, q.id, q.apiKey, q.streaming)
    && (forall k :: 0 <= k < |rows| && rows[k].isFinal ==> k == |rows| - 1)
    && !q.state.Pending?
    && (q.state.Succeeded? <==> exists k :: 0 <= k < |rows| && rows[k].error.None?)
    && OfRequest(q) == SumRows(rows)
  }

  /** Calls before the last failed retryably. */
  lemma {:induction false} EarlierCallsRetry(c: Call, i: nat)
    requires i <= |c.tries|
    ensures forall k :: 0 <= k < |Called(c, i)| - 1 ==> VerdictAt(c, Called(c, i)[k]).Retry?
    ensures forall k :: 0 <= k < |Called(c, i)| ==> Called(c, i)[k] < Rounds(c, i)
    ensures i <= Rounds(c, i) && (i < |c.tries| ==> i < Rounds(c, i))
    decreases |c.tries| - i
  {
    if i < |c.tries| && Passes(c, i) { EarlierCallsRetry(c, i + 1); }
  }

  ghost predicate InOrder(rows: seq<UsageRecord>, from: nat, to: nat) {
    && (forall j, k :: 0 <= j < k < |rows| ==> rows[j].attempt < rows[k].attempt)
    && (forall k :: 0 <= k < |rows| ==> from < rows[k].attempt <= to)
  }

  ghost predicate Of(rows: seq<UsageRecord>, request: nat, key: Option<nat>, streaming: bool) {
    forall k :: 0 <= k < |rows| ==>
      rows[k].request == request && rows[k].apiKey == key && rows[k].streaming == streaming
  }

  lemma RowsInOrder(c: Call, request: nat)
    ensures InOrder(RowsFrom(c, request, 0), 0, Rounds(c, 0))
    ensures Of(RowsFrom(c, request, 0), request, c.key, c.kind.Stream?)
  {
    OneRowPerCall(c, request, 0);
    CallsInOrder(c, 0);
    EarlierCallsRetry(c, 0);
  }

  /** A call that is not the last leaves a row that is neither final nor without error. */
  lemma EarlierRowFailed(c: Call, request: nat, k: nat)
    requires k < |Called(c, 0)| - 1
    ensures k < |RowsFrom(c, request, 0)|
    ensures !RowsFrom(c, request, 0)[k].isFinal && RowsFrom(c, request, 0)[k].error.Some?
  {
    OneRowPerCall(c, request, 0);
    EarlierCallsRetry(c, 0);
    assert RowsFrom(c, request, 0)[k] == Row(c, request, Called(c, 0)[k]);
  }

  /** The last call leaves the last row, unless it escapes. */
  lemma LastRow(c: Call, request: nat)
    ensures var rows, w := RowsFrom(c, request, 0), Called(c, 0);
            if Escapes(c, 0) then |rows| == |w| - 1
            else |rows| == |w| && (w != [] ==> rows[|w| - 1] == Row(c, request, w[|w| - 1]))
  {
    OneRowPerCall(c, request, 0);
  }

  lemma LastRowAnswers(c: Call, request: nat)
    ensures var rows := RowsFrom(c, request, 0);
            AnsweredFrom(c, 0).Some? <==> rows != [] && rows[|rows| - 1].error.None?
  {
    var rows := RowsFrom(c, request, 0);
    LastRow(c, request);
    LastCallDecides(c, 0);
    LastCallEscapes(c, 0);
    if Escapes(c, 0) && rows != [] { EarlierRowFailed(c, request, |rows| - 1); }
  }

  lemma FinalIsLast(c: Call, request: nat)
    ensures var rows := RowsFrom(c, request, 0);
            && (forall k :: 0 <= k < |rows| && rows[k].isFinal ==> k == |rows| - 1)
            && (AnsweredFrom(c, 0).Some? <==> exists k :: 0 <= k < |rows| && rows[k].error.None?)
  {
    var rows := RowsFrom(c, request, 0);
    LastRowAnswers(c, request);
    LastRow(c, request);
    forall k | 0 <= k < |rows| - 1 ensures !rows[k].isFinal && rows[k].error.Some? {
      EarlierRowFailed(c, request, k);
    }
  }

  /** Every way a request can end leaves rows that fit it. */
  lemma CallIsKept(c: Call, request: nat)
    ensures Kept(Closed(c, request), RowsFrom(c, request, 0))
  {
    RowsSumToAnswer(c, request, 0);
    RowsInOrder(c, request);
    FinalIsLast(c, request);
  }

  /** Which requests have a final attempt: the answered ones and, except for chat completions, those
      whose last call failed for good. A request that reached no provider has none. */
  lemma FinalIff(c: Call, request: nat)
    ensures var rows := RowsFrom(c, request, 0);
            (exists k :: 0 <= k < |rows| && rows[k].isFinal) <==>
            match LastCall(c, 0)
            case None => false
            case Some(j) => EndsFinal(c, j)
  {
    var rows := RowsFrom(c, request, 0);
    LastRow(c, request);
    LastCallEscapes(c, 0);
    if Escapes(c, 0) {
      forall k | 0 <= k < |rows| ensures !rows[k].isFinal { EarlierRowFailed(c, request, k); }
    } else {
      FinalIsLast(c, request);
    }
  }

  predicate EndsFinal(c: Call, j: nat)
    requires j < |c.tries|
  {
    var r := c.tries[j].reply;
    !r.escapes && (r.error.None? || (!c.kind.Chat? && !r.error.value.retryable))
  }

  // ----- Any history --------------------------------------------------------------------------

  function Empty(): Ledger {
    Ledger([], [])
  }

  function Replay(calls: seq<Call>): Ledger {
    if calls == [] then Empty() else Apply(Replay(calls[..|calls| - 1]), calls[|calls| - 1])
  }

  function RowsOf(usage: seq<UsageRecord>, id: nat): seq<UsageRecord> {
    if usage == [] then []
    else if usage[0].request == id then [usage[0]] + RowsOf(usage[1..], id)
    else RowsOf(usage[1..], id)
  }

  lemma {:induction false} RowsOfAppend(a: seq<UsageRecord>, b: seq<UsageRecord>, id: nat)
    ensures RowsOf(a + b, id) == RowsOf(a, id) + RowsOf(b, id)
  {
    if a == [] {
      assert a + b == b;
    } else {
      assert (a + b)[0] == a[0] && (a + b)[1..] == a[1..] + b;
      RowsOfAppend(a[1..], b, id);
    }
  }

  lemma {:induction false} RowsOfUniform(rows: seq<UsageRecord>, id: nat, of: nat)
    requires forall k :: 0 <= k < |rows| ==> rows[k].request == of
    ensures RowsOf(rows, id) == if id == of then rows else []
  {
    if rows != [] { RowsOfUniform(rows[1..], id, of); }
  }

  /** Requests are numbered in order, every row belongs to one of them, and each fits its rows. */
  ghost predicate WellKept(l: Ledger) {
    && (forall k :: 0 <= k < |l.usage| ==> l.usage[k].request < |l.requests|)
    && (forall i :: 0 <= i < |l.requests| ==> l.requests[i].id == i && Kept(l.requests[i], RowsOf(l.usage, i)))
  }

  /** A new request adds its own rows and leaves those of the others alone. */
  lemma RowsAfterApply(l: Ledger, c: Call, i: nat)
    requires WellKept(l) && Recorded(c) && i <= |l.requests|
    ensures RowsOf(Apply(l, c).usage, i) == if i == |l.requests| then RowsFrom(c, i, 0) else RowsOf(l.usage, i)
  {
    var id, rows := |l.requests|, RowsFrom(c, |l.requests|, 0);
    RowsInOrder(c, id);
    RowsOfAppend(l.usage, rows, i);
    RowsOfUniform(rows, i, id);
    NoRowsYet(l.usage, id);
  }

  lemma ApplyKeeps(l: Ledger, c: Call)
    requires WellKept(l)
    ensures WellKept(Apply(l, c))
  {
    if Recorded(c) {
      var id, t, rows := |l.requests|, Apply(l, c), RowsFrom(c, |l.requests|, 0);
      RowsInOrder(c, id);
      forall k | 0 <= k < |t.usage| ensures t.usage[k].request < |t.requests| {
        assert t.usage[k] == if k < |l.usage| then l.usage[k] else rows[k - |l.usage|];
      }
      forall i | 0 <= i <= id
        ensures t.requests[i].id == i && Kept(t.requests[i], RowsOf(t.usage, i))
      {
        RowsAfterApply(l, c, i);
        if i == id { CallIsKept(c, id); }
      }
    }
  }

  lemma {:induction false} NoRowsYet(usage: seq<UsageRecord>, id: nat)
    requires forall k :: 0 <= k < |usage| ==> usage[k].request < id
    ensures RowsOf(usage, id) == []
  {
    if usage != [] { NoRowsYet(usage[1..], id); }
  }

  /** Over every history: attempt numbers ascend from at least one, only the last attempt of a request
      can be final, a request succeeded exactly if one of its attempts has no error, and its tokens and
      cost are the sums over its attempts. */
  lemma {:induction false} LedgerIsWellKept(calls: seq<Call>)
    ensures WellKept(Replay(calls))
  {
    if calls != [] {
      LedgerIsWellKept(calls[..|calls| - 1]);
      ApplyKeeps(Replay(calls[..|calls| - 1]), calls[|calls| - 1]);
    }
  }

  // ----- The request log ------------------------------------------------------------------------

  /** One line of the log: a request and the final attempt the outer join found for it. */
  datatype LogLine = LogLine(request: Request, served: Option<UsageRecord>)

  function Finals(rows: seq<UsageRecord>): seq<UsageRecord> {
    if rows == [] then []
    else if rows[0].isFinal then [rows[0]] + Finals(rows[1..])
    else Finals(rows[1..])
  }

  function Pair(q: Request, finals: seq<UsageRecord>): seq<LogLine> {
    if finals == [] then [] else [LogLine(q, Some(finals[0]))] + Pair(q, finals[1..])
  }

  /** The outer join keeps a request without a final attempt and repeats one that has several. */
  function LinesFor(q: Request, usage: seq<UsageRecord>): seq<LogLine> {
    var finals := Finals(RowsOf(usage, q.id));
    if finals == [] then [LogLine(q, None)] else Pair(q, finals)
  }

  function RequestLog(requests: seq<Request>, usage: seq<UsageRecord>): seq<LogLine> {
    if requests == [] then [] else LinesFor(requests[0], usage) + RequestLog(requests[1..], usage)
  }

  lemma {:induction false} FinalsOfOrdered(rows: seq<UsageRecord>)
    requires forall k :: 0 <= k < |rows| && rows[k].isFinal ==> k == |rows| - 1
    ensures Finals(rows) == if rows != [] && rows[|rows| - 1].isFinal then [rows[|rows| - 1]] else []
  {
    if |rows| > 1 {
      var rest := rows[1..];
      assert forall k :: 0 <= k < |rest| ==> rest[k] == rows[k + 1];
      FinalsOfOrdered(rest);
    } else if |rows| == 1 {
      assert rows[1..] == [];
    }
  }

  /** The line a request should have: its last attempt if that one is final. */
  function Line(q: Request, usage: seq<UsageRecord>): LogLine {
    var rows := RowsOf(usage, q.id);
    LogLine(q, if rows != [] && rows[|rows| - 1].isFinal then Some(rows[|rows| - 1]) else None)
  }

  lemma OneLine(q: Request, usage: seq<UsageRecord>)
    requires Kept(q, RowsOf(usage, q.id))
    ensures LinesFor(q, usage) == [Line(q, usage)]
  {
    var rows := RowsOf(usage, q.id);
    FinalsOfOrdered(rows);
    var last := Finals(rows);
    if last != [] { assert last[1..] == [] && Pair(q, last) == [LogLine(q, Some(last[0]))] + Pair(q, last[1..]); }
  }

  lemma {:induction false} LogOfKept(requests: seq<Request>, usage: seq<UsageRecord>)
    requires forall q :: q in requests ==> Kept(q, RowsOf(usage, q.id))
    ensures |RequestLog(requests, usage)| == |requests|
    ensures forall i :: 0 <= i < |requests| ==> RequestLog(requests, usage)[i] == Line(requests[i], usage)
  {
    if requests != [] {
      OneLine(requests[0], usage);
      LogOfKept(requests[1..], usage);
      var log, rest := RequestLog(requests, usage), RequestLog(requests[1..], usage);
      assert log == [Line(requests[0], usage)] + rest;
      forall i | 0 < i < |requests| ensures log[i] == Line(requests[i], usage) {
        assert log[i] == rest[i - 1];
      }
    }
  }

  /** The request log shows every client request exactly once, with the attempt that ended it. */
  lemma OneLogLinePerRequest(calls: seq<Call>)
    ensures var l := Replay(calls); var log := RequestLog(l.requests, l.usage);
            |log| == |l.requests| && forall i :: 0 <= i < |log| ==> log[i] == Line(l.requests[i], l.usage)
  {
    LedgerIsWellKept(calls);
    var l := Replay(calls);
    forall q | q in l.requests ensures Kept(q, RowsOf(l.usage, q.id)) {
      var i :| 0 <= i < |l.requests| && l.requests[i] == q;
    }
    LogOfKept(l.requests, l.usage);
  }

  // ----- Consumption of an API key --------------------------------------------------------------

  function UsedByRows(usage: seq<UsageRecord>, key: Option<nat>): Totals {
    if usage == [] then Zero()
    else if usage[0].apiKey == key then OfRow(usage[0]).Plus(UsedByRows(usage[1..], key))
    else UsedByRows(usage[1..], key)
  }

  function UsedByRequests(requests: seq<Request>, key: Option<nat>): Totals {
    if requests == [] then Zero()
    else if requests[0].apiKey == key then OfRequest(requests[0]).Plus(UsedByRequests(requests[1..], key))
    else UsedByRequests(requests[1..], key)
  }

  lemma {:induction false} UsedByRowsAppend(a: seq<UsageRecord>, b: seq<UsageRecord>, key: Option<nat>)
    ensures UsedByRows(a + b, key) == UsedByRows(a, key).Plus(UsedByRows(b, key))
  {
    if a == [] {
      assert a + b == b;
    } else {
      assert (a + b)[0] == a[0] && (a + b)[1..] == a[1..] + b;
      UsedByRowsAppend(a[1..], b, key);
    }
  }

  lemma {:induction false} UsedByRequestsAppend(a: seq<Request>, q: Request, key: Option<nat>)
    ensures UsedByRequests(a + [q], key) ==
            UsedByRequests(a, key).Plus(if q.apiKey == key then OfRequest(q) else Zero())
  {
    if a == [] {
      assert a + [q] == [q] && [q][1..] == [];
    } else {
      assert (a + [q])[0] == a[0] && (a + [q])[1..] == a[1..] + [q];
      UsedByRequestsAppend(a[1..], q, key);
    }
  }

  lemma {:induction false} UsedByOneRequest(rows: seq<UsageRecord>, of: Option<nat>, key: Option<nat>)
    requires forall k :: 0 <= k < |rows| ==> rows[k].apiKey == of
    ensures UsedByRows(rows, key) == if of == key then SumRows(rows) else Zero()
  {
    if rows != [] { UsedByOneRequest(rows[1..], of, key); }
  }

  /** What a key consumed is the same counted over attempts and over requests. */
  lemma {:induction false} KeyConsumptionAgrees(calls: seq<Call>, key: Option<nat>)
    ensures UsedByRows(Replay(calls).usage, key) == UsedByRequests(Replay(calls).requests, key)
  {
    if calls != [] {
      var l, c := Replay(calls[..|calls| - 1]), calls[|calls| - 1];
      KeyConsumptionAgrees(calls[..|calls| - 1], key);
      if Recorded(c) {
        var id := |l.requests|;
        var rows := RowsFrom(c, id, 0);
        CallIsKept(c, id);
        assert Of(rows, id, c.key, c.kind.Stream?);
        UsedByRowsAppend(l.usage, rows, key);
        UsedByRequestsAppend(l.requests, Closed(c, id), key);
        UsedByOneRequest(rows, c.key, key);
      }
    }
  }
}
