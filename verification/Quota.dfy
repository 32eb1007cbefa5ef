/** Token quotas under concurrency: consumption is read when a request is admitted and recorded when it
    completes, and requests of any number of keys overlap. */
module Quota {
  import opened Prelude
  import Cost
  import opened Gateway
  import opened Failover
  import opened Accounting

  /** Tokens recorded for a key. */
  function Used(l: Ledger, key: nat): int {
    UsedByRows(l.usage, Some(key)).total
  }

  predicate Exceeded(quota: Option<int>, used: int) {
    quota.Some? && used >= quota.value
  }

  /** A key has nothing left exactly when its requests are turned away. */
  function Remaining(quota: Option<int>, used: int): (r: Option<int>)
    ensures r == Some(0) <==> Exceeded(quota, used)
    ensures quota.Some? && used < quota.value ==> r == Some(quota.value - used)
  {
    if quota.None? then None else Some(Max(quota.value - used, 0))
  }

  // ----- The protocol ------------------------------------------------------------------------

  datatype Step =
    | Check(client: nat, key: nat)       // read the key's consumption; go on unless the quota is used up
    | Complete(client: nat, call: Call)  // a request in flight records its attempts
    | Abandon(client: nat)               // a request in flight ends without recording any

  /** `flight` maps the requests in flight to their keys; `admitted` only remembers who was let in. */
  datatype State = State(ledger: Ledger, flight: map<nat, nat>, admitted: seq<nat>)

  function Next(s: State, step: Step, quotas: nat -> Option<int>): State {
    match step
    case Check(client, key) =>
      if client in s.flight || Exceeded(quotas(key), Used(s.ledger, key)) then s
      else s.(flight := s.flight[client := key], admitted := s.admitted + [key])
    case Complete(client, call) =>
      if client in s.flight && call.key == Some(s.flight[client])
      then s.(ledger := Apply(s.ledger, call), flight := s.flight - {client})
      else s
    case Abandon(client) => s.(flight := s.flight - {client})
  }

  function Run(s: State, steps: seq<Step>, quotas: nat -> Option<int>): State
    decreases |steps|
  {
    if steps == [] then s else Run(Next(s, steps[0], quotas), steps[1..], quotas)
  }

  function Start(): State {
    State(Empty(), map[], [])
  }

  // ----- What a request records ----------------------------------------------------------------

  function RowTokens(c: Call, i: nat): int
    requires i < |c.tries|
  {
    var r := c.tries[i].reply;
    if r.error.None? && c.kind.Chat? then r.inputTokens + r.outputTokens else 0
  }

  /** The tokens of the answer. */
  function Tokens(c: Call): int {
    match AnsweredFrom(c, 0)
    case Some(j) => RowTokens(c, j)
    case None => 0
  }

  lemma RowTotal(c: Call, request: nat, i: nat)
    requires i < |c.tries|
    ensures Row(c, request, i).totalTokens == RowTokens(c, i)
  {
  }

  lemma RowsTotal(c: Call, request: nat)
    ensures SumRows(RowsFrom(c, request, 0)).total == Tokens(c)
  {
    RowsSumToAnswer(c, request, 0);
    match AnsweredFrom(c, 0)
    case Some(j) => RowTotal(c, request, j);
    case None =>
  }

  lemma UsedAfterApply(l: Ledger, c: Call, key: nat)
    ensures Used(Apply(l, c), key) == Used(l, key) + if c.key == Some(key) then Tokens(c) else 0
  {
    var id := |l.requests|;
    var rows := RowsFrom(c, id, 0);
    if !Recorded(c) {
      LastCallDecides(c, 0);
      LastCallEscapes(c, 0);
    } else {
      RowsInOrder(c, id);
      UsedByRowsAppend(l.usage, rows, Some(key));
      UsedByOneRequest(rows, c.key, Some(key));
      RowsTotal(c, id);
    }
  }

  // ----- Bounded overshoot -----------------------------------------------------------------------

  function InFlight(s: State, key: nat): set<nat> {
    set client | client in s.flight && s.flight[client] == key
  }

  /** At every moment at most k requests of the key are in flight, and each records at most m tokens. */
  ghost predicate Within(s: State, steps: seq<Step>, quotas: nat -> Option<int>, key: nat, k: nat, m: nat)
    decreases |steps|
  {
    && |InFlight(s, key)| <= k
    && (steps != [] ==>
          && (steps[0].Complete? && steps[0].call.key == Some(key) ==> Tokens(steps[0].call) <= m)
          && Within(Next(s, steps[0], quotas), steps[1..], quotas, key, k, m))
  }

  /** What could be recorded if every request in flight used its m tokens. */
  function Worst(s: State, key: nat, m: nat): int {
    Used(s.ledger, key) + |InFlight(s, key)| * m
  }

  lemma AdmissionAddsOne(s: State, client: nat, key: nat, of: nat)
    requires client !in s.flight
    ensures InFlight(s.(flight := s.flight[client := key]), of)
         == if key == of then InFlight(s, of) + {client} else InFlight(s, of)
  {
  }

  lemma LeavingRemovesOne(s: State, client: nat, of: nat)
    ensures InFlight(s.(flight := s.flight - {client}), of) == InFlight(s, of) - {client}
  {
  }

  lemma FewerInFlight(a: nat, b: nat, m: nat)
    requires a <= b
    ensures a * m <= b * m
  {
  }

  lemma OneMore(a: nat, m: nat)
    ensures (a + 1) * m == a * m + m
  {
  }

  lemma CheckStaysBelow(s: State, client: nat, quotas: nat -> Option<int>, key: nat, of: nat, q: int, k: nat, m: nat)
    requires quotas(of) == Some(q) && Worst(s, of, m) <= q - 1 + k * m
    requires |InFlight(Next(s, Check(client, key), quotas), of)| <= k
    ensures Worst(Next(s, Check(client, key), quotas), of, m) <= q - 1 + k * m
  {
    if client !in s.flight && !Exceeded(quotas(key), Used(s.ledger, key)) {
      AdmissionAddsOne(s, client, key, of);
      if key == of {
        FewerInFlight(|InFlight(s, of) + {client}|, k, m);
      }
    }
  }

  lemma CompleteStaysBelow(s: State, client: nat, call: Call, quotas: nat -> Option<int>, key: nat, m: nat)
    requires call.key == Some(key) ==> Tokens(call) <= m
    ensures Worst(Next(s, Complete(client, call), quotas), key, m) <= Worst(s, key, m)
  {
    if client in s.flight && call.key == Some(s.flight[client]) {
      UsedAfterApply(s.ledger, call, key);
      LeavingRemovesOne(s, client, key);
      if client in InFlight(s, key) {
        OneMore(|InFlight(s, key) - {client}|, m);
      }
    }
  }

  lemma AbandonStaysBelow(s: State, client: nat, quotas: nat -> Option<int>, key: nat, m: nat)
    ensures Worst(Next(s, Abandon(client), quotas), key, m) <= Worst(s, key, m)
  {
    LeavingRemovesOne(s, client, key);
    FewerInFlight(|InFlight(s, key) - {client}|, |InFlight(s, key)|, m);
  }

  lemma {:induction false} WorstStaysBelow(s: State, steps: seq<Step>, quotas: nat -> Option<int>,
                                           key: nat, q: int, k: nat, m: nat)
    requires quotas(key) == Some(q) && Within(s, steps, quotas, key, k, m)
    requires Worst(s, key, m) <= q - 1 + k * m
    ensures Worst(Run(s, steps, quotas), key, m) <= q - 1 + k * m
    decreases |steps|
  {
    if steps != [] {
      var t := Next(s, steps[0], quotas);
      match steps[0] {
        case Check(client, of) => CheckStaysBelow(s, client, quotas, of, key, q, k, m);
        case Complete(client, call) => CompleteStaysBelow(s, client, call, quotas, key, m);
        case Abandon(client) => AbandonStaysBelow(s, client, quotas, key, m);
      }
      WorstStaysBelow(t, steps[1..], quotas, key, q, k, m);
    }
  }

  /** Recorded consumption never exceeds quota - 1 + k * m. */
  lemma OvershootIsBounded(steps: seq<Step>, quotas: nat -> Option<int>, key: nat, q: int, k: nat, m: nat)
    requires quotas(key) == Some(q) && q >= 1 && Within(Start(), steps, quotas, key, k, m)
    ensures Used(Run(Start(), steps, quotas).ledger, key) <= q - 1 + k * m
  {
    assert InFlight(Start(), key) == {};
    FewerInFlight(0, k, m);
    WorstStaysBelow(Start(), steps, quotas, key, q, k, m);
    FewerInFlight(0, |InFlight(Run(Start(), steps, quotas), key)|, m);
  }

  // ----- Nobody is admitted once the quota is used up ----------------------------------------------

  /** No upstream reports negative token counts for the key. */
  ghost predicate NonNegative(steps: seq<Step>, key: nat) {
    forall step :: step in steps && step.Complete? && step.call.key == Some(key) ==> Tokens(step.call) >= 0
  }

  function Admissions(admitted: seq<nat>, key: nat): nat {
    multiset(admitted)[key]
  }

  /** Once consumption has reached the quota, no later request of the key is admitted. */
  lemma {:induction false} ExhaustedAdmitsNobody(s: State, steps: seq<Step>, quotas: nat -> Option<int>, key: nat)
    requires Exceeded(quotas(key), Used(s.ledger, key)) && NonNegative(steps, key)
    ensures Admissions(Run(s, steps, quotas).admitted, key) == Admissions(s.admitted, key)
    ensures Exceeded(quotas(key), Used(Run(s, steps, quotas).ledger, key))
    decreases |steps|
  {
    if steps != [] {
      assert steps[0] in steps && forall x :: x in steps[1..] ==> x in steps;
      if steps[0].Complete? { UsedAfterApply(s.ledger, steps[0].call, key); }
      ExhaustedAdmitsNobody(Next(s, steps[0], quotas), steps[1..], quotas, key);
    }
  }

  /** Nothing in the gateway rejects a negative report: such a completion lets the key in again exactly if it
      takes the recorded consumption back below the quota. */
  lemma ReopenedExactlyByNegativeReport(s: State, client: nat, call: Call, next: nat,
                                         quotas: nat -> Option<int>, key: nat)
    requires Exceeded(quotas(key), Used(s.ledger, key))
    requires client in s.flight && s.flight[client] == key && call.key == Some(key) && next !in s.flight
    ensures next in Next(Next(s, Complete(client, call), quotas), Check(next, key), quotas).flight
       <==> Used(s.ledger, key) + Tokens(call) < quotas(key).value
  {
    UsedAfterApply(s.ledger, call, key);
  }

  // ----- The bound is reached ------------------------------------------------------------------------

  function Checks(n: nat, key: nat): seq<Step> {
    if n == 0 then [] else [Check(n, key)] + Checks(n - 1, key)
  }

  function Completions(n: nat, call: Call): seq<Step> {
    if n == 0 then [] else [Complete(n, call)] + Completions(n - 1, call)
  }

  lemma {:induction false} RunAppend(s: State, a: seq<Step>, b: seq<Step>, quotas: nat -> Option<int>)
    ensures Run(s, a + b, quotas) == Run(Run(s, a, quotas), b, quotas)
    decreases |a|
  {
    if a == [] {
      assert a + b == b;
    } else {
      RunAppend(Next(s, a[0], quotas), a[1..], b, quotas);
      assert (a + b)[1..] == a[1..] + b;
    }
  }

  ghost predicate Holds(s: State, client: nat, key: nat) {
    client in s.flight && s.flight[client] == key
  }

  lemma {:induction false} ChecksAdmit(s: State, n: nat, key: nat, quotas: nat -> Option<int>)
    requires !Exceeded(quotas(key), Used(s.ledger, key))
    requires forall client :: client in s.flight ==> client > n
    ensures Run(s, Checks(n, key), quotas).ledger == s.ledger
    ensures forall client :: 1 <= client <= n ==> Holds(Run(s, Checks(n, key), quotas), client, key)
    ensures forall client, of :: Holds(s, client, of) ==> Holds(Run(s, Checks(n, key), quotas), client, of)
    decreases n
  {
    if n > 0 {
      var t := Next(s, Check(n, key), quotas);
      assert Checks(n, key)[0] == Check(n, key) && Checks(n, key)[1..] == Checks(n - 1, key);
      assert Holds(t, n, key) && forall client, of :: Holds(s, client, of) ==> Holds(t, client, of);
      ChecksAdmit(t, n - 1, key, quotas);
    }
  }

  lemma CompletionRecords(s: State, client: nat, call: Call, key: nat, quotas: nat -> Option<int>)
    requires call.key == Some(key) && Holds(s, client, key)
    ensures var t := Next(s, Complete(client, call), quotas);
            && Used(t.ledger, key) == Used(s.ledger, key) + Tokens(call)
            && forall other :: other != client && Holds(s, other, key) ==> Holds(t, other, key)
  {
    UsedAfterApply(s.ledger, call, key);
  }

  lemma {:induction false} CompletionsRecord(s: State, n: nat, call: Call, key: nat, quotas: nat -> Option<int>)
    requires call.key == Some(key)
    requires forall client :: 1 <= client <= n ==> Holds(s, client, key)
    ensures Used(Run(s, Completions(n, call), quotas).ledger, key) == Used(s.ledger, key) + Multiple(n, Tokens(call))
    decreases n
  {
    if n > 0 {
      assert Completions(n, call)[0] == Complete(n, call) && Completions(n, call)[1..] == Completions(n - 1, call);
      CompletionRecords(s, n, call, key, quotas);
      CompletionsRecord(Next(s, Complete(n, call), quotas), n - 1, call, key, quotas);
    }
  }

  /** When one token is left, k overlapping requests are all admitted and all recorded. */
  lemma LastTokenAdmitsAll(s: State, k: nat, call: Call, key: nat, q: int, quotas: nat -> Option<int>)
    requires quotas(key) == Some(q) && Used(s.ledger, key) == q - 1 && s.flight == map[]
    requires call.key == Some(key)
    ensures Used(Run(s, Checks(k, key) + Completions(k, call), quotas).ledger, key) == q - 1 + k * Tokens(call)
  {
    RunAppend(s, Checks(k, key), Completions(k, call), quotas);
    ChecksAdmit(s, k, key, quotas);
    CompletionsRecord(Run(s, Checks(k, key), quotas), k, call, key, quotas);
    MultipleIsProduct(k, Tokens(call));
  }

  /** A chat completion that is answered with this many tokens. */
  function Spending(key: nat, tokens: Cost.Tokens): Call {
    Call(Chat(0), Some(key), [Try(Candidate(0, 0, 0, None, None, None), Reply([], tokens, 0, None, false),
                                  Timing(0, 0, 0))])
  }

  lemma SpendingTokens(key: nat, tokens: Cost.Tokens)
    ensures Tokens(Spending(key, tokens)) == tokens
  {
    assert VerdictAt(Spending(key, tokens), 0).Success?;
  }

  /** n requests of the same kind, one after the other. */
  function OneByOne(n: nat, key: nat, call: Call): seq<Step> {
    if n == 0 then [] else OneByOne(n - 1, key, call) + [Check(1, key), Complete(1, call)]
  }

  lemma RunTwo(s: State, a: Step, b: Step, quotas: nat -> Option<int>)
    ensures Run(s, [a, b], quotas) == Next(Next(s, a, quotas), b, quotas)
  {
    var t := Next(s, a, quotas);
    assert [a, b][1..] == [b];
    assert [b][1..] == [];
    assert Run(t, [b], quotas) == Next(t, b, quotas);
  }

  lemma Spend(s: State, key: nat, call: Call, quotas: nat -> Option<int>)
    requires s.flight == map[] && !Exceeded(quotas(key), Used(s.ledger, key)) && call.key == Some(key)
    ensures var t := Next(Next(s, Check(1, key), quotas), Complete(1, call), quotas);
            Used(t.ledger, key) == Used(s.ledger, key) + Tokens(call) && t.flight == map[]
  {
    var admitted := Next(s, Check(1, key), quotas);
    assert admitted.flight == map[1 := key] && admitted.ledger == s.ledger;
    CompletionRecords(admitted, 1, call, key, quotas);
  }

  lemma {:induction false} OneByOneUses(n: nat, key: nat, call: Call, quotas: nat -> Option<int>)
    requires quotas(key).Some? && n < quotas(key).value && call.key == Some(key) && Tokens(call) == 1
    ensures var s := Run(Start(), OneByOne(n, key, call), quotas); Used(s.ledger, key) == n && s.flight == map[]
  {
    if n > 0 {
      var s := Run(Start(), OneByOne(n - 1, key, call), quotas);
      OneByOneUses(n - 1, key, call, quotas);
      RunAppend(Start(), OneByOne(n - 1, key, call), [Check(1, key), Complete(1, call)], quotas);
      RunTwo(s, Check(1, key), Complete(1, call), quotas);
      Spend(s, key, call, quotas);
    }
  }

  /** The steps of the first k clients, each recording at most m tokens. */
  ghost predicate Among(steps: seq<Step>, key: nat, k: nat, m: nat) {
    forall step :: step in steps ==>
      && (step.Check? ==> 1 <= step.client <= k)
      && (step.Complete? && step.call.key == Some(key) ==> Tokens(step.call) <= m)
  }

  lemma {:induction false} AmongIsWithin(s: State, steps: seq<Step>, quotas: nat -> Option<int>,
                                         key: nat, k: nat, m: nat)
    requires Among(steps, key, k, m) && s.flight.Keys <= Clients(k)
    ensures Within(s, steps, quotas, key, k, m)
    decreases |steps|
  {
    AtMost(InFlight(s, key), k);
    if steps != [] {
      assert steps[0] in steps && forall step :: step in steps[1..] ==> step in steps;
      AmongIsWithin(Next(s, steps[0], quotas), steps[1..], quotas, key, k, m);
    }
  }

  lemma {:induction false} OneByOneAmong(n: nat, key: nat, call: Call, k: nat, m: nat)
    requires k >= 1 && Tokens(call) <= m
    ensures Among(OneByOne(n, key, call), key, k, m)
  {
    if n > 0 { OneByOneAmong(n - 1, key, call, k, m); }
  }

  lemma {:induction false} BurstAmong(n: nat, call: Call, key: nat, k: nat, m: nat)
    requires n <= k && Tokens(call) <= m
    ensures Among(Checks(n, key) + Completions(n, call), key, k, m)
  {
    if n > 0 { BurstAmong(n - 1, call, key, k, m); }
  }

  /** q - 1 times one call after the other, then k times another at once. */
  function Burst(q: nat, k: nat, single: Call, call: Call, key: nat): seq<Step>
    requires q >= 1
  {
    OneByOne(q - 1, key, single) + (Checks(k, key) + Completions(k, call))
  }

  lemma BurstIsWithin(q: nat, k: nat, single: Call, call: Call, key: nat, m: nat, quotas: nat -> Option<int>)
    requires q >= 1 && k >= 1 && Tokens(single) <= m && Tokens(call) <= m
    ensures Within(Start(), Burst(q, k, single, call, key), quotas, key, k, m)
  {
    OneByOneAmong(q - 1, key, single, k, m);
    BurstAmong(k, call, key, k, m);
    AmongIsWithin(Start(), Burst(q, k, single, call, key), quotas, key, k, m);
  }

  lemma BurstReaches(q: nat, k: nat, single: Call, call: Call, key: nat, quotas: nat -> Option<int>)
    requires quotas(key) == Some(q) && q >= 1
    requires single.key == Some(key) && Tokens(single) == 1 && call.key == Some(key)
    ensures Used(Run(Start(), Burst(q, k, single, call, key), quotas).ledger, key) == q - 1 + k * Tokens(call)
  {
    OneByOneUses(q - 1, key, single, quotas);
    RunAppend(Start(), OneByOne(q - 1, key, single), Checks(k, key) + Completions(k, call), quotas);
    LastTokenAdmitsAll(Run(Start(), OneByOne(q - 1, key, single), quotas), k, call, key, q, quotas);
  }

  /** The bound is reached from nothing, by a run that keeps to it, for every quota, overlap and size of request:
      q - 1 single tokens are used one after the other, then k requests of m tokens run at once. */
  lemma OvershootIsReached(q: nat, k: nat, m: Cost.Tokens, key: nat, quotas: nat -> Option<int>)
    requires quotas(key) == Some(q) && q >= 1 && k >= 1 && m >= 1
    ensures var steps := Burst(q, k, Spending(key, 1), Spending(key, m), key);
            && Within(Start(), steps, quotas, key, k, m)
            && Used(Run(Start(), steps, quotas).ledger, key) == q - 1 + k * m
  {
    var single, call := Spending(key, 1), Spending(key, m);
    SpendingTokens(key, 1);
    SpendingTokens(key, m);
    BurstIsWithin(q, k, single, call, key, m, quotas);
    BurstReaches(q, k, single, call, key, quotas);
  }
}
