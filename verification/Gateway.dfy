/** The gateway's failover loops: candidates are tried in the decided order, every upstream attempt
    leaves a usage row, and the client request is closed once. */
module Gateway {
  import opened Prelude
  import opened Cost

  datatype Endpoint = Endpoint(id: nat, streaming: bool)

  datatype Candidate = Candidate(provider: nat, credential: nat, model: nat, endpoint: Option<Endpoint>,
                                 inputPrice: Option<Micros>, outputPrice: Option<Micros>)
  {
    predicate StreamingSupported() {
      endpoint.None? || endpoint.value.streaming
    }
  }

  datatype UpstreamError = UpstreamError(code: string, message: string, status: Option<int>, retryable: bool)

  /** What a candidate would do if it were called: emit deltas (streams only), then succeed with a token count, fail
      with an upstream error, or, if it escapes, raise anything else, which no loop catches. */
  datatype Reply = Reply(deltas: seq<string>, inputTokens: Tokens, outputTokens: Tokens, error: Option<UpstreamError>,
                         escapes: bool)

  /** When the deadline is read, how long the attempt takes, and when its row is written. */
  datatype Timing = Timing(checkedAt: int, latency: int, stamp: int)

  datatype Try = Try(candidate: Candidate, reply: Reply, timing: Timing)

  datatype Kind = Chat(deadline: int) | Stream | Embeddings

  /** One client request with its candidates in the decided order. */
  datatype Call = Call(kind: Kind, key: Option<nat>, tries: seq<Try>)

  datatype UsageRecord = UsageRecord(
    request: nat, attempt: nat, isFinal: bool, retryable: bool, apiKey: Option<nat>,
    provider: Option<nat>, credential: Option<nat>, model: Option<nat>, endpoint: Option<nat>,
    inputTokens: int, outputTokens: int, totalTokens: int, cost: int,
    latency: int, status: int, error: Option<string>, streaming: bool, createdAt: int)

  datatype RequestState = Pending | Succeeded | Failed

  /** The stored columns of a client request. */
  datatype Request = Request(
    id: nat, apiKey: Option<nat>, streaming: bool, state: RequestState, attemptCount: nat,
    inputTokens: int, outputTokens: int, totalTokens: int, cost: int,
    finalStatus: Option<int>, finalError: Option<string>)

  datatype Ledger = Ledger(requests: seq<Request>, usage: seq<UsageRecord>)

  // ----- Failures ---------------------------------------------------------------------------

  datatype Failure = Failure(status: int, code: string, message: string)

  function StatusOr502(status: Option<int>): int {
    if status.None? || status.value == 0 then 502 else status.value
  }

  /** The client only ever sees an HTTP error status. */
  function ToFailure(e: UpstreamError): (f: Failure)
    ensures 400 <= f.status <= 599
  {
    var status := StatusOr502(e.status);
    Failure(if 400 <= status <= 599 then status else 502, e.code, e.message)
  }

  function DefaultFailure(kind: Kind): Failure {
    match kind
    case Chat(_) =>
      Failure(504, "gateway_deadline_exceeded", "The request deadline was reached before any provider answered.")
    case Stream =>
      Failure(502, "gateway_no_streaming_candidate", "No candidate provider can serve this model as a stream.")
    case Embeddings => Failure(502, "provider_error", "No provider could answer the embeddings request.")
  }

  // ----- What a loop does at one candidate -----------------------------------------------------

  datatype Verdict =
    | OutOfTime   // the deadline has passed: leave the loop without calling
    | Skip        // the candidate cannot stream: go on without calling
    | Retry       // called, failed, go on
    | GiveUp      // called, failed, leave the loop
    | Success     // called, answered
    | Escape      // called, and the exception leaves the loop and the request

  function VerdictAt(c: Call, i: nat): Verdict
    requires i < |c.tries|
  {
    var t := c.tries[i];
    if c.kind.Chat? && t.timing.checkedAt > c.kind.deadline then OutOfTime
    else if c.kind.Stream? && !t.candidate.StreamingSupported() then Skip
    else if t.reply.escapes then Escape
    else if t.reply.error.None? then Success
    else if c.kind.Stream? && t.reply.deltas != [] then GiveUp
    else if t.reply.error.value.retryable then Retry
    else GiveUp
  }

  /** The attempt counter when the loop is left; it is advanced before anything else happens. */
  function Rounds(c: Call, i: nat): nat
    requires i <= |c.tries|
    decreases |c.tries| - i
  {
    if i == |c.tries| then i
    else match VerdictAt(c, i)
      case Skip => Rounds(c, i + 1)
      case Retry => Rounds(c, i + 1)
      case _ => i + 1
  }

  function Row(c: Call, request: nat, i: nat): UsageRecord
    requires i < |c.tries|
  {
    var t := c.tries[i];
    var ok := t.reply.error.None?;
    var input: Tokens := if ok && c.kind.Chat? then t.reply.inputTokens else 0;
    var output: Tokens := if ok && c.kind.Chat? then t.reply.outputTokens else 0;
    UsageRecord(
      request, i + 1,
      ok || (!c.kind.Chat? && !t.reply.error.value.retryable),
      !ok && t.reply.error.value.retryable,
      c.key, Some(t.candidate.provider), Some(t.candidate.credential), Some(t.candidate.model),
      if t.candidate.endpoint.Some? then Some(t.candidate.endpoint.value.id) else None,
      input, output, input + output,
      if ok then Priced(t.candidate.inputPrice, t.candidate.outputPrice, input, output).Charge() else 0,
      t.timing.latency,
      if ok then 200 else StatusOr502(t.reply.error.value.status),
      if ok then None else Some(t.reply.error.value.code),
      c.kind.Stream?, t.timing.stamp)
  }

  /** The rows written from the i-th candidate on. */
  function RowsFrom(c: Call, request: nat, i: nat): seq<UsageRecord>
    requires i <= |c.tries|
    decreases |c.tries| - i
  {
    if i == |c.tries| then []
    else match VerdictAt(c, i)
      case OutOfTime => []
      case Skip => RowsFrom(c, request, i + 1)
      case Retry => [Row(c, request, i)] + RowsFrom(c, request, i + 1)
      case Escape => []
      case _ => [Row(c, request, i)]
  }

  /** An exception ends the request. */
  predicate Escapes(c: Call, i: nat)
    requires i <= |c.tries|
    decreases |c.tries| - i
  {
    if i == |c.tries| then false
    else match VerdictAt(c, i)
      case Skip => Escapes(c, i + 1)
      case Retry => Escapes(c, i + 1)
      case verdict => verdict.Escape?
  }

  /** The candidate whose answer the client gets. */
  function AnsweredFrom(c: Call, i: nat): (r: Option<nat>)
    requires i <= |c.tries|
    ensures r.Some? ==> i <= r.value < |c.tries|
    decreases |c.tries| - i
  {
    if i == |c.tries| then None
    else match VerdictAt(c, i)
      case Skip => AnsweredFrom(c, i + 1)
      case Retry => AnsweredFrom(c, i + 1)
      case Success => Some(i)
      case _ => None
  }

  /** The failure remembered when the loop is left, given the one remembered before. */
  function FailureFrom(c: Call, i: nat, last: Option<Failure>): Option<Failure>
    requires i <= |c.tries|
    decreases |c.tries| - i
  {
    if i == |c.tries| then last
    else match VerdictAt(c, i)
      case Skip => FailureFrom(c, i + 1, last)
      case Retry => FailureFrom(c, i + 1, Some(ToFailure(c.tries[i].reply.error.value)))
      case GiveUp => Some(ToFailure(c.tries[i].reply.error.value))
      case _ => last
  }

  function ClosingFailure(c: Call): Failure {
    FailureFrom(c, 0, None).Or(DefaultFailure(c.kind))
  }

  /** The closed client request; streams and embeddings report no tokens. */
  function Closed(c: Call, id: nat): Request {
    match AnsweredFrom(c, 0)
    case Some(i) =>
      var row := Row(c, id, i);
      Request(id, c.key, c.kind.Stream?, Succeeded, Rounds(c, 0), row.inputTokens, row.outputTokens,
              row.totalTokens, row.cost, Some(200), None)
    case None =>
      Request(id, c.key, c.kind.Stream?, Failed, Rounds(c, 0), 0, 0, 0, 0,
              Some(ClosingFailure(c).status), Some(ClosingFailure(c).code))
  }

  /** The request leaves a trace in the ledger. */
  predicate Recorded(c: Call) {
    c.tries != [] && !Escapes(c, 0)
  }

  /** The effect of one client request on the ledger; without a candidate nothing is recorded, and an exception
      rolls the request's transaction back. */
  function Apply(l: Ledger, c: Call): Ledger {
    if !Recorded(c) then l
    else Ledger(l.requests + [Closed(c, |l.requests|)], l.usage + RowsFrom(c, |l.requests|, 0))
  }

  // ----- What a stream sends -------------------------------------------------------------------

  datatype Frame =
    | Delta(from: Candidate, text: string)
    | Finish(from: Candidate)
    | Problem(code: string, message: string)
    | Done

  function Deltas(t: Try): seq<Frame> {
    seq(|t.reply.deltas|, k requires 0 <= k < |t.reply.deltas| => Delta(t.candidate, t.reply.deltas[k]))
  }

  /** Everything sent from the i-th candidate on. A failure after the first delta is reported at once
      and again when the stream closes. */
  function FramesFrom(c: Call, i: nat, last: Option<Failure>): seq<Frame>
    requires i <= |c.tries|
    decreases |c.tries| - i
  {
    if i == |c.tries| then Closing(last.Or(DefaultFailure(c.kind)))
    else
      var t := c.tries[i];
      match VerdictAt(c, i)
      case OutOfTime => Closing(last.Or(DefaultFailure(c.kind)))
      case Skip => FramesFrom(c, i + 1, last)
      case Retry => FramesFrom(c, i + 1, Some(ToFailure(t.reply.error.value)))
      case GiveUp =>
        Deltas(t) +
        (if t.reply.deltas != [] then [Problem(t.reply.error.value.code, t.reply.error.value.message)] else []) +
        Closing(ToFailure(t.reply.error.value))
      case Success => Deltas(t) + [Finish(t.candidate), Done]
      case Escape => Deltas(t)
  }

  function Closing(f: Failure): seq<Frame> {
    [Problem(f.code, f.message), Done]
  }

  /** What is left to do at candidate i decides the outcome of the whole loop. */
  ghost predicate LoopState(c: Call, i: nat, last: Option<Failure>)
    requires i <= |c.tries|
  {
    && AnsweredFrom(c, 0) == AnsweredFrom(c, i)
    && Rounds(c, 0) == Rounds(c, i)
    && Escapes(c, 0) == Escapes(c, i)
    && FailureFrom(c, 0, None) == FailureFrom(c, i, last)
  }

  // ----- The service -------------------------------------------------------------------------

  class ClientRequest {
    const id: nat
    const apiKey: Option<nat>
    const streaming: bool
    var state: RequestState
    var attemptCount: nat
    var inputTokens: int
    var outputTokens: int
    var totalTokens: int
    var cost: int
    var finalStatus: Option<int>
    var finalError: Option<string>

    constructor (id: nat, apiKey: Option<nat>, streaming: bool)
      ensures View() == Request(id, apiKey, streaming, Pending, 0, 0, 0, 0, 0, None, None)
    {
      this.id, this.apiKey, this.streaming := id, apiKey, streaming;
      state, attemptCount, inputTokens, outputTokens, totalTokens, cost := Pending, 0, 0, 0, 0, 0;
      finalStatus, finalError := None, None;
    }

    function View(): Request
      reads this
    {
      Request(id, apiKey, streaming, state, attemptCount, inputTokens, outputTokens, totalTokens, cost,
              finalStatus, finalError)
    }
  }

  datatype Outcome = ModelNotFound | Answer(try: nat) | Error(failure: Failure) | Raised

  function OutcomeOf(c: Call): Outcome {
    if c.tries == [] then ModelNotFound
    else if Escapes(c, 0) then Raised
    else match AnsweredFrom(c, 0)
      case Some(i) => Answer(i)
      case None => Error(ClosingFailure(c))
  }

  function Views(rs: seq<ClientRequest>): (views: seq<Request>)
    reads rs
    ensures |views| == |rs|
  {
    if rs == [] then [] else Views(rs[..|rs| - 1]) + [rs[|rs| - 1].View()]
  }

  class GatewayService {
    var requests: seq<ClientRequest>
    var usage: seq<UsageRecord>

    function View(): Ledger
      reads this, requests
    {
      Ledger(Views(requests), usage)
    }

    /** One new closed request and its attempt rows are all that changed. */
    twostate lemma Applied(c: Call, new record: ClientRequest)
      requires c.tries != [] && !Escapes(c, 0) && requests == old(requests) + [record] && record.id == |old(requests)|
      requires Views(old(requests)) == old(Views(requests))
      requires record.View() == Closed(c, record.id) && usage == old(usage) + RowsFrom(c, record.id, 0)
      ensures View() == Apply(old(View()), c)
    {
      assert requests[..|requests| - 1] == old(requests);
    }

    method OpenClientRequest(key: Option<nat>, streaming: bool) returns (record: ClientRequest)
      modifies this
      ensures fresh(record) && requests == old(requests) + [record] && usage == old(usage)
      ensures record.View() == Request(|old(requests)|, key, streaming, Pending, 0, 0, 0, 0, 0, None, None)
    {
      record := new ClientRequest(|requests|, key, streaming);
      requests := requests + [record];
    }

    method RecordAttempt(record: ClientRequest, candidate: Candidate, attempt: nat, isFinal: bool, retryable: bool,
                         latency: int, status: int, inputTokens: Tokens, outputTokens: Tokens,
                         error: Option<string>, streaming: bool, stamp: int) returns (row: UsageRecord)
      modifies this`usage
      ensures usage == old(usage) + [row]
      ensures row == UsageRecord(
        record.id, attempt, isFinal, retryable, record.apiKey,
        Some(candidate.provider), Some(candidate.credential), Some(candidate.model),
        if candidate.endpoint.Some? then Some(candidate.endpoint.value.id) else None,
        inputTokens, outputTokens, inputTokens + outputTokens,
        if error.Some? then 0
        else Priced(candidate.inputPrice, candidate.outputPrice, inputTokens, outputTokens).Charge(),
        latency, status, error, streaming, stamp)
    {
      var cost := if error.Some? then 0
                  else Priced(candidate.inputPrice, candidate.outputPrice, inputTokens, outputTokens).Charge();
      row := UsageRecord(
        record.id, attempt, isFinal, retryable, record.apiKey,
        Some(candidate.provider), Some(candidate.credential), Some(candidate.model),
        if candidate.endpoint.Some? then Some(candidate.endpoint.value.id) else None,
        inputTokens, outputTokens, inputTokens + outputTokens, cost,
        latency, status, error, streaming, stamp);
      usage := usage + [row];
    }

    method CloseClientRequest(record: ClientRequest, state: RequestState, attemptCount: nat, status: int,
                              inputTokens: int, outputTokens: int, error: Option<string>, cost: int)
      modifies record
      ensures record.View() == Request(record.id, record.apiKey, record.streaming, state, attemptCount,
                                       inputTokens, outputTokens, inputTokens + outputTokens, cost, Some(status), error)
    {
      record.state, record.attemptCount := state, attemptCount;
      record.finalStatus, record.finalError := Some(status), error;
      record.inputTokens, record.outputTokens := inputTokens, outputTokens;
      record.totalTokens := inputTokens + outputTokens;
      record.cost := cost;
    }

    /** The candidate's call failed: its row is written and the failure is remembered. */
    method FailAttempt(ghost c: Call, record: ClientRequest, t: Try, attempt: nat, isFinal: bool, streaming: bool)
      returns (failure: Failure)
      requires 0 < attempt <= |c.tries| && t == c.tries[attempt - 1] && t.reply.error.Some?
      requires record.apiKey == c.key && streaming == c.kind.Stream?
      requires isFinal == (!c.kind.Chat? && !t.reply.error.value.retryable)
      modifies this`usage
      ensures usage == old(usage) + [Row(c, record.id, attempt - 1)]
      ensures failure == ToFailure(t.reply.error.value)
    {
      var e := t.reply.error.value;
      var row := RecordAttempt(record, t.candidate, attempt, isFinal, e.retryable, t.timing.latency,
                               StatusOr502(e.status), 0, 0, Some(e.code), streaming, t.timing.stamp);
      assert row == Row(c, record.id, attempt - 1);
      failure := ToFailure(e);
    }

    /** The candidate answered: its row is written and the request is closed. */
    method SucceedAttempt(ghost c: Call, record: ClientRequest, t: Try, attempt: nat,
                          inputTokens: Tokens, outputTokens: Tokens, streaming: bool)
      requires 0 < attempt <= |c.tries| && t == c.tries[attempt - 1]
      requires AnsweredFrom(c, 0) == Some(attempt - 1) && Rounds(c, 0) == attempt && t.reply.error.None?
      requires record.apiKey == c.key && record.streaming == streaming == c.kind.Stream?
      requires inputTokens == (if c.kind.Chat? then t.reply.inputTokens else 0)
      requires outputTokens == (if c.kind.Chat? then t.reply.outputTokens else 0)
      modifies this`usage, record
      ensures usage == old(usage) + [Row(c, record.id, attempt - 1)]
      ensures record.View() == Closed(c, record.id)
    {
      var row := RecordAttempt(record, t.candidate, attempt, true, false, t.timing.latency, 200,
                               inputTokens, outputTokens, None, streaming, t.timing.stamp);
      assert row == Row(c, record.id, attempt - 1);
      CloseClientRequest(record, Succeeded, attempt, 200, inputTokens, outputTokens, None, row.cost);
    }

    /** No candidate answered: the last failure, or the loop's own, closes the request. */
    method CloseFailed(ghost c: Call, record: ClientRequest, attempt: nat, lastFailure: Option<Failure>, kind: Kind)
      returns (failure: Failure)
      requires AnsweredFrom(c, 0).None? && Rounds(c, 0) == attempt && FailureFrom(c, 0, None) == lastFailure
      requires record.apiKey == c.key && record.streaming == c.kind.Stream? && kind == c.kind
      modifies record
      ensures record.View() == Closed(c, record.id) && failure == ClosingFailure(c)
    {
      failure := lastFailure.Or(DefaultFailure(kind));
      CloseClientRequest(record, Failed, attempt, failure.status, 0, 0, Some(failure.code), 0);
    }

    /** The failover loop of a chat completion, from the open request to the closed one. */
    method ChatAttempts(record: ClientRequest, tries: seq<Try>, deadline: int) returns (outcome: Outcome)
      requires tries != [] && !record.streaming
      modifies this`usage, record
      ensures var c := Call(Chat(deadline), record.apiKey, tries);
              && outcome == OutcomeOf(c)
              && (!Escapes(c, 0) ==>
                    usage == old(usage) + RowsFrom(c, record.id, 0) && record.View() == Closed(c, record.id))
    {
      ghost var c := Call(Chat(deadline), record.apiKey, tries);
      var attempt: nat := 0;
      var lastFailure: Option<Failure> := None;
      while attempt < |tries|
        invariant attempt <= |tries|
        invariant LoopState(c, attempt, lastFailure)
        invariant usage + RowsFrom(c, record.id, attempt) == old(usage) + RowsFrom(c, record.id, 0)
      {
        var t := tries[attempt];
        attempt := attempt + 1;
        if t.timing.checkedAt > deadline {
          break;
        }
        if t.reply.escapes {
          return Raised;
        }
        if t.reply.error.None? {
          SucceedAttempt(c, record, t, attempt, t.reply.inputTokens, t.reply.outputTokens, false);
          return Answer(attempt - 1);
        }
        var failure := FailAttempt(c, record, t, attempt, false, false);
        lastFailure := Some(failure);
        if !t.reply.error.value.retryable {
          break;
        }
      }
      assert usage == old(usage) + RowsFrom(c, record.id, 0);
      var failure := CloseFailed(c, record, attempt, lastFailure, Chat(deadline));
      return Error(failure);
    }

    method ChatCompletion(key: Option<nat>, tries: seq<Try>, deadline: int) returns (outcome: Outcome)
      modifies this
      ensures var c := Call(Chat(deadline), key, tries);
              View() == Apply(old(View()), c) && outcome == OutcomeOf(c)
    {
      if tries == [] { return ModelNotFound; }
      var before, recorded := requests, usage;
      var record := OpenClientRequest(key, false);
      outcome := ChatAttempts(record, tries, deadline);
      if outcome.Raised? {
        requests, usage := before, recorded;
      } else {
        Applied(Call(Chat(deadline), key, tries), record);
      }
    }

    method EmbeddingsAttempts(record: ClientRequest, tries: seq<Try>) returns (outcome: Outcome)
      requires tries != [] && !record.streaming
      modifies this`usage, record
      ensures var c := Call(Embeddings, record.apiKey, tries);
              && outcome == OutcomeOf(c)
              && (!Escapes(c, 0) ==>
                    usage == old(usage) + RowsFrom(c, record.id, 0) && record.View() == Closed(c, record.id))
    {
      ghost var c := Call(Embeddings, record.apiKey, tries);
      var attempt: nat := 0;
      var lastFailure: Option<Failure> := None;
      while attempt < |tries|
        invariant attempt <= |tries|
        invariant LoopState(c, attempt, lastFailure)
        invariant usage + RowsFrom(c, record.id, attempt) == old(usage) + RowsFrom(c, record.id, 0)
      {
        var t := tries[attempt];
        attempt := attempt + 1;
        if t.reply.escapes {
          return Raised;
        }
        if t.reply.error.None? {
          SucceedAttempt(c, record, t, attempt, 0, 0, false);
          return Answer(attempt - 1);
        }
        var failure := FailAttempt(c, record, t, attempt, !t.reply.error.value.retryable, false);
        lastFailure := Some(failure);
        if !t.reply.error.value.retryable {
          break;
        }
      }
      var failure := CloseFailed(c, record, attempt, lastFailure, Embeddings);
      return Error(failure);
    }

    method EmbeddingsRequest(key: Option<nat>, tries: seq<Try>) returns (outcome: Outcome)
      modifies this
      ensures var c := Call(Embeddings, key, tries);
              View() == Apply(old(View()), c) && outcome == OutcomeOf(c)
    {
      if tries == [] { return ModelNotFound; }
      var before, recorded := requests, usage;
      var record := OpenClientRequest(key, false);
      outcome := EmbeddingsAttempts(record, tries);
      if outcome.Raised? {
        requests, usage := before, recorded;
      } else {
        Applied(Call(Embeddings, key, tries), record);
      }
    }

    /** Every delta of one candidate is passed on as it arrives. */
    method Relay(t: Try) returns (sent: seq<Frame>, emitted: bool)
      ensures sent == Deltas(t) && emitted == (t.reply.deltas != [])
    {
      sent, emitted := [], false;
      for k := 0 to |t.reply.deltas|
        invariant sent == Deltas(t)[..k] && emitted == (k > 0)
      {
        emitted := true;
        sent := sent + [Delta(t.candidate, t.reply.deltas[k])];
      }
    }

    /** The failover loop of a stream; `sent` is everything the client receives. */
    method StreamAttempts(record: ClientRequest, tries: seq<Try>) returns (sent: seq<Frame>, raised: bool)
      requires tries != [] && record.streaming
      modifies this`usage, record
      ensures var c := Call(Stream, record.apiKey, tries);
              && sent == FramesFrom(c, 0, None) && raised == Escapes(c, 0)
              && (!raised ==>
                    usage == old(usage) + RowsFrom(c, record.id, 0) && record.View() == Closed(c, record.id))
    {
      ghost var c := Call(Stream, record.apiKey, tries);
      var attempt: nat := 0;
      var lastFailure: Option<Failure> := None;
      sent, raised := [], false;
      while attempt < |tries|
        invariant attempt <= |tries|
        invariant LoopState(c, attempt, lastFailure)
        invariant usage + RowsFrom(c, record.id, attempt) == old(usage) + RowsFrom(c, record.id, 0)
        invariant sent == [] && !raised && FramesFrom(c, 0, None) == FramesFrom(c, attempt, lastFailure)
      {
        var t := tries[attempt];
        attempt := attempt + 1;
        if !t.candidate.StreamingSupported() {
          continue;
        }
        var emitted;
        sent, emitted := Relay(t);
        if t.reply.escapes {
          raised := true;
          return;
        }
        if t.reply.error.None? {
          SucceedAttempt(c, record, t, attempt, 0, 0, true);
          sent := sent + [Finish(t.candidate), Done];
          return;
        }
        var failure := FailAttempt(c, record, t, attempt, !t.reply.error.value.retryable, true);
        lastFailure := Some(failure);
        if emitted {
          sent := sent + [Problem(t.reply.error.value.code, t.reply.error.value.message)];
          assert usage == old(usage) + RowsFrom(c, record.id, 0);
          assert sent + Closing(failure) == FramesFrom(c, 0, None);
          break;
        }
        assert sent == [];
        if !t.reply.error.value.retryable {
          assert usage == old(usage) + RowsFrom(c, record.id, 0);
          break;
        }
      }
      var failure := CloseFailed(c, record, attempt, lastFailure, Stream);
      sent := sent + [Problem(failure.code, failure.message), Done];
    }

    method StreamChatCompletion(key: Option<nat>, tries: seq<Try>) returns (sent: Option<seq<Frame>>)
      modifies this
      ensures var c := Call(Stream, key, tries);
              View() == Apply(old(View()), c) && sent == if tries == [] then None else Some(FramesFrom(c, 0, None))
    {
      if tries == [] { return None; }
      var before, recorded := requests, usage;
      var record := OpenClientRequest(key, true);
      var frames, raised := StreamAttempts(record, tries);
      if raised {
        requests, usage := before, recorded;
      } else {
        Applied(Call(Stream, key, tries), record);
      }
      return Some(frames);
    }
  }
}
