/** What the failover loops do, told by the candidates and their replies alone. */
module FailoverRules {
  import opened Prelude
  import opened Cost
  import opened Gateway
  import opened Failover

  // ----- Who is called ------------------------------------------------------------------------

  /** A chat completion calls a candidate exactly if all before it failed retryably and no look at the clock, up to
      its own, came after the deadline. */
  lemma ChatCallsIff(c: Call, j: nat)
    requires c.kind.Chat? && j < |c.tries|
    ensures j in Called(c, 0) <==>
      && (forall k :: 0 <= k < j ==>
            var r := c.tries[k].reply;
            !r.escapes && r.error.Some? && r.error.value.retryable)
      && forall k :: 0 <= k <= j ==> c.tries[k].timing.checkedAt <= c.kind.deadline
  {
    CalledIffReached(c, 0, j);
    forall k | 0 <= k < j
      ensures Passes(c, k) <==>
        && c.tries[k].timing.checkedAt <= c.kind.deadline
        && !c.tries[k].reply.escapes && c.tries[k].reply.error.Some? && c.tries[k].reply.error.value.retryable
    {
    }
    assert Callable(c, j) <==> c.tries[j].timing.checkedAt <= c.kind.deadline;
  }

  /** A stream calls a candidate exactly if it can stream and each before it cannot, or failed retryably before its
      first delta. */
  lemma StreamCallsIff(c: Call, j: nat)
    requires c.kind.Stream? && j < |c.tries|
    ensures j in Called(c, 0) <==>
      && (forall k :: 0 <= k < j ==>
            var t := c.tries[k];
            || (t.candidate.endpoint.Some? && !t.candidate.endpoint.value.streaming)
            || (!t.reply.escapes && t.reply.error.Some? && t.reply.error.value.retryable && t.reply.deltas == []))
      && (c.tries[j].candidate.endpoint.Some? ==> c.tries[j].candidate.endpoint.value.streaming)
  {
    CalledIffReached(c, 0, j);
    forall k | 0 <= k < j
      ensures Passes(c, k) <==>
        var t := c.tries[k];
        || (t.candidate.endpoint.Some? && !t.candidate.endpoint.value.streaming)
        || (!t.reply.escapes && t.reply.error.Some? && t.reply.error.value.retryable && t.reply.deltas == [])
    {
    }
  }

  /** A request for embeddings calls a candidate exactly if all before it failed retryably. */
  lemma EmbeddingsCallIff(c: Call, j: nat)
    requires c.kind.Embeddings? && j < |c.tries|
    ensures j in Called(c, 0) <==>
      forall k :: 0 <= k < j ==>
        var r := c.tries[k].reply;
        !r.escapes && r.error.Some? && r.error.value.retryable
  {
    CalledIffReached(c, 0, j);
    forall k | 0 <= k < j
      ensures Passes(c, k) <==>
        !c.tries[k].reply.escapes && c.tries[k].reply.error.Some? && c.tries[k].reply.error.value.retryable
    {
    }
  }

  /** Whoever is called and neither fails nor escapes answers, and nobody else does. */
  lemma AnswersIff(c: Call, j: nat)
    requires j < |c.tries|
    ensures AnsweredFrom(c, 0) == Some(j) <==>
      j in Called(c, 0) && !c.tries[j].reply.escapes && c.tries[j].reply.error.None?
  {
    CalledIffReached(c, 0, j);
    AnswerIsFirstSuccess(c, 0, j);
  }

  // ----- What the client gets -----------------------------------------------------------------

  /** The client sees the upstream's status if that is one of an HTTP error, otherwise 502, its code and its message. */
  lemma FailureTells(e: UpstreamError)
    ensures var f := ToFailure(e);
            && f.status == (if e.status.Some? && 400 <= e.status.value <= 599 then e.status.value else 502)
            && f.code == e.code && f.message == e.message
  {
  }

  lemma {:induction false} LastFailure(c: Call, i: nat, last: Option<Failure>)
    requires i <= |c.tries| && AnsweredFrom(c, i).None? && !Escapes(c, i)
    ensures FailureFrom(c, i, last) ==
            match LastCall(c, i)
            case None => last
            case Some(j) => if c.tries[j].reply.error.Some? then Some(ToFailure(c.tries[j].reply.error.value)) else None
    decreases |c.tries| - i
  {
    if i < |c.tries| {
      match VerdictAt(c, i)
      case Skip => LastFailure(c, i + 1, last);
      case Retry => LastFailure(c, i + 1, Some(ToFailure(c.tries[i].reply.error.value)));
      case _ =>
    }
  }

  /** The client gets the answer, the exception or the failure of the candidate called last. */
  lemma LastCallIsReported(c: Call)
    requires Called(c, 0) != []
    ensures var j := Called(c, 0)[|Called(c, 0)| - 1]; var r := c.tries[j].reply;
            OutcomeOf(c) == if r.escapes then Raised
                            else if r.error.None? then Answer(j)
                            else Error(ToFailure(r.error.value))
  {
    LastCallDecides(c, 0);
    LastCallEscapes(c, 0);
    if AnsweredFrom(c, 0).None? && !Escapes(c, 0) { LastFailure(c, 0, None); }
  }

  /** If nobody was called, an error of the gateway's own says why; a request for embeddings always calls somebody. */
  lemma NobodyCalledIsReported(c: Call)
    requires Called(c, 0) == [] && c.tries != []
    ensures !c.kind.Embeddings? && OutcomeOf(c).Error?
    ensures var f := OutcomeOf(c).failure;
            && (c.kind.Chat? ==>
                  && f.status == 504 && f.code == "gateway_deadline_exceeded"
                  && f.message == "The request deadline was reached before any provider answered.")
            && (c.kind.Stream? ==>
                  && f.status == 502 && f.code == "gateway_no_streaming_candidate"
                  && f.message == "No candidate provider can serve this model as a stream.")
  {
    LastCallDecides(c, 0);
    LastCallEscapes(c, 0);
    LastFailure(c, 0, None);
    if c.kind.Embeddings? { EmbeddingsCallIff(c, 0); }
  }

  // ----- Rounds -------------------------------------------------------------------------------

  /** The loop goes on after the k-th candidate. */
  ghost predicate GoesOn(c: Call, k: nat)
    requires k < |c.tries|
  {
    var t := c.tries[k];
    var failed := !t.reply.escapes && t.reply.error.Some? && t.reply.error.value.retryable;
    match c.kind
    case Chat(deadline) => t.timing.checkedAt <= deadline && failed
    case Stream =>
      (t.candidate.endpoint.Some? && !t.candidate.endpoint.value.streaming) || (failed && t.reply.deltas == [])
    case Embeddings => failed
  }

  lemma GoesOnIff(c: Call, k: nat)
    requires k < |c.tries|
    ensures GoesOn(c, k) <==> Passes(c, k)
  {
  }

  /** The attempt counter counts the rounds: the loop went on after each before the last, and the last is the last
      candidate or one after which it does not go on. */
  lemma {:induction false} RoundsCount(c: Call, i: nat)
    requires i < |c.tries|
    ensures i < Rounds(c, i) <= |c.tries|
    ensures forall k :: i <= k < Rounds(c, i) - 1 ==> GoesOn(c, k)
    ensures Rounds(c, i) < |c.tries| ==> !GoesOn(c, Rounds(c, i) - 1)
    decreases |c.tries| - i
  {
    GoesOnIff(c, i);
    if Passes(c, i) && i + 1 < |c.tries| { RoundsCount(c, i + 1); }
  }

  // ----- What is stored -----------------------------------------------------------------------

  /** The row of an upstream call. */
  lemma RowTells(c: Call, request: nat, j: nat)
    requires j in Called(c, 0) && !c.tries[j].reply.escapes
    ensures var t := c.tries[j]; var row := Row(c, request, j);
            && row.request == request && row.apiKey == c.key && row.attempt == j + 1
            && row.streaming == c.kind.Stream? && row.latency == t.timing.latency && row.createdAt == t.timing.stamp
            && row.provider == Some(t.candidate.provider) && row.credential == Some(t.candidate.credential)
            && row.model == Some(t.candidate.model)
            && row.endpoint == (if t.candidate.endpoint.Some? then Some(t.candidate.endpoint.value.id) else None)
    ensures var r := c.tries[j].reply; var row := Row(c, request, j);
            match r.error
            case None =>
              && row.status == 200 && row.error.None? && row.isFinal && !row.retryable
            case Some(e) =>
              && row.error == Some(e.code) && row.retryable == e.retryable
              && row.status == (if e.status.Some? && e.status.value != 0 then e.status.value else 502)
              && row.isFinal == (!e.retryable && !c.kind.Chat?)
  {
  }

  /** Its tokens are those of the reply, for an answered chat completion, and its cost is their exact price at eight
      decimal places: prices are in millionths for a million tokens. */
  lemma RowIsPriced(c: Call, request: nat, j: nat)
    requires j in Called(c, 0) && !c.tries[j].reply.escapes
    ensures var r := c.tries[j].reply; var row := Row(c, request, j); var f := c.tries[j].candidate;
            var counted := r.error.None? && c.kind.Chat?;
            && row.inputTokens == (if counted then r.inputTokens else 0)
            && row.outputTokens == (if counted then r.outputTokens else 0)
            && row.totalTokens == row.inputTokens + row.outputTokens
            && (r.error.Some? ==> row.cost == 0)
            && IsHalfEven(row.cost, row.inputTokens * f.inputPrice.Or(0) + row.outputTokens * f.outputPrice.Or(0),
                          10000)
  {
  }

  /** The closed request tells what the client got. */
  lemma RequestTells(c: Call, id: nat)
    requires c.tries != [] && OutcomeOf(c) != Raised
    ensures var q := Closed(c, id);
            && q.id == id && q.apiKey == c.key && q.streaming == c.kind.Stream? && q.attemptCount == Rounds(c, 0)
    ensures OutcomeOf(c).Answer? ==>
      var q, row := Closed(c, id), Row(c, id, OutcomeOf(c).try);
      && q.state == Succeeded && q.finalStatus == Some(200) && q.finalError == None
      && q.inputTokens == row.inputTokens && q.outputTokens == row.outputTokens
      && q.totalTokens == q.inputTokens + q.outputTokens && q.cost == row.cost
    ensures OutcomeOf(c).Error? ==>
      var q, f := Closed(c, id), OutcomeOf(c).failure;
      && q.state == Failed && q.finalStatus == Some(f.status) && q.finalError == Some(f.code)
      && q.inputTokens == 0 && q.outputTokens == 0 && q.totalTokens == 0 && q.cost == 0
    ensures OutcomeOf(c).Answer? || OutcomeOf(c).Error?
  {
  }

  /** A call adds one request and a row for each candidate it called, unless it had no candidates or the one called
      last escaped: then the ledger stays as it was. */
  lemma LedgerGrows(l: Ledger, c: Call)
    ensures var t := Apply(l, c); var w := Called(c, 0);
            if |c.tries| == 0 || (w != [] && c.tries[w[|w| - 1]].reply.escapes) then t == l
            else
              && |t.requests| == |l.requests| + 1 && t.requests[..|l.requests|] == l.requests
              && |t.usage| == |l.usage| + |w| && t.usage[..|l.usage|] == l.usage
              && forall k :: 0 <= k < |w| ==> t.usage[|l.usage| + k] == Row(c, |l.requests|, w[k])
  {
    LastCallEscapes(c, 0);
    OneRowPerCall(c, |l.requests|, 0);
  }

  // ----- What a stream sends ------------------------------------------------------------------

  /** What a candidate sends starts with its deltas, in order. An answer ends with the finishing frame; a failure with
      its code and message, as they are first if deltas were sent, and in any case at the end. */
  lemma SentTells(t: Try)
    ensures var f, n := Sent(t), |t.reply.deltas|;
            && |f| >= n && (forall k :: 0 <= k < n ==> f[k] == Frame.Delta(t.candidate, t.reply.deltas[k]))
            && var rest := f[n..];
               if t.reply.escapes then rest == []
               else match t.reply.error
                 case None => rest == [Finish(t.candidate), Done]
                 case Some(e) =>
                   rest == (if n > 0 then [Problem(e.code, e.message)] else []) + [Problem(e.code, e.message), Done]
  {
    assert Deltas(t) == Sent(t)[..|t.reply.deltas|];
  }
}
