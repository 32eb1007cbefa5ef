/** What the failover loops compute, stated without their control flow. */
module Failover {
  import opened Prelude
  import opened Gateway

  /** The loop moves past candidate j. */
  predicate Passes(c: Call, j: nat)
    requires j < |c.tries|
  {
    VerdictAt(c, j).Skip? || VerdictAt(c, j).Retry?
  }

  ghost predicate AllPass(c: Call, i: nat, j: nat)
    requires j <= |c.tries|
  {
    forall k :: i <= k < j ==> Passes(c, k)
  }

  /** Candidate j is called if its turn comes. */
  predicate Callable(c: Call, j: nat)
    requires j < |c.tries|
  {
    VerdictAt(c, j).Retry? || VerdictAt(c, j).GiveUp? || VerdictAt(c, j).Success? || VerdictAt(c, j).Escape?
  }

  /** The candidates called from the i-th on, in the order of the calls. */
  function Called(c: Call, i: nat): (w: seq<nat>)
    requires i <= |c.tries|
    ensures forall k :: 0 <= k < |w| ==> i <= w[k] < |c.tries|
    decreases |c.tries| - i
  {
    if i == |c.tries| then []
    else match VerdictAt(c, i)
      case OutOfTime => []
      case Skip => Called(c, i + 1)
      case Retry => [i] + Called(c, i + 1)
      case _ => [i]
  }

  /** Attempt rows and upstream calls correspond one to one, in order, except that a call that escapes leaves none. */
  lemma {:induction false} OneRowPerCall(c: Call, request: nat, i: nat)
    requires i <= |c.tries|
    ensures |Called(c, i)| == |RowsFrom(c, request, i)| + if Escapes(c, i) then 1 else 0
    ensures forall k :: 0 <= k < |RowsFrom(c, request, i)| ==>
      RowsFrom(c, request, i)[k] == Row(c, request, Called(c, i)[k])
    decreases |c.tries| - i
  {
    if i < |c.tries| { OneRowPerCall(c, request, i + 1); }
  }

  /** Calls follow the decided order and no candidate is called twice. */
  lemma {:induction false} CallsInOrder(c: Call, i: nat)
    requires i <= |c.tries|
    ensures forall j, k :: 0 <= j < k < |Called(c, i)| ==> Called(c, i)[j] < Called(c, i)[k]
    decreases |c.tries| - i
  {
    if i < |c.tries| { CallsInOrder(c, i + 1); }
  }

  /** A candidate is called exactly if everything before it was skipped or failed retryably, and it
      neither has to be skipped nor comes after the deadline. */
  lemma {:induction false} CalledIffReached(c: Call, i: nat, j: nat)
    requires i <= j < |c.tries|
    ensures j in Called(c, i) <==> Callable(c, j) && AllPass(c, i, j)
    decreases |c.tries| - i
  {
    if i < j {
      CalledIffReached(c, i + 1, j);
      assert AllPass(c, i, j) <==> Passes(c, i) && AllPass(c, i + 1, j);
    }
  }

  /** The loop computes the first success in the decided order, provided the loop gets there. */
  lemma {:induction false} AnswerIsFirstSuccess(c: Call, i: nat, j: nat)
    requires i <= j < |c.tries|
    ensures AnsweredFrom(c, i) == Some(j) <==> VerdictAt(c, j).Success? && AllPass(c, i, j)
    decreases |c.tries| - i
  {
    if i < j {
      AnswerIsFirstSuccess(c, i + 1, j);
      assert AllPass(c, i, j) <==> Passes(c, i) && AllPass(c, i + 1, j);
    }
  }

  /** In a chat completion nothing is called once the deadline has been seen to pass. */
  lemma NoCallAfterDeadline(c: Call, j: nat)
    requires c.kind.Chat? && j in Called(c, 0)
    ensures forall k :: 0 <= k <= j ==> c.tries[k].timing.checkedAt <= c.kind.deadline
  {
    CalledIffReached(c, 0, j);
    forall k | 0 <= k <= j ensures c.tries[k].timing.checkedAt <= c.kind.deadline {
      assert k < j ==> Passes(c, k);
    }
  }

  /** Rounds that leave no row: a candidate that cannot stream, the deadline, or an exception. */
  function Uncalled(c: Call, i: nat): nat
    requires i <= |c.tries|
    decreases |c.tries| - i
  {
    if i == |c.tries| then 0
    else match VerdictAt(c, i)
      case OutOfTime => 1
      case Escape => 1
      case Skip => 1 + Uncalled(c, i + 1)
      case Retry => Uncalled(c, i + 1)
      case _ => 0
  }

  /** The stored attempt count exceeds the number of rows by exactly these rounds. */
  lemma {:induction false} AttemptCountExceedsRows(c: Call, request: nat, i: nat)
    requires i <= |c.tries|
    ensures Rounds(c, i) == i + |RowsFrom(c, request, i)| + Uncalled(c, i)
    decreases |c.tries| - i
  {
    if i < |c.tries| { AttemptCountExceedsRows(c, request, i + 1); }
  }

  // ----- Streams -------------------------------------------------------------------------------

  /** The candidate called last. */
  function LastCall(c: Call, i: nat): (r: Option<nat>)
    requires i <= |c.tries|
    ensures r == if Called(c, i) == [] then None else Some(Called(c, i)[|Called(c, i)| - 1])
    decreases |c.tries| - i
  {
    if i == |c.tries| then None
    else match VerdictAt(c, i)
      case OutOfTime => None
      case Skip => LastCall(c, i + 1)
      case Retry => Some(LastCall(c, i + 1).Or(i))
      case _ => Some(i)
  }

  /** Everything a stream sends on behalf of the one candidate that was called last. */
  function Sent(t: Try): seq<Frame> {
    if t.reply.escapes then Deltas(t)
    else if t.reply.error.None? then Deltas(t) + [Finish(t.candidate), Done]
    else
      var f := ToFailure(t.reply.error.value);
      Deltas(t) + (if t.reply.deltas != [] then [Problem(f.code, f.message)] else []) + Closing(f)
  }

  lemma NothingSent(t: Try)
    requires !t.reply.escapes && t.reply.error.Some? && t.reply.deltas == []
    ensures Sent(t) == Closing(ToFailure(t.reply.error.value))
  {
  }

  /** Single source: whatever was tried before, the client receives the frames of one candidate. */
  lemma {:induction false} StreamHasOneSource(c: Call, i: nat, last: Option<Failure>)
    requires c.kind.Stream? && i <= |c.tries|
    ensures FramesFrom(c, i, last) ==
            match LastCall(c, i)
            case None => Closing(last.Or(DefaultFailure(Stream)))
            case Some(j) => Sent(c.tries[j])
    decreases |c.tries| - i
  {
    if i < |c.tries| {
      var t := c.tries[i];
      match VerdictAt(c, i)
      case Skip => StreamHasOneSource(c, i + 1, last);
      case Retry =>
        StreamHasOneSource(c, i + 1, Some(ToFailure(t.reply.error.value)));
        NothingSent(t);
      case _ =>
    }
  }

  function CountProblems(f: seq<Frame>): nat {
    if f == [] then 0 else CountProblems(f[1..]) + if f[0].Problem? then 1 else 0
  }

  lemma {:induction false} ProblemsAppend(a: seq<Frame>, b: seq<Frame>)
    ensures CountProblems(a + b) == CountProblems(a) + CountProblems(b)
  {
    if a == [] {
      assert a + b == b;
    } else {
      assert (a + b)[0] == a[0] && (a + b)[1..] == a[1..] + b;
      ProblemsAppend(a[1..], b);
    }
  }

  lemma {:induction false} DeltasAreNoProblems(f: seq<Frame>)
    requires forall k :: 0 <= k < |f| ==> f[k].Delta?
    ensures CountProblems(f) == 0
  {
    if f != [] { DeltasAreNoProblems(f[1..]); }
  }

  /** One candidate's frames end with the only [DONE], and a failure is reported once if nothing had been sent and
      twice if it had, a success never; a candidate that escapes sends its deltas and nothing else. */
  lemma SentShape(t: Try)
    ensures var f := Sent(t);
            && (if t.reply.escapes then |f| == |t.reply.deltas| && Done !in f && CountProblems(f) == 0
                else |f| > 0 && f[|f| - 1] == Done && (forall k :: 0 <= k < |f| - 1 ==> f[k] != Done)
                     && CountProblems(f) == (if t.reply.error.None? then 0 else if t.reply.deltas != [] then 2 else 1))
            && (forall k :: 0 <= k < |f| && f[k].Delta? ==>
                  f[k].from == t.candidate && k < |t.reply.deltas| && f[k].text == t.reply.deltas[k])
  {
    DeltasAreNoProblems(Deltas(t));
    if t.reply.escapes {
    } else if t.reply.error.None? {
      var tail := [Finish(t.candidate), Done];
      ProblemsAppend(Deltas(t), tail);
      assert tail[1..] == [Done] && CountProblems([Done]) == 0;
    } else {
      var f := ToFailure(t.reply.error.value);
      var early := if t.reply.deltas != [] then [Problem(f.code, f.message)] else [];
      ProblemsAppend(Deltas(t) + early, Closing(f));
      ProblemsAppend(Deltas(t), early);
      assert Closing(f)[1..] == [Done] && CountProblems([Done]) == 0;
      assert early != [] ==> early[1..] == [];
    }
  }

  /** An exception comes from the candidate called last. */
  lemma {:induction false} LastCallEscapes(c: Call, i: nat)
    requires i <= |c.tries|
    ensures Escapes(c, i) <==> LastCall(c, i).Some? && c.tries[LastCall(c, i).value].reply.escapes
    decreases |c.tries| - i
  {
    if i < |c.tries| { LastCallEscapes(c, i + 1); }
  }

  /** A stream ends with [DONE] exactly if no exception ends the request, and then nowhere else; all its deltas come
      from one candidate; and it was answered exactly if it ends so and reports no failure. */
  lemma EveryStreamIsWellFormed(c: Call)
    requires c.kind.Stream? && c.tries != []
    ensures var f := FramesFrom(c, 0, None);
            && (|f| > 0 && f[|f| - 1] == Done <==> !Escapes(c, 0))
            && (forall k :: 0 <= k < |f| - 1 ==> f[k] != Done)
            && (forall j, k :: 0 <= j < |f| && 0 <= k < |f| && f[j].Delta? && f[k].Delta? ==> f[j].from == f[k].from)
            && (CountProblems(f) == 0 && !Escapes(c, 0) <==> AnsweredFrom(c, 0).Some?)
            && CountProblems(f) <= 2
  {
    StreamHasOneSource(c, 0, None);
    LastCallDecides(c, 0);
    LastCallEscapes(c, 0);
    match LastCall(c, 0)
    case Some(j) => SentShape(c.tries[j]);
    case None => assert Closing(DefaultFailure(Stream))[1..] == [Done] && CountProblems([Done]) == 0;
  }

  /** The request is answered exactly if the last call was. */
  lemma {:induction false} LastCallDecides(c: Call, i: nat)
    requires i <= |c.tries|
    ensures AnsweredFrom(c, i) ==
            match LastCall(c, i)
            case None => None
            case Some(j) =>
              if !c.tries[j].reply.escapes && c.tries[j].reply.error.None? then Some(j) else None
    decreases |c.tries| - i
  {
    if i < |c.tries| { LastCallDecides(c, i + 1); }
  }
}
