# The gateway backend, verified

This project models the Python backend of an LLM gateway and proves what its parts promise. The
backend is a few state machines over one shared usage ledger, and some self-contained algorithms.

- **Failover** (`Gateway`, `Failover`, `Accounting`). Chat completions, streams and embeddings walk an
  ordered list of candidates. Upstreams are oracles: each candidate would answer, fail for good, fail
  retryably, or raise what no loop catches, a stream after any number of deltas. The loops are methods that
  append usage rows and close the client request; they are tied to a specification from which attempt order,
  finality, single-source streaming and the conservation of tokens and cost follow, for single calls and for
  every history of calls.
- **Prices** (`Cost`) and the **event stream** (`Sse`, `SseCodec`): decimal arithmetic at 28 digits, and
  the printer of the gateway against the parser of its own adapter.
- **Admission** (`RateLimit`, `Quota`, `Admission`). The fixed-window limiter and the token quota are
  protocols whose steps interleave; the quota is checked when a request arrives and used up when it
  completes, on the same ledger that the failover loops write. The checks of a request run in sequence
  over stored keys and counters.
- **Routing** (`Ordering`, `Engine`, `Routing`): lexicographic keys, stable sorting, in-place marking,
  explaining and ranking of score objects, rotation, rules, and the join back to candidates.
- **Analytics** (`Usage`, `Reports`): the daily rollup as a cache that must agree with the ledger, and
  reports that partition it.
- **Identity** (`Identity`, `Auth`, `Races`, `RacingUpdates`, `RacingSessions`): bootstrap, role guards and
  single-use refresh tokens, as atomic requests, as the service methods that carry them out, and with reads
  and writes that interleave.
- **Slugs and redaction** (`Slug`, `Redaction`), over `Prelude` and `Text`.

The modules named `...Rules` state what the definitions of the others mean in terms of plain columns, replies,
roles, statuses and characters: who is called, in which order, who may do what, what is counted.

`dafny verify dfyconfig.toml` checks the whole project.

Inputs the backend takes from elsewhere are parameters: clocks and durations, upstream replies, candidates
as the database returns them, password and key hashing, the JSON library, glob matching,
the first day of a month, and the settings of a deployment. Money is counted in units of 10^-8, stored prices in
units of 10^-6, time in microseconds, in the limiter in milliseconds.

Where code and documentation of the repository differ, the model follows the code:

- no sort key uses the weight as a tie-breaker (`backend/app/router/engine.py:313-348` against `:187-190`);
- FAILOVER sorts by health and does not walk the fallback chain (`backend/app/router/engine.py:260-264`);
- a request has at most one final attempt, and a failed chat completion has none (`backend/app/services/gateway.py:313` against `backend/app/models/usage.py:138-139`);
- `attempt_count` can exceed the number of attempt rows (`backend/app/services/gateway.py:295-298`, `:405-407`);
- a stream that fails after its first delta reports the failure twice (`backend/app/services/gateway.py:440`, `:484`);
- the rollup column `p95_latency_ms` holds an average (`backend/app/services/usage.py:617`);
- the live gateway always ranks with offset 0 (`backend/app/services/gateway.py:143`), so only the simulator rotates.

Where the code does less than it seems to promise, the exact condition is proved:

- if requests are atomic, an active owner or admin always remains unless the last one sets the own status
  to `invited` (`Identity.ManagerRemainsIff`). An update reads its sender and its target without a lock
  before it writes; with overlapping updates the same holds if no demotion under way aims at the sender of
  another update, and two managers who suspend each other at the same time leave nobody
  (`RacingUpdates.ManagerAtEndUnaimed`, `RacingUpdates.LockOutByOverlapHappens`);
- an owner keeps the role unless a role is written that was asked for when the account, not yet an owner,
  was read (`RacingUpdates.OwnerLosesRoleIff`, `RacingUpdates.PromotionIsOverwritten`);
- bootstrap succeeds once and a refresh token is redeemed once if requests are atomic; as the account
  count and the token are read without a lock before they are written, in general both happen at most as
  often as requests overlap, and that often (`Races`);
- a session has one live token unless a token is rotated again while its successor is live, which takes
  overlapping refreshes of it; n of them leave n live tokens (`RacingSessions.OneLiveTokenIff`,
  `RacingSessions.OneLiveTokenApart`, `RacingSessions.ManyLiveTokens`);
- a stream ends with `[DONE]` unless an adapter raises anything but an upstream error, which no loop catches
  (`Failover.EveryStreamIsWellFormed`);
- a rebuilt day of the rollup agrees with the ledger until an attempt of that day is appended or loses a
  reference (`Usage.StaleExactlyAfterHit`);
- a key whose quota is used up stays shut unless an upstream reports negative token counts
  (`Quota.ReopenedExactlyByNegativeReport`);
- a stream survives the round trip through the gateway's own adapter unless a delta, the model name or
  the request id holds U+0085, U+2028 or U+2029, which the printer leaves as they are and at which the
  reader ends a line, or a delta is empty, which no adapter yields (`Sse.StreamRoundTrip`,
  `Sse.SeparatorLosesDelta`);
- eligible candidates come first under FAILOVER only if health, priority and key put them there
  (`Engine.FailoverEligibleFirstIff`), which is so for the scores that routing builds;
- a rule's fallback chain matters under ROUND_ROBIN only, and there unless the candidates stand in chain
  order already (`Routing.ChainChangesRoundRobinIff`);
- a reporting window covers its range of days unless the dates are given backwards
  (`Usage.WindowCoversRangeIff`).

## Model

| member | source | states |
|---|---|---|
| Gateway.ToFailure | backend/app/services/gateway.py:104-115 | whatever status an upstream error carries, the client sees one between 400 and 599 |
| FailoverRules.FailureTells | backend/app/services/gateway.py:104-115 | the upstream's own status if that is an HTTP error, otherwise 502, with its code and message |
| Gateway.GatewayService.OpenClientRequest | backend/app/services/gateway.py:158-176 | appends one pending request with the next identifier and no row |
| Gateway.GatewayService.RecordAttempt | backend/app/services/gateway.py:178-222 | appends exactly one usage row; a failed attempt costs nothing, an answered one the estimated price |
| Gateway.GatewayService.CloseClientRequest | backend/app/services/gateway.py:232-255 | sets the outcome columns of this request and touches nothing else |
| Gateway.GatewayService.ChatAttempts | backend/app/services/gateway.py:294-370 | the chat loop, with deadline, retry, stop and an exception that nothing catches, appends the rows and closes the request as the failover specification says |
| Gateway.GatewayService.ChatCompletion | backend/app/services/gateway.py:258-370 | a chat completion turns the ledger into the specified one, which an uncaught exception leaves as it was, and answers with the specified outcome |
| Gateway.GatewayService.EmbeddingsAttempts | backend/app/services/gateway.py:511-585 | the same for the embeddings loop, whose hard failures are final |
| Gateway.GatewayService.EmbeddingsRequest | backend/app/services/gateway.py:488-585 | the same for an embeddings request |
| Gateway.GatewayService.Relay | backend/app/services/gateway.py:412-421 | relays every delta of the candidate in order and reports whether any was emitted |
| Gateway.GatewayService.StreamAttempts | backend/app/services/gateway.py:404-485 | the streaming loop appends the specified rows and frames, skips candidates that cannot stream, and stops where an exception other than an upstream error escapes |
| Gateway.GatewayService.StreamChatCompletion | backend/app/services/gateway.py:372-485 | a stream turns the ledger into the specified one and sends the specified frames, with and without such an exception |
| Failover.OneRowPerCall | backend/app/services/gateway.py:294-353 | attempt rows and upstream calls correspond one to one, in order, except that a call which escapes leaves no row |
| Failover.CallsInOrder | backend/app/services/gateway.py:294-353 | calls follow the decided order and no candidate is called twice |
| Failover.CalledIffReached | backend/app/services/gateway.py:404-444 | a candidate is called if and only if everything before it was skipped or failed retryably and it neither has to be skipped nor comes after the deadline |
| Failover.AnswerIsFirstSuccess | backend/app/services/gateway.py:294-353 | candidate j answers if and only if it succeeds and everything before it was skipped or failed retryably |
| Failover.NoCallAfterDeadline | backend/app/services/gateway.py:295-298 | no chat call starts once the deadline has been seen to pass |
| Failover.AttemptCountExceedsRows | backend/app/services/gateway.py:404-407 | attempt_count exceeds the number of rows by exactly the rounds that leave none (non-streaming candidates, the deadline round, a call that escapes) |
| Failover.LastCallDecides | backend/app/services/gateway.py:471-485 | a request is answered if and only if its last call was |
| Failover.LastCallEscapes | backend/app/services/gateway.py:408-444 | an exception ends a request if and only if the candidate called last raised it |
| Failover.StreamHasOneSource | backend/app/services/gateway.py:404-485 | everything a stream sends comes from the last candidate called, or is the closing error if none was |
| Failover.SentShape | backend/app/services/gateway.py:436-485 | one candidate's frames end with the only [DONE] and report a failure once before the first delta and twice after it; if the candidate escapes they are its deltas alone |
| Failover.EveryStreamIsWellFormed | backend/app/services/gateway.py:404-485 | a stream ends with its one [DONE] if and only if no exception other than an upstream error ends it; its deltas come from one candidate; it was answered if and only if it ends so and reports no failure |
| FailoverRules.ChatCallsIff | backend/app/services/gateway.py:294-353 | a chat completion calls a candidate if and only if every one before it failed with a retryable error and no check of the clock up to its own came after the deadline |
| FailoverRules.StreamCallsIff | backend/app/services/gateway.py:404-444 | a stream calls a candidate if and only if it can stream and every one before it cannot or failed retryably before its first delta |
| FailoverRules.EmbeddingsCallIff | backend/app/services/gateway.py:511-552 | an embeddings request calls a candidate if and only if every one before it failed with a retryable error |
| FailoverRules.AnswersIff | backend/app/services/gateway.py:294-353 | a candidate answers if and only if it is called and neither fails nor raises |
| FailoverRules.LastCallIsReported | backend/app/services/gateway.py:321-370 | the client gets the answer, the exception or the failure of the candidate called last |
| FailoverRules.NobodyCalledIsReported | backend/app/services/gateway.py:355-361 | if nobody was called the client gets the gateway's own error: the deadline, or that no candidate can stream |
| FailoverRules.RoundsCount | backend/app/services/gateway.py:294-298 | the attempt counter is the number of rounds: the loop went on after each before the last, and not after the last unless candidates ran out |
| FailoverRules.RowTells | backend/app/services/gateway.py:178-222 | what the row of a call stores: who was called and when, the upstream's status and code, and finality |
| FailoverRules.RowIsPriced | backend/app/services/gateway.py:95-101 | a row holds the tokens of an answered chat completion and their exact price at eight decimal places |
| FailoverRules.RequestTells | backend/app/services/gateway.py:232-255 | the closed request agrees with what the client got: answer, status and error |
| FailoverRules.LedgerGrows | backend/app/services/gateway.py:158-222 | a call adds one request and one row for each candidate it called, or nothing at all |
| FailoverRules.SentTells | backend/app/services/gateway.py:404-485 | what a candidate sends, frame by frame |
| Accounting.RowsSumToAnswer | backend/app/services/gateway.py:194-255 | failed attempts contribute nothing, so the rows of a request sum up to its answer in tokens and cost |
| Accounting.CallIsKept | backend/app/services/gateway.py:294-370 | the closed request fits its rows: order, finality, outcome, tokens and cost |
| Accounting.FinalIff | backend/app/services/gateway.py:309-337 | exactly which requests have a final attempt; a failed chat completion has none, nor has a request that reached no provider |
| Accounting.LedgerIsWellKept | backend/app/models/usage.py:132-145 | over every history: attempt numbers ascend from at least one, only a last row can be final, a request succeeded if and only if a row without error exists, and its sums agree |
| Accounting.OneLogLinePerRequest | backend/app/services/usage.py:63-82 | the outer join behind the request log yields exactly one line per client request |
| Accounting.KeyConsumptionAgrees | backend/app/services/gateway.py:194-255 | a key's consumption is the same counted over attempts and over requests |
| Cost.HalfEvenIsNearest | backend/app/services/gateway.py:101 | the quantised value is nearest to the exact one, ties going to the even neighbour |
| Cost.HalfEvenUnique | backend/app/services/gateway.py:101 | half-even rounding has one result |
| Cost.HalfEvenMonotone | backend/app/services/gateway.py:101 | rounding keeps the order |
| Cost.TimesIsExact | backend/app/services/gateway.py:99 | tokens / 10^6 * price is exact at 28 digits |
| Cost.EstimateIsExactPriceRounded | backend/app/services/gateway.py:95-101 | no intermediate step rounds: the estimate is the exact rational price rounded half to even at eight places |
| Cost.ChargeMonotone | backend/app/services/gateway.py:95-101 | more tokens or higher prices never cost less |
| Cost.RoundingDriftIsBounded | backend/app/services/gateway.py:95-101 | the recorded total of n requests is within n * 0.5 * 10^-8 of the exact total |
| CostRules.ContextTells | backend/app/services/gateway.py:95-101 | a number of at most 28 digits stays as it is, a longer one loses the digits in excess and is rounded half to even |
| CostRules.QuantizeTells | backend/app/services/gateway.py:101 | quantising rounds half to even at the eighth decimal place |
| Sse.ReadStream | backend/app/providers/adapters.py:504-518 | the adapter's line loop, with its skips and its stop, yields what the recursive parser says |
| Sse.EventLines | backend/app/providers/adapters.py:504 | the reader sees an event as the lines its data is cut into, the first of them marked, and an empty one |
| Sse.ParsePrinted | backend/app/services/gateway.py:709-748 | frames that arrive in one piece are read back exactly: the non-empty deltas before the first [DONE], in order |
| Sse.ParseCut | backend/app/services/gateway.py:736 | a frame that is cut at U+0085, U+2028 or U+2029 adds no delta; at worst it stops the adapter or makes it fail |
| Sse.DeltaWhole | backend/app/services/gateway.py:717-736 | a delta frame arrives in one piece if and only if the delta, the model name and the request id hold none of these characters |
| Sse.StreamRoundTrip | backend/app/services/gateway.py:404-485 | reading a gateway stream with the gateway's own adapter gives back the serving candidate's deltas if and only if none is empty and neither they nor the model name nor the request id hold U+0085, U+2028 or U+2029; if every frame is whole the adapter does not fail |
| Sse.SeparatorLosesDelta | backend/app/services/gateway.py:736 | a delta with U+2028, which an upstream can send, is lost |
| Sse.ParsedDeltasAreNonEmpty | backend/app/providers/adapters.py:514-518 | whatever is read, no empty delta is yielded |
| SseCodec.FaithfulCodecExists | backend/app/services/gateway.py:717-736 | what the round trip assumes of the JSON library can be had: a printer and a parser that meet it exist |
| SseRules.BreaksTell | backend/app/providers/adapters.py:504 | the ten characters at which lines end, and which of them JSON text holds unescaped |
| SseRules.ChunkTells | backend/app/services/gateway.py:709-736 | the fields of a chunk on the wire |
| SseRules.DataTells | backend/app/providers/adapters.py:513-515 | for which choices the adapter yields nothing, and for which it fails |
| SseRules.ChoiceTells | backend/app/providers/adapters.py:514-518 | what it makes of a choice of any shape |
| SseRules.ChoicesTell | backend/app/providers/adapters.py:514-518 | several choices are read in order, up to the first that makes it fail |
| SseRules.LineTells | backend/app/providers/adapters.py:504-513 | which lines it skips and where it stops |
| RateLimit.KeyLivesAWindow | backend/app/services/rate_limit.py:157-165 | over all interleavings, successive lifetimes of a key start at least a window apart, and a key is still there a window after it was created |
| RateLimit.LifeAdmitsItsFirstHits | backend/app/services/rate_limit.py:157-174 | over all interleavings, a hit is admitted if and only if fewer than limit hits of its lifetime came before it |
| RateLimit.LifeAdmitsAtMostLimit | backend/app/services/rate_limit.py:157-174 | one lifetime admits at most limit hits, and the current one as many as were counted, up to the limit |
| RateLimit.RetryAtOnceIff | backend/app/services/rate_limit.py:163-171 | a refused client is told to retry at once if and only if less than half a second of the key is left, which the time to live rounds to zero |
| RateLimit.WindowBound | backend/app/services/rate_limit.py:157-174 | any half-open interval as long as the window contains at most 2 * limit - 1 admitted hits |
| RateLimit.WindowBoundIsTight | backend/app/services/rate_limit.py:157-174 | a run reaches that bound for every positive limit and every window of more than one time unit |
| RateLimit.LeakIsRepaired | backend/app/services/rate_limit.py:162-165 | a key left without an expiry gets one from any later call that completes its EXPIRE, whatever happens in between |
| RateLimit.LostExpiryBlocksForever | backend/app/services/rate_limit.py:163-165 | if every EXPIRE is lost, only the first hits up to the limit are ever admitted |
| RateLimit.CacheKeyInjective | backend/app/services/rate_limit.py:79-80 | two dimensions never share a counter |
| RateLimit.Redis.IncrTtl | backend/app/services/rate_limit.py:159-162 | increments one key, which starts without an expiry, and reports its time to live in rounded seconds |
| RateLimit.Redis.SetExpiry | backend/app/services/rate_limit.py:164 | gives an existing key an expiry and leaves the others alone |
| RateLimit.Redis.Delete | backend/app/services/rate_limit.py:187 | removes one key |
| RateLimit.ScopedRateLimiter.Hit | backend/app/services/rate_limit.py:141-182 | counts one hit under the key of its dimension, arms a missing expiry, admits within the effective limit, and tells a refused client the rounded time left; without an answer from Redis, at either command and whether or not it was applied, lets the hit through or, if Redis is required, fails |
| RateLimit.ScopedRateLimiter.Reset | backend/app/services/rate_limit.py:184-189 | forgets the counter of one dimension, or is skipped if Redis is not reached |
| RateLimit.UninterruptedCall | backend/app/services/rate_limit.py:157-168 | the method is the protocol with nobody in between, and leaks no key |
| RateLimit.LeftIsProtocol | backend/app/services/rate_limit.py:157-182 | whatever reply is lost, a call leaves the key as the protocol steps do that were applied |
| RateLimit.OutageIff | backend/app/services/rate_limit.py:157-176 | the service is left without an answer if and only if a reply it waits for is lost |
| AdmissionRules.HitIsCounted | backend/app/services/rate_limit.py:159 | a hit is the first of a missing or expired key and otherwise one more |
| AdmissionRules.JudgedByCount | backend/app/services/rate_limit.py:166-174 | an answered hit is admitted if and only if its number is within the limit, and told what is left |
| AdmissionRules.RetryIsNearest | backend/app/services/rate_limit.py:163-171 | a refused client is told the nearest second to the time left, or the whole window |
| Quota.Remaining | backend/app/services/api_keys.py:124-128 | a key has nothing left if and only if its requests are turned away |
| Quota.UsedAfterApply | backend/app/services/gateway.py:178-222 | completing a request raises the recorded consumption of its own key by the answer's tokens |
| Quota.OvershootIsBounded | backend/app/api/gateway/deps.py:95-101 | with at most k requests of a key in flight, each recording at most m tokens, consumption never exceeds quota - 1 + k * m |
| Quota.OvershootIsReached | backend/app/api/gateway/deps.py:95-101 | the bound is reached from an empty ledger, by a run within the overlap and size allowed, for every quota, every overlap and every size of request |
| Quota.ExhaustedAdmitsNobody | backend/app/services/api_keys.py:281-293 | once consumption has reached the quota no later request of the key is admitted, if no upstream reports negative tokens |
| Quota.ReopenedExactlyByNegativeReport | backend/app/services/api_keys.py:281-293 | the key is let in again if and only if a negative report takes consumption back below the quota |
| Admission.ApiKey.constructor | backend/app/services/api_keys.py:146-157 | a new key is enabled, unrevoked and has all scopes unless some are named |
| Admission.ApiKey.Update | backend/app/services/api_keys.py:178-212 | sets exactly the fields present; an unknown scope refuses the update as a whole |
| Admission.ApiKey.Revoke | backend/app/services/api_keys.py:214-236 | revokes and disables once; a second revocation changes nothing |
| Admission.ApiKey.Touch | backend/app/services/api_keys.py:277-279 | records the last use |
| Admission.RevocationIsFinal | backend/app/services/api_keys.py:178-236 | no sequence of updates, revocations and uses makes a revoked key usable again, not even enabling it |
| Admission.ApiKeyService.Authenticate | backend/app/services/api_keys.py:260-275 | finds the key that accepts the secret if there is one, and otherwise none exists |
| Admission.ApiKeyService.QuotaExceeded | backend/app/services/api_keys.py:281-293 | compares the key's recorded tokens with its quota |
| Admission.AdmitKey | backend/app/api/gateway/deps.py:82-109 | an authenticated key is counted once, as far as Redis answers; it is admitted if and only if it is within its limit, or cannot be judged and need not be, and within its quota; a refusal names the first check that failed and how long to wait |
| Admission.RequireGatewayKey | backend/app/api/gateway/deps.py:50-109 | the whole sequence: refused as invalid if and only if no key accepts the secret, nothing is counted before authentication, only an admitted key is touched, and the key that accepts the secret is admitted or refused by the first check that fails |
| AdmissionRules.OwnLimitCounts | backend/app/api/gateway/deps.py:82 | a key's own limit counts unless it is zero, then the default does |
| AdmissionRules.KeyIsHeldToItsLimit | backend/app/api/gateway/deps.py:82-94 | over all interleavings a hit of the key is admitted if and only if fewer than its limit, or the default, came before it in the lifetime of its counter |
| AdmissionRules.LifetimeOfKey | backend/app/api/gateway/deps.py:82-94 | one lifetime of the key's counter admits no more than that |
| AdmissionRules.CounterTells | backend/app/services/rate_limit.py:79-80 | every key has a counter of its own |
| AdmissionRules.AcceptsIff | backend/app/services/api_keys.py:260-275 | a key accepts a secret if and only if it stores its hash and is enabled, unrevoked and unexpired |
| AdmissionRules.EnablingDecides | backend/app/services/api_keys.py:178-212 | an unrevoked, unexpired key is usable if and only if it is enabled |
| AdmissionRules.RevocationTells | backend/app/services/api_keys.py:214-236 | a revocation is recorded once, disables the key and changes nothing else |
| AdmissionRules.BearerWins | backend/app/api/gateway/deps.py:44-47 | a bearer token counts whatever the other header says, in any case and without the space around it |
| AdmissionRules.OtherHeaderCounts | backend/app/api/gateway/deps.py:44-47 | without one the other header counts |
| Ordering.LessIsTotalOrder | backend/app/router/engine.py:313-348 | comparing key tuples is a strict total order |
| Ordering.SortSorts | backend/app/router/engine.py:236-271 | sorting by a strategy's key yields a sorted permutation |
| Ordering.SortedPermutationIsUnique | backend/app/router/engine.py:236-271 | with distinct keys there is only one sorted permutation |
| Ordering.OrderIsCanonical | backend/app/router/engine.py:236-271 | the order does not depend on the order of the input |
| Ordering.DeletionKeepsOrder | backend/app/router/engine.py:236-271 | deleting candidates leaves the relative order of the others unchanged |
| Ordering.BetterComesFirst | backend/app/router/engine.py:313-348 | among eligible candidates the one ahead in the strategy's criterion comes first, and the priority, never the weight, breaks ties |
| Ordering.PositionInSort | backend/app/router/engine.py:313-348 | a candidate's position is the number of candidates whose key is smaller |
| Ordering.NoWorseSortsNoLater | backend/app/router/engine.py:313-348 | a candidate no worse in health, latency, price, priority and weight has no later key, under any strategy |
| Ordering.ImprovementNeverMovesBack | backend/app/router/engine.py:313-348 | improving a candidate never moves it back |
| Ordering.RelabelSort | backend/app/router/engine.py:236-271 | the order depends on the facts and the eligibility of the candidates only |
| StrategyRules.NameLessIff | backend/app/router/engine.py:313-348 | names are compared as in a dictionary |
| StrategyRules.PriorityOrder | backend/app/router/engine.py:313-316 | PRIORITY tries the smaller number first; a missing one counts as 100 |
| StrategyRules.WeightedOrder | backend/app/router/engine.py:318-322 | WEIGHTED tries the larger weight first, then the smaller priority |
| StrategyRules.LatencyOrder | backend/app/router/engine.py:324-332 | LATENCY_AWARE tries the smaller latency first and unmeasured candidates after measured ones |
| StrategyRules.CostOrder | backend/app/router/engine.py:334-340 | COST_AWARE tries the smaller price first and unpriced candidates after priced ones |
| StrategyRules.FailoverOrder | backend/app/router/engine.py:31-37 | FAILOVER tries healthy candidates first, then degraded ones, those of unknown health, rate-limited ones and those that are down; then by priority |
| StrategyRules.ImprovementsTell | backend/app/router/engine.py:313-348 | what counts as an improvement that never moves a candidate back: latency, price, priority or weight |
| StrategyRules.RecoveryTells | backend/app/router/engine.py:31-37 | and which change of health does |
| StrategyRules.SetbacksTell | backend/app/router/engine.py:313-348 | and what does not |
| Engine.ArrangePermutes | backend/app/router/engine.py:207-234 | ranking loses and invents nothing |
| Engine.ArrangeEligibleFirst | backend/app/router/engine.py:313-340 | except under FAILOVER every eligible candidate precedes every other one, whatever excluded the others |
| Engine.SortEligibleFirstIff | backend/app/router/engine.py:236-271 | sorting puts eligible candidates first if and only if of any two that differ in eligibility the eligible one has the smaller key, or is listed first and has no greater one |
| Engine.FailoverEligibleFirstIff | backend/app/router/engine.py:342-348 | under FAILOVER they come first if and only if health, priority and key put them there |
| Engine.FailoverIgnoresEligibility | backend/app/router/engine.py:342-348 | a score that was excluded for another reason than its status stays in front of every eligible one that is not ahead of it by health, priority and key |
| Engine.NewScoresEligibleFirst | backend/app/router/engine.py:203-222 | new scores, which only a down status excludes, meet that condition under every strategy |
| Engine.RotationPosition | backend/app/router/engine.py:213-215 | at offset o eligible candidate i of n sits at position (i - o) mod n |
| Engine.RoundRobinIsFair | backend/app/router/engine.py:208-220 | over any m consecutive offsets the engine puts each of n eligible candidates first floor(m/n) or ceil(m/n) times |
| Engine.OnlyEligibleTurns | backend/app/router/engine.py:208-220 | and no other candidate ever, if there is an eligible one |
| Engine.EligiblePrefix | backend/app/router/engine.py:223-225 | eligible candidates that come first stand at exactly the positions 0..k-1 |
| Engine.DecidedOrderStands | backend/app/router/engine.py:141-148 | reading the decision back by rank gives its candidates unchanged |
| Engine.CandidateScore.constructor | backend/app/router/engine.py:120-132 | a new score is eligible, unranked and unexplained |
| Engine.MarkEligible | backend/app/router/engine.py:203-205 | exactly the scores that are down lose their eligibility |
| Engine.Order | backend/app/router/engine.py:207-222 | the score objects come back sorted or rotated, with nothing lost |
| Engine.Explain | backend/app/router/engine.py:216-295 | each score is told the reasons of its strategy for every position at which it is listed |
| Engine.AssignRanks | backend/app/router/engine.py:223-225 | eligible scores carry their last position, the others keep their rank |
| Engine.RoutingEngine.Rank | backend/app/router/engine.py:196-234 | marks, arranges, explains and numbers the scores, and reports the counts |
| Engine.RankNew | backend/app/router/engine.py:196-234 | new scores come back eligible first and ranked by position, so that reading by rank changes nothing |
| StrategyRules.ReasonsTell | backend/app/router/engine.py:242-301 | which reasons a score is told under each strategy |
| Routing.CandidateKeysAreDistinct | backend/app/services/routing.py:60-63 | unique slugs and unique model names per provider make candidate keys injective |
| Routing.MatchingRule | backend/app/services/routing.py:339-354 | an enabled rule that matches such that no other one has a smaller priority or the same and is older, or none if none matches |
| Routing.StrategyFor | backend/app/services/routing.py:356-368 | a requested strategy wins, then the matching rule's, then PRIORITY |
| StrategyRules.RuleTells | backend/app/services/routing.py:196-207 | an enabled rule applies to the models it lists, to those whose name fits its pattern, and with neither targets nor pattern to all |
| Routing.ChainSortPermutes | backend/app/services/routing.py:397-406 | the chain pre-sort keeps the candidates |
| Routing.ChainComesFirst | backend/app/services/routing.py:397-406 | chain members come first, in chain order |
| Routing.DecisionLosesNothing | backend/app/services/routing.py:411-431 | the decided order is a permutation of the candidates |
| Routing.DownComesLast | backend/app/services/routing.py:370-383 | candidates that are down come last, under every strategy |
| StrategyRules.FactsTell | backend/app/services/routing.py:411-428 | what a decision knows about a candidate: the last observation of its provider, its prices added up, priority and weight |
| StrategyRules.FailoverDecision | backend/app/router/engine.py:342-348 | a failover decision goes by the observed health of the providers, then by their priority |
| StrategyRules.SortedDecision | backend/app/router/engine.py:313-340 | the other sorted decisions put what is down last and order the rest by their criterion |
| Routing.ChainMattersOnlyUnderRoundRobin | backend/app/services/routing.py:397-406 | a rule's fallback chain changes nothing under any strategy but ROUND_ROBIN |
| Routing.ChainLeadsRoundRobin | backend/app/services/routing.py:397-406 | under ROUND_ROBIN the preferred candidates rotate in chain order and the others follow in chain order; at offset 0 the chain's preferred candidates are tried first |
| Routing.ChainChangesRoundRobinIff | backend/app/services/routing.py:397-406 | under ROUND_ROBIN the chain changes nothing if and only if the preferred candidates and those that are down stand in chain order already, each among themselves |
| Routing.ChainMattersUnderRoundRobin | backend/app/services/routing.py:397-406 | of any two preferred candidates the chain can put the second first |
| Routing.DecisionIsFair | backend/app/services/routing.py:408-431 | over any m consecutive offsets each of n preferred candidates is the first of the decided order floor(m/n) or ceil(m/n) times |
| Routing.BuildScores | backend/app/services/routing.py:411-428 | each candidate gets a new score, and every key finds its candidate |
| Routing.JoinByKey | backend/app/services/routing.py:431 | each score is joined to the candidate of its key and none is dropped |
| Routing.RankCandidates | backend/app/services/routing.py:408-431 | scores, ranking and join together give the decided order with matching scores and ranks |
| Routing.Decide | backend/app/services/routing.py:370-432 | rule, chain, ranking and join: the candidates in the decided order, preferred ones first and ranked by position, and the caller's list reordered by the chain |
| Usage.GroupsAddUp | backend/app/services/usage.py:256-268 | whatever attempts are grouped by, the groups add up to all of them |
| Usage.WindowOfDays | backend/app/services/usage.py:160-161 | from midnight to the last microsecond of a day lie exactly the days of the range |
| Usage.WindowCoversRangeIff | backend/app/services/usage.py:151-164 | the window covers the inclusive range of days if and only if the range is not given backwards |
| Usage.DefaultWindow | backend/app/services/usage.py:158-159 | without dates the window holds the last default_days days |
| AnalyticsRules.FoldTells | backend/app/services/usage.py:575-588 | a fold counts the attempts and those that stored an error, and sums up the columns |
| AnalyticsRules.LedgerTotals | backend/app/services/usage.py:188-220 | over every history of calls the fold of all attempts agrees with the client requests in tokens and cost, and every attempt either failed or answered a request |
| Usage.Rate | backend/app/services/usage.py:617-620 | the error rate as computed: the quotient becomes a float and is rounded to four places; the result is nearest to the true quotient for any number of attempts below 4.5 * 10^11 |
| Usage.RateIsExactlyRounded | backend/app/services/usage.py:617-620 | the float makes no difference unless the quotient lies midway between two results |
| AnalyticsRules.RateTells | backend/app/services/usage.py:618-620 | the rate is the float nearest to the quotient, with 53 binary digits, rounded at four decimal places, half to even both times |
| Usage.StoredRateIsNearest | backend/app/services/usage.py:617-620 | so the stored rate of any set of attempts is nearest to the share that failed |
| Usage.UsageService.RebuildRollups | backend/app/services/usage.py:569-623 | overwrites or adds the entries of the day's groups with their folds, keeps all others, and counts what it wrote |
| Usage.RebuildIsIdempotent | backend/app/services/usage.py:605-623 | rebuilding again changes nothing, and other days are untouched |
| Usage.RebuildAgrees | backend/app/services/usage.py:575-623 | a rebuilt day holds exactly the groups with attempts and their folds, if every entry has attempts |
| Usage.RollupsAddUp | backend/app/services/usage.py:575-592 | the groups' request counts, tokens and cost sum to the day's |
| AnalyticsRules.EntryAttemptsTell | backend/app/services/usage.py:589-592 | an entry stands for the attempts of its day with its provider, model and key |
| AnalyticsRules.EntryTells | backend/app/services/usage.py:605-623 | it holds their number, tokens and cost, their mean latency and the share that failed |
| Usage.RebuiltDayAgrees | backend/app/services/usage.py:569-623 | over every history of appended attempts, rebuilds and deletions of providers, models and keys, a rebuilt day agrees with the ledger |
| Usage.StaleExactlyAfterHit | backend/app/models/usage.py:146-206 | an agreeing day stays right until an attempt of that day is appended or something is deleted that one refers to, and is wrong from then on until it is rebuilt |
| Usage.DeleteKeepsNoPhantoms | backend/app/models/usage.py:146-206 | a deletion, which empties the references of attempts and takes the entries with it, leaves no entry without attempts |
| AnalyticsRules.DeletionTells | backend/app/models/usage.py:146-206 | a deletion keeps every attempt and removes exactly the entries that mention what is gone |
| AnalyticsRules.AttemptAfterDeletion | backend/app/models/usage.py:146-172 | it empties the references to what is gone and changes nothing else of an attempt |
| Reports.BucketsNest | backend/app/services/usage.py:103-116 | hours refine days, and days refine weeks and months |
| Reports.Series | backend/app/services/usage.py:269-284 | one point per bucket, strictly ascending, each with the fold of its attempts; every attempt falls into one |
| Reports.SeriesBy | backend/app/services/usage.py:242-284 | the same for a filtered window, and its points add up to the totals |
| Reports.SeriesAddsUp | backend/app/services/usage.py:188-284 | requests, tokens and cost summed over the points equal the totals |
| Reports.IntervalsRegroup | backend/app/services/usage.py:242-284 | from the hourly points one gets exactly the day points, the same buckets and in each the sums of its hours, and so for every nested pair of intervals |
| Reports.Breakdown | backend/app/services/usage.py:287-361 | one labelled row per value of the dimension, and one for attempts that lost theirs, busiest first, adding up to the totals |
| AnalyticsRules.BaseTells | backend/app/services/usage.py:626-645 | a report counts the attempts inside its window that the filter does not exclude |
| AnalyticsRules.BucketTells | backend/app/services/usage.py:85-116 | where buckets start: at a whole hour, at midnight, at the midnight before a Monday |
| AnalyticsRules.PointTells | backend/app/services/usage.py:269-284 | a point tells the number, tokens, cost, failures and mean latency of its attempts |
| Identity.BootstrapAtMostOnce | backend/app/auth/service.py:71-103 | over every run of atomic requests bootstrap succeeds at most once, and never when it is disabled or an account exists |
| Identity.OwnersOnlyGrow | backend/app/auth/service.py:232-247 | with atomic requests, no account disappears and no owner ever loses the role |
| Identity.EveryOwnerWasGranted | backend/app/auth/service.py:197-239 | every owner was bootstrapped or made one by somebody who was an owner |
| Identity.ManagerRemainsIff | backend/app/auth/service.py:221-248 | an atomic request takes away the last active owner or admin if and only if that person sets the own status to invited |
| Identity.ManagerAtEndIff | backend/app/api/v1/users.py:22-74 | a run of atomic requests from a managed state ends in one if and only if that never happened along the way |
| Identity.LockOutIsPermanent | backend/app/auth/service.py:71-83 | without an active owner or admin nobody can manage ever again, since bootstrap is closed too |
| Identity.LockOutHappens | backend/app/auth/service.py:228-247 | two requests that lead there |
| Identity.TokensStayGenuine | backend/app/auth/service.py:264-288 | every stored token matches the payload it was issued with |
| Identity.RefreshSucceedsIff | backend/app/auth/service.py:141-167 | in every reachable state a refresh succeeds if and only if the token is unexpired, stored, unrevoked and of an active account; the other two checks never decide |
| Identity.RevokedStaysRevoked | backend/app/repositories/identity.py:34-36 | a revoked token never becomes live again |
| Identity.RedeemedAtMostOnce | backend/app/auth/service.py:161-163 | with atomic requests each token is successfully refreshed at most once |
| Identity.RefreshPreservesLiveCount | backend/app/auth/service.py:161-163 | an atomic refresh preserves the number of unrevoked tokens of every account |
| Identity.SessionsHaveOneLiveToken | backend/app/auth/service.py:141-175 | over every run of atomic requests a session chain has at most one unrevoked token, and it is the newest |
| Races.BootstrapsAreBoundedByOverlap | backend/app/auth/service.py:80-92 | with reading and writing as separate steps, at most as many bootstraps succeed as overlap; one if none do |
| Races.BootstrapCloses | backend/app/auth/service.py:80-92 | once an account exists and no earlier reader is left, bootstrap is closed for good |
| Races.OverlappingBootstrapsSucceed | backend/app/auth/service.py:80-92 | n bootstraps with different addresses, never more than n of them overlapping, all succeed: the bound is tight |
| Races.RefreshesAreBoundedByOverlap | backend/app/auth/service.py:149-163 | a token is redeemed at most as often as its refresh requests overlap between reading and revoking; once if they do not |
| Races.OverlappingRefreshesSucceed | backend/app/auth/service.py:149-163 | n refreshes of one good token, never more than n of them overlapping, all succeed |
| Races.RefreshBoundIsReached | backend/app/auth/service.py:149-163 | a run from nothing does so for every n: the bound is tight |
| Races.UninterruptedUpdate | backend/app/api/v1/users.py:62-74 | an update whose reads and write follow one another is the atomic one |
| RacingUpdates.RacingManagerRemainsIff | backend/app/auth/service.py:221-248 | with overlapping updates, as long as the senders of all updates under way can manage, a write takes away the last manager if and only if that person writes the own status invited |
| RacingUpdates.ManagerAtEndUnaimed | backend/app/api/v1/users.py:62-74 | a run in which no demotion under way ever aims at the sender of another update ends with a manager if and only if the last one never left along the way |
| RacingUpdates.ManagersSuspendEachOther | backend/app/api/v1/users.py:62-74 | when the only two managers suspend each other at the same time all guards pass, and nobody can manage ever again |
| RacingUpdates.LockOutByOverlapHappens | backend/app/api/v1/users.py:62-74 | such a run from nothing |
| RacingUpdates.ShutForGood | backend/app/auth/service.py:71-83 | once nobody can manage and no update or bootstrap is under way, no run changes that |
| RacingUpdates.OwnerLosesRoleIff | backend/app/auth/service.py:232-247 | in every reachable state an act takes the owner role from an account if and only if it writes another role that was asked for when the account was read, before it became an owner |
| RacingUpdates.OwnersOnlyGrowApart | backend/app/auth/service.py:232-247 | if no two changes of one account's role are ever under way at once, no owner loses the role |
| RacingUpdates.PromotionIsOverwritten | backend/app/auth/service.py:232-247 | a run from nothing in which an owner promotes an account that an administrator has read before, whose write takes the role away again |
| RacingUpdates.OneAtATime | backend/app/api/v1/users.py:62-74 | updates that come one after another meet both conditions |
| RacingSessions.RotationAddsIffRevoked | backend/app/auth/service.py:149-163 | a rotation preserves an account's number of unrevoked tokens, and adds one if and only if the token was revoked since it was read |
| RacingSessions.OverlappingRefreshesMultiply | backend/app/auth/service.py:149-163 | n overlapping refreshes of one token leave n - 1 unrevoked tokens more than there were |
| RacingSessions.ManyLiveTokens | backend/app/auth/service.py:149-163 | a run from nothing after which an account that logged in once has n of them |
| RacingSessions.RotationKeepsNewestIff | backend/app/auth/service.py:161-163 | only the newest token of each session is unrevoked after a rotation if and only if no later token of the rotated session was |
| RacingSessions.OneLiveTokenIff | backend/app/auth/service.py:141-175 | at every moment of a run each session has one unrevoked token at most, its newest, if and only if every rotation meets that condition |
| RacingSessions.OneLiveTokenApart | backend/app/auth/service.py:141-175 | which is so if no two refreshes of the same token ever overlap |
| Identity.SessionsAreEarned | backend/app/auth/service.py:108-167 | a new token belongs to an active account that was just bootstrapped, logged in with its password, or held the redeemed token |
| Identity.LoggedOutForGood | backend/app/auth/service.py:169-175 | a token that was logged out is refused ever after |
| Identity.EmailsStayDistinct | backend/app/auth/service.py:200-208 | accounts never share an address |
| AccountRules.OnlyManagersChangeAccounts | backend/app/api/v1/users.py:22-66 | accounts are created and changed by active owners and admins; everybody else is refused with insufficient_role, and nothing changes |
| AccountRules.OnlyManagersBeginUpdates | backend/app/auth/dependencies.py:27-65 | with interleaving requests, too, nobody else gets an update under way |
| AccountRules.EveryAccountWasCreated | backend/app/auth/service.py:180-219 | over every run each account stems from the bootstrap or from somebody who was an active owner or admin |
| AccountRules.EveryOwnerWasMade | backend/app/auth/service.py:197-239 | over every run each owner was bootstrapped or made one by an active owner who asked for that role |
| AccountRules.WrittenTells | backend/app/auth/service.py:240-244 | which columns an update writes over the row as it is then |
| AccountRules.UpdateReasons | backend/app/auth/service.py:221-239 | the exact condition of every refusal of an update |
| AccountRules.CreateReasons | backend/app/auth/service.py:180-208 | the exact condition of every refusal to create an account |
| AccountRules.LoginReasons | backend/app/auth/service.py:108-127 | a login succeeds if and only if some active account has that address and that password |
| AccountRules.RefreshReasons | backend/app/auth/service.py:149-159 | the condition of every refusal of a refresh |
| AccountRules.NewAccount | backend/app/auth/service.py:84-92 | what a new account is: active, with the role asked for, or the owner |
| AccountRules.UpdatedAccount | backend/app/auth/service.py:240-247 | an update sets what was asked for and nothing else |
| AccountRules.NewToken | backend/app/auth/service.py:264-288 | a new token is live, belongs to its payload and lives as long as configured |
| AccountRules.RefreshTells | backend/app/auth/service.py:161-163 | a refresh revokes the token it was given and changes nothing but the new one |
| AccountRules.LogoutTells | backend/app/auth/service.py:169-175 | a logout revokes the live token that was presented and changes nothing else |
| AccountRules.SessionTells | backend/app/auth/service.py:161-163 | a refresh carries a session on, a login or the bootstrap starts one |
| AccountRules.RacingSessionTells | backend/app/auth/service.py:161-163 | the same where rotations interleave with other requests |
| Auth.AuthService.IssueSession | backend/app/auth/service.py:264-288 | stores one new token |
| Auth.AuthService.BootstrapOwner | backend/app/auth/service.py:71-103 | carries out the bootstrap step or refuses with the step's reason and changes nothing |
| Auth.AuthService.Authenticate | backend/app/auth/service.py:108-139 | the same for login |
| Auth.AuthService.Redeem | backend/app/auth/service.py:141-167 | the same for refresh |
| Auth.AuthService.LogOut | backend/app/auth/service.py:169-175 | the same for logout, which never fails |
| Auth.AuthService.Create | backend/app/auth/service.py:180-219 | the same for creating an administrator |
| Auth.AuthService.Update | backend/app/auth/service.py:221-259 | the same for changing one |
| Slug.ValueOfDecimal | backend/app/services/provider_admin.py:396 | decimal printing can be read back, so distinct suffixes print differently |
| Slug.ProbesDiffer | backend/app/services/provider_admin.py:391-397 | no slug is probed twice |
| Slug.TakenPrefixIsShort | backend/app/services/provider_admin.py:394 | n slugs cannot all be taken when fewer are in use |
| Slug.UniqueSlug | backend/app/services/provider_admin.py:391-397 | returns the first free slug of base, base-2, base-3, ... after at most one more look-up than slugs are taken |
| Slug.FirstFreeIsUnique | backend/app/services/provider_admin.py:391-397 | there is only one first free slug |
| Slug.RegisterSlug | backend/app/services/provider_admin.py:148-149 | registration keeps slugs distinct and takes a free requested slug as it is |
| TextRules.ProbeTells | backend/app/services/provider_admin.py:391-397 | the probes are the base and then the suffixes -2, -3 and so on, in decimal digits |
| Redaction.RedactHidesExactlySecrets | backend/app/core/redaction.py:56-74 | two values redact to the same if and only if they differ under sensitive keys only |
| Redaction.RedactionShowsNoSecret | backend/app/core/redaction.py:63-74 | the same with errors counted as results: a set that holds a tuple cannot be redacted, and whether that happens does not depend on secrets |
| Redaction.RedactIsClean | backend/app/core/redaction.py:63-74 | in the result every sensitive key carries the marker |
| Redaction.FixedPointIffClean | backend/app/core/redaction.py:63-74 | a value is left as it is if and only if it is clean already |
| Redaction.RedactIdempotent | backend/app/core/redaction.py:63-74 | redacting twice is redacting once |
| Redaction.SplitJoin | backend/app/core/redaction.py:79-87 | splitting undoes joining |
| Redaction.RedactText | backend/app/core/redaction.py:77-87 | the loop scrubs every word that looks like a secret |
| Redaction.ScrubbedTextHidesSecrets | backend/app/core/redaction.py:77-87 | word by word only secrets were replaced, and none is left |
| Redaction.RedactTextIdempotent | backend/app/core/redaction.py:77-87 | scrubbing twice is scrubbing once |
| TextRules.StripTells | backend/app/core/redaction.py:57 | stripping removes the white space at both ends and nothing else |
| TextRules.SpacesTell | backend/app/core/redaction.py:57 | the white-space characters |
| TextRules.SensitiveTells | backend/app/core/redaction.py:56-60 | a key is sensitive if and only if its trimmed lower-case form holds one of twelve markers and is none of ten exceptions |
| TextRules.CaseAndSpaceDoNotMatter | backend/app/core/redaction.py:57 | white space around a key and the case of its letters do not matter |
| TextRules.ScrubTells | backend/app/core/redaction.py:77-87 | a word is scrubbed if and only if it is longer than twelve characters and holds one of three markers in any case |
| TextRules.RaisesTells | backend/app/core/redaction.py:63-74 | redaction fails if and only if a set with a tuple among its members is shown |

## Left out

- Routing.CandidateKeysAreDistinct: which endpoint and credential serve a candidate, and the order in which candidates are resolved, are inputs.
- Routing.MatchingRule: glob matching is a parameter; of two rules with the same priority and age either may apply.
- Sse.StreamRoundTrip: JSON printing and parsing are a parameter; what is assumed of them is the predicate Faithful, which can be met, and lines end where Python's splitlines ends them, as in the HTTP client's line iterator.
- Usage.RebuildAgrees: a rebuild removes no entry, so it needs that every entry has attempts; attempts themselves are never deleted, only their references.
- Accounting.LedgerIsWellKept: histories of calls alone; the deletion of a key, which empties the key of its requests and attempts alike, is modelled for the rollup only.
- Reports.Series: months come from a calendar function given as a parameter.
- Reports.SeriesBy: the same for the months.
- Reports.Breakdown: ties between equally busy rows are broken by the order of the attempts, which the database leaves open.
- RateLimit.WindowBound: answers given while Redis is unavailable or the limiter is switched off are not counted, and a reset, which only the login limiter uses, is not part of the runs.
- Quota.OvershootIsBounded: the quota stays what it is during a run.
- Cost.TimesIsExact: an exact quotient keeps its exponent, while Python drops trailing zeros; the value is the same.
- Identity.EmailsStayDistinct: addresses are taken without surrounding white space, as the request schema delivers them, and lower case is that of ASCII letters.
- Slug.UniqueSlug: the length limit of the slug column is not modelled.
- Auth.AuthService.Authenticate: password verification compares hashes of a given function; audit records are not modelled.
- The percentile latency of the totals, which rounds a float.
- A client that disconnects in the middle of a stream and leaves its request pending.
- Stored credentials that cannot be decrypted.
- Headers, timeouts, status tables and the health history written beside an attempt.
- NaN, infinities and rounding in the engine's float scores; keys compare exact numbers.
- Cryptography and token encoding; a presented token is its decoded content with a mark that says whether it is ours.
- Gateway.GatewayService.StreamChatCompletion: an exception in the middle of a stream is taken to undo the request's transaction, as the session dependency says (`backend/app/database/session.py:66-79`); when the web framework closes the session of a stream is not modelled.
- Login, logout and the creation of accounts are single steps even where the other requests interleave.
- The database session otherwise; each request is one atomic step except where steps interleave.
- Rule editing, pagination, catalogues, exports, seed data, settings and the whole front end.
