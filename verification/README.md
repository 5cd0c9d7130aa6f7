# Budget Governor: a verified model

Budget Governor is a gateway that sits between agents and LLM providers and refuses calls a tenant, an
agent or a task cannot pay for. This project models its budget ledger and the code around it in Dafny and
proves what the design promises over every input, every run and every interleaving.

## How the model is laid out

- `Buckets`, `Script`: the check-and-decrement as a function of the visible bucket hashes.
- `Enforcement`: the Lua script with its three loops over a Redis with expiry, and the Go enforcer that
  calls it; both proved against `Script`.
- `Config`: the budget table, the Redis keys, and which buckets a request resolves to.
- `Runs`: runs of checks and increments, and the balance a check would see.
- `EagerBuckets`, `Windows`, `Holds`, `Expiry`, `Admission`: refill as refinement, burst bounds, failed
  calls, idle expiry, exact admission.
- `Collisions`: buckets that share a Redis key with limits of their own, and exactly when it shows.
- `Ledgers`, `SpendBounds`: any number of requests in flight, each settlement a pipeline of separate
  increments that may interleave with other checks or be lost, over buckets that may expire at any moment;
  the spend bound over all of that.
- `Pricing`, `Policy`, `Retries`: prices, the policy engine, and when an advised retry really is smaller.
- `Handlers`: the life of one request as a trace of checks, reconciles, finishes and responses.
- `Settlements`: that trace against the stores its checks meet, lost replies included: every charge followed
  to its reconcile or to the reason why there is none.
- `Tokenizer`, `Spend`, `Auth`, `Drift`: the token estimator, the spend writer, the key cache, and the
  reconciliation job with its mock provider.

Beside the theorems, each operation is pinned field by field where a reader would otherwise have to trust a
definition: `Script.RefillByFields`, `Enforcement.PlanByFields`, `IncrementByFields`, `ReasonsByScope`,
`TruncateExactly`, `ReplyExactly` and `SeenUntilDeadline`; `Handlers.FirstAsk`, `SecondAsk`, `PolicyIsAsked`,
`RefusedSteps`, `StreamedSteps` and `StatusExactly`; `Tokenizer.RequestExactly`; `Pricing.CostByKind`;
`Spend.StampedExactly`; `Drift.ReportedExactly`. The larger ones are in the table.

A script run is one atomic step, and so is each increment. Time is the argument `now` of each operation;
runs assume only that it does not go backwards. Answers of the outside world (backend reachable or not,
advisor suggestions, provider result, stream chunks, whether the transport can flush) are parameters.
Money, tokens and seconds are exact reals or unbounded integers; prices are the table's decimals. Every lemma
turns automatic induction off: where a proof is by induction, its body spells the induction out.

## What the proofs brought to light

- A task called `-`, or an agent called `-`, shares its Redis key with the agent's or tenant's bucket, each
  with limits of its own. The last of them alone decides what is stored: a check may charge the others too
  little, nothing at all, or more than was asked (`Script.LoweredExactly`,
  `Collisions.CheckChargesNothing`), and a full refund may give back too much or too little
  (`Holds.RefundExactly`, `Collisions.RefundLosesTokens`). `Config.DistinctExactly` says which identifiers
  collide, and `Collisions.ChargesExactly` and `Collisions.RefundsExactly` for which row limits that shows,
  over every request the enforcer accepts, which includes ones smaller than any estimate.
- A script whose reply is lost has charged its buckets, and nothing ever refunds them. Lost on the first
  check, the client gets a 503 and nothing is finished; lost on the second, it gets the 429 of a rejection,
  which is finished as one (`Settlements.LostReplyEndings`, with `Settlements.LostReplyLeaks` and
  `Settlements.LostRetryLeaks`). This and the stream that cannot be flushed are exactly the charges no
  reconcile follows: `Settlements.SettledExactly`. In the ledger such a request stays held for good.
- Deleting an idle bucket's key is what resets it: each expiry grants the limit less the balance the bucket
  would have kept, and the spend bound grows by exactly that (`SpendBounds.SpendBound`).
- A debit after a refunded call can tell that the call happened, exactly when the stored balance plus
  refill stood above the limit: the reservation cut it down to the limit and the refund did not put the
  excess back. `Holds.DebitSeesTheHold`.
- The policy engine compares output prices only and allowances with the whole request, so by itself it may
  raise the cost (`Retries.PolicyAloneMayRaiseCost`, exactly when `Retries.SwitchCanCostMoreExactly`) or the
  output limit (`Retries.PolicyAloneMayRaiseOutput`, exactly when `Retries.OutputCanRiseExactly`). It is the
  second check that rules both out, as long as no balance grew in between (`Retries.AdmittedRetryIsSmaller`).
- `docs/ARCHITECTURE.md` says that tokens observed before a stream fails are charged. The code settles at
  the usage of the last terminal chunk, so a stream is free exactly when none came or it reports no usage,
  however much was delivered: `Handlers.StreamIsFreeExactly`.
- `docs/ARCHITECTURE.md` says that the oldest spend events are dropped on overflow, and describes a circuit
  breaker and one provider retry. The code drops the newest event and has neither of the other two; the
  model follows the code.
- A stream over a transport that cannot flush keeps its reservation and never calls finish. It is the only
  exception in `Handlers.ReservationsMatch`.
- The auth cache's eviction loop is not needed for freshness, only for memory: `Auth.EvictionIsInvisible`.
- The comment on `Enforcer.Reconcile` has the signs of its delta the other way round than the code, which
  adds estimate minus actual.

## Model

| member | source | states |
|---|---|---|
| `Script.AllOrNothing` | gateway/internal/budget/checkAndDecrement.lua:110-145 | An allowed check lowers every listed bucket, in both dimensions, by exactly the request, whenever equal keys mean equal limits; any other check changes nothing; a rejection names the most specific bucket that cannot pay, with its balances; only a negative request is malformed |
| `Script.LoweredExactly` | gateway/internal/budget/checkAndDecrement.lua:127-134 | For any list, colliding keys included: a listed bucket is lowered by the request if and only if it showed what the last bucket of its key showed, or it was full, nothing was asked and that last one held more |
| `Script.AdmitsMeans` | gateway/internal/budget/checkAndDecrement.lua:114-121 | Admission holds if and only if the request is non-negative and every enforced dimension of every listed bucket covers it |
| `Script.AdmitsByFields` | gateway/internal/budget/checkAndDecrement.lua:70-121 | The same by the names of the fields: neither amount negative; wherever a token limit is set, the request is within it and within stored tokens (or the limit) plus elapsed seconds times refillTokensPerSec; likewise for dollars with the dollar limit and refillUSDPerSec |
| `Script.ChargeByFields` | gateway/internal/budget/checkAndDecrement.lua:127-134 | The last bucket under a key is left with exactly the tokens and dollars it showed, by those fields, less the request, and the time of the check |
| `Script.CheckedAt` | gateway/internal/budget/checkAndDecrement.lua:127-134 | For any list: every listed key is rewritten from the balance of the last bucket listed under it, and every other key stays as it was |
| `Script.FloorIsLeast` | gateway/internal/budget/checkAndDecrement.lua:139-152 | The running minimum in the reply is attained by an enforced bucket and undercut by none; it is absent exactly when nothing is enforced |
| `Script.FloorByFields` | gateway/internal/budget/checkAndDecrement.lua:139-154 | The balances in an allowed reply: the least tokens left over the buckets with a token limit, the least dollars left over those with a dollar limit, zero where there is none |
| `Enforcement.Redis.CheckAndDecrement` | gateway/internal/budget/checkAndDecrement.lua:41-154 | The three-loop script answers and writes as the atomic specification says, in one step; a rejected or malformed call leaves the whole database, deadlines and timestamps included, untouched |
| `Enforcement.Redis.RefillAll` | gateway/internal/budget/checkAndDecrement.lua:52-108 | The first loop computes the balance each bucket shows now and writes nothing |
| `Enforcement.Redis.FindShort` | gateway/internal/budget/checkAndDecrement.lua:114-121 | The second loop finds the first bucket that cannot pay |
| `Enforcement.Redis.ChargeAll` | gateway/internal/budget/checkAndDecrement.lua:124-145 | The third loop charges and re-arms every key and keeps the two running minima |
| `Enforcement.Redis.Refill` | gateway/internal/budget/checkAndDecrement.lua:70-104 | One bucket's lazy refill, field by field: the tokens shown are the lesser of tokenLimit and stored tokens plus elapsed seconds times refillTokensPerSec, the dollars the same of dollarLimit and refillUSDPerSec; missing fields read as full, elapsed time is never negative, and without a limit nothing is added or cut |
| `Enforcement.StampedAt` | gateway/internal/budget/checkAndDecrement.lua:131-137 | Exactly the charged keys get a new deadline, and only if a positive lifetime is configured |
| `Enforcement.ArgvAt` | gateway/internal/budget/bucket.go:135-141 | What the Go side marshals for bucket i is what the script reads back for KEYS[i] |
| `Enforcement.Enforcer.CheckAndDecrement` | gateway/internal/budget/bucket.go:130-168 | The Go call decides as the script specification does and maps the failing index back to the scope and reason of that very bucket; an error leaves the database alone if the script was not reached, and leaves the charge in place if only its reply was lost; a charge re-arms every listed key with the configured lifetime |
| `Enforcement.Enforcer.Reconcile` | gateway/internal/budget/bucket.go:226-243 | A reconcile delivers a prefix of its planned increments, reports success exactly when all of them arrived, and moves no deadline |
| `Enforcement.Redis.Exec` | gateway/internal/budget/bucket.go:241-242 | A pipeline is not a transaction: any prefix of its increments may be what reached the store; none of them changes a deadline |
| `Config.ConfigCache.Refresh` | gateway/internal/budget/configcache.go:56-111 | A reload replaces the snapshot whole or keeps it whole when any row fails to scan. The last row of each key, NULL read as blank, gives its token and dollar limit; refill is a sixtieth of the refill per minute for tokens, that times dollars over tokens for dollars, or a sixtieth of the dollar limit without a positive token limit; nothing else is in the snapshot |
| `Config.RowLimitsByFields` | gateway/internal/budget/configcache.go:79-101 | The limits of one row, without dividing: 60 × refillTokensPerSec is the refill per minute, 60 × tokenLimit × refillUSDPerSec is it times the dollar limit, and NULL limits leave cap and rate zero |
| `Config.LastRowWins` | gateway/internal/budget/configcache.go:67-103 | A row with no later row of the same tenant, agent and task is what its key is loaded with |
| `Config.SeedReaches` | gateway/internal/budget/configcache.go:137-144 | An installed entry is seen by exactly the requests looked up under it, once, inserted among the buckets they would have without it; all other requests resolve as before |
| `Config.ConfigCache.Resolve` | gateway/internal/budget/configcache.go:153-172 | Returns the configured rows for task, agent and tenant, most specific first, skipping a blank task or agent, each with its scope, its Redis key spelled out, and its limits |
| `Config.KeyInjective` | gateway/internal/budget/bucket.go:80-89 | Two configured rows whose tenant and agent contain no colon and whose agent and task are not "-" never share a Redis key |
| `Config.CatalogExists` | gateway/internal/budget/bucket.go:80-89 | So the Redis key alone determines a bucket's limits: such a catalog exists for every configuration of that kind |
| `Config.ResolveIsSound` | gateway/internal/budget/configcache.go:153-172 | For such rows the resolved buckets have pairwise distinct keys, strictly most-specific-first scopes, and limits that depend on the key alone |
| `Config.DistinctExactly` | gateway/internal/budget/configcache.go:157-171 | Without that assumption on the identifiers: the resolved keys are distinct if and only if no configured pair of scopes is confused by a "-" task or agent |
| `Config.TenantBucketCovers` | gateway/internal/budget/configcache.go:168-170 | A configured tenant bucket is among the resolved buckets of a request if and only if the request is that tenant's |
| `Runs.LevelAdvances` | gateway/internal/budget/checkAndDecrement.lua:85-104 | Waiting adds exactly the earned credit, clamped at the limit, to the balance a check would see, however the wait is divided |
| `Runs.LevelAfterCheck` | gateway/internal/budget/checkAndDecrement.lua:127-134 | An admitted check lowers the observed balance of each enforced listed dimension by the request, which it covered, and no other |
| `Runs.LevelAfterCredit` | gateway/internal/budget/bucket.go:232-240 | A refund raises the observed balance up to the limit; a debit lowers it by at most the debit |
| `Runs.SameLevelsForever` | gateway/internal/budget/checkAndDecrement.lua:60-145 | Stores with equal observed balances answer every later run of checks and refunds alike, step by step |
| `EagerBuckets.TicksAreOne` | gateway/internal/budget/checkAndDecrement.lua:90-104 | The eager bucket is well defined: crediting and clamping in any number of small ticks equals one tick of the total |
| `EagerBuckets.LazyBracketsEager` | gateway/internal/budget/checkAndDecrement.lua:70-107 | Under the same committed operations, debits included, the lazy balance is never below the eager one and above it by at most the total debited |
| `EagerBuckets.LazyRefinesEager` | gateway/internal/budget/checkAndDecrement.lua:70-107 | Over every run of checks and refunds the eager buckets, deciding for themselves, go through exactly the states the lazy store dictates and hold equal balances |
| `EagerBuckets.EagerAnswersAlike` | gateway/internal/budget/checkAndDecrement.lua:110-121 | In such a run every single check gets the same decision and the same failing scope from both |
| `EagerBuckets.FreshIsFull` | gateway/internal/budget/checkAndDecrement.lua:75-83 | The run may start from nothing: absent buckets equal full eager ones |
| `Windows.BurstBound` | gateway/internal/budget/checkAndDecrement.lua:90-134 | From one accepted check to a later one, in any run over any starting store, admitted estimates sum to at most limit + rate × time between + net increments between |
| `Windows.BudgetHolds` | gateway/internal/budget/checkAndDecrement.lua:60-145 | The invariant behind it: at every point of the window, stored balance plus admitted minus net credit fits in limit plus refill |
| `Ledgers.PlayKeeps` | gateway/internal/budget/bucket.go:226-243 | The ledger invariant holds after every interleaving of checks, settlements, single increments, lost increments and expiries of any number of requests and buckets |
| `Ledgers.PlanIsOwed` | gateway/internal/budget/bucket.go:233-240 | A reconcile plans at most one increment per bucket dimension, only for enforced ones, each the settlement difference |
| `SpendBounds.SpendBound` | gateway/internal/budget/checkAndDecrement.lua:60-145 | For every enforced bucket dimension and every interleaving, expiries at any moment and increments to expired keys included, settled usage plus unsettled reservations never exceeds limit + refill + total overruns + what expiries granted, each its limit less the balance it forgot; with a non-negative rate the refill is at most rate × time since first charge; without expiry nothing is granted |
| `SpendBounds.TenantCeiling` | gateway/internal/budget/configcache.go:153-172 | The same bound, elapsed-time bound on the refill included, for everything a tenant spends, over all agents and tasks its requests name |
| `SpendBounds.TenantSpentIsBucketSpent` | gateway/internal/budget/configcache.go:168-170 | What the tenant bucket is charged for is exactly what the tenant's requests spent |
| `SpendBounds.BooksBalance` | gateway/internal/budget/bucket.go:218-243 | A bucket that does not refill and never expires keeps exact books through every interleaving: stored balance plus billed amounts is the limit |
| `SpendBounds.ExactBooks` | gateway/internal/budget/bucket.go:218-243 | Of such a bucket, once every request is settled and every increment landed, what is stored is exactly limit minus actual usage |
| `Holds.PlanQueues` | gateway/internal/budget/bucket.go:233-240 | A reconcile queues the settlement difference once per listed enforced bucket, so m times for a key listed m times |
| `Holds.DeliveredAt` | gateway/internal/budget/bucket.go:233-240 | Delivered increments move a stored balance by exactly what was queued for it and leave its timestamp alone |
| `Holds.HoldLeavesNoTrace` | gateway/internal/proxy/handler.go:337-342 | Reserve then full refund restores every observed balance |
| `Holds.FailedCallIsInvisible` | gateway/internal/proxy/handler.go:337-342 | Hence no later run of checks and refunds can tell that the failed call was ever made |
| `Holds.DebitSeesTheHold` | gateway/internal/budget/checkAndDecrement.lua:90-97 | With a later debit it can be told, exactly when the unclamped balance was above the limit when the call was reserved |
| `Holds.RefundExactly` | gateway/internal/budget/bucket.go:233-240 | For any list, colliding keys and differing limits included: a full refund restores an enforced balance if and only if it equals what the last bucket of the key showed plus the request once for every further listing, or it was full and that sum is no less |
| `Holds.RefundExactlyInCatalog` | gateway/internal/budget/bucket.go:233-240 | Where equal keys mean equal limits: if and only if the key is listed once, nothing was asked, or the bucket was full |
| `Collisions.ChargesExactly` | gateway/internal/budget/configcache.go:157-171 | By identifiers and row limits: every admitted check, whatever it asks and whatever the store, charges every enforced balance, if and only if each row confused by a "-" task or agent agrees, in cap and rate where it enforces, with the last row of its key |
| `Collisions.RefundsExactly` | gateway/internal/budget/configcache.go:157-171 | By identifiers and row limits: every admitted check refunded in full, whatever it asked and whatever the store, leaves every enforced balance as it was, if and only if each such row enforces nothing, save a one-token cap shared with the last row of its key |
| `Collisions.RefundLosesTokens` | gateway/internal/budget/bucket.go:80-89 | Two rows under one key: a call for ten tokens, refunded in full, takes a task from 500 tokens to 110 |
| `Collisions.CheckChargesNothing` | gateway/internal/budget/checkAndDecrement.lua:127-134 | With the limits the other way round, an allowed check for ten tokens does not charge that task at all |
| `Holds.HoldWhileOthersRun` | gateway/internal/proxy/handler.go:337-342 | Checks accepted while a call is held would also have been accepted without it; refunded after them, the hold leaves every balance at least what it would have been, at most the held amount more, and within the limit |
| `Holds.HoldWhileRefundLands` | gateway/internal/budget/bucket.go:232-241 | The same when the increments of the refund land one by one between the operations of others, or in part: each balance stays between the one without the hold less what is still held, and that plus what has come back, within the limit |
| `Expiry.ExpiryIsInvisible` | gateway/internal/budget/checkAndDecrement.lua:75-83 | No check at an instant can see that anything expired if and only if every enforced dimension of every expired bucket had refilled to its limit |
| `Expiry.CoveredExpiryIsInvisible` | gateway/internal/budget/checkAndDecrement.lua:131-137 | Which is so when balance + lifetime × rate reaches the limit in every enforced dimension |
| `Expiry.ExpiryChangesNoDecision` | gateway/internal/budget/checkAndDecrement.lua:131-137 | And then no later run, debits included, decides differently |
| `Expiry.ExpiryNeverMatters` | gateway/internal/budget/checkAndDecrement.lua:75-83 | Over whole runs in which keys expire and return any number of times, every check is decided as if nothing ever expired, as long as one lifetime refills each bucket from where it stands |
| `Expiry.LongIdleCovers` | gateway/internal/budget/checkAndDecrement.lua:131-137 | For runs of checks and refunds it suffices that one lifetime refills an empty bucket |
| `Admission.AdmittedExactlyAfter` | gateway/internal/budget/checkAndDecrement.lua:85-121 | A request within every limit is rejected strictly before and admitted at every instant from the maximum over buckets and dimensions of (request − balance) / rate |
| `Admission.ProbesDoNotMatter` | gateway/internal/budget/checkAndDecrement.lua:114-121 | However many rejected probes are made before, they change nothing, and the next probe is admitted exactly by the same instant |
| `Admission.ExactAdmissionCount` | gateway/internal/budget/checkAndDecrement.lua:60-145 | With zero refill, n identical requests on fresh buckets admit exactly the minimum of n and floor(limit / request) over all enforced dimensions with a positive request |
| `Admission.CountIsTight` | gateway/internal/budget/checkAndDecrement.lua:60-145 | The admitted number is the largest that fits, and each bucket has been charged that many times |
| `Pricing.FamilyDecidesProvider` | gateway/internal/proxy/router.go:22-37 | Models of one family are always routed to the same provider |
| `Pricing.ByPrefix` | gateway/internal/proxy/router.go:22-37 | Names beginning mock-, claude-, and gpt-, o1, o3 or o4 belong to the mock, Anthropic and OpenAI; all others go to the mock and to no family |
| `Pricing.NormalizeExactly` | gateway/internal/provider/tokenizer.go:95-103 | Names are priced by what follows their first slash, or whole |
| `Pricing.CheaperAlternatives` | gateway/internal/provider/pricing.go:92-111 | Lists, without repetition, exactly the other priced models of the family with a strictly lower output price |
| `Policy.IsVerifiedCheaperModel` | gateway/internal/policy/policy.go:162-172 | Accepts exactly the suggestions the pricing table vouches for |
| `Policy.Decide` | gateway/internal/policy/policy.go:105-156 | Serves the best-ranked acceptable suggestion, or rejects with the enforcer's reason and the best-ranked note when there is none. By the suggestions' own fields: what it acts on is confident enough, an allowance is the lesser of the suggested and the remaining tokens, at least the minimum and below the request, and when every suggestion lacks confidence it rejects without a note |
| `Policy.FirstSuggestion` | gateway/internal/policy/policy.go:108-149 | The decision unfolded from the front: what the first suggestion's own type, confidence, model and tokens make of the decision the others lead to |
| `Policy.VerifiedExactly` | gateway/internal/policy/policy.go:162-172 | A switch is vouched for if and only if the suggested name is priced, other than the requested one, of its family, and below its output price |
| `Policy.DecisionIsUnique` | gateway/internal/policy/policy.go:105-156 | That description determines the outcome completely |
| `Policy.SwitchIsSound` | gateway/internal/policy/policy.go:162-172 | An accepted switch keeps the provider and family of the original model and strictly lowers the output price |
| `Policy.ChainDescends` | gateway/internal/provider/pricing.go:106-108 | Along any chain of accepted switches output prices strictly fall and the family never changes |
| `Policy.ChainsNeverRepeat` | gateway/internal/provider/pricing.go:92-111 | No chain of accepted switches returns to a model, under any alias |
| `Policy.ChainsAreBounded` | gateway/internal/provider/pricing.go:92-111 | A chain of accepted switches is no longer than its family has priced models |
| `Retries.AdmittedRetryIsSmaller` | gateway/internal/proxy/handler.go:200-229 | If no bucket balance grew between the two checks, an admitted switch costs strictly less than the rejected request and an admitted allowance is strictly below the original output estimate |
| `Retries.SmallerSomewhere` | gateway/internal/budget/checkAndDecrement.lua:114-121 | A request admitted after a rejected one, with no growth between, is strictly smaller in some dimension |
| `Retries.SwitchCanCostMoreExactly` | gateway/internal/provider/pricing.go:92-111 | A switch the policy vouches for can cost more than the original, on some estimate of at least three input tokens and one output token, if and only if the suggested model has the higher input price |
| `Retries.PolicyAloneMayRaiseCost` | gateway/internal/provider/pricing.go:106-108 | The policy accepts gpt-4.1 for gpt-5 although a call with a long prompt then costs more |
| `Retries.AllowanceCutsExactly` | gateway/internal/policy/policy.go:123-134 | The allowance is that of the best-ranked acceptable suggestion, and it is below the original output estimate if and only if that suggestion or the reported balance is |
| `Retries.OutputCanRiseExactly` | gateway/internal/policy/policy.go:123-134 | Before the policy is asked: some suggestions make it keep, or raise, the original output if and only if the smaller of the reported balance and the request less one reaches, or exceeds, the output estimate and is not below the minimum allowance |
| `Retries.PolicyAloneMayRaiseOutput` | gateway/internal/policy/policy.go:128-133 | The policy grants an allowance four times the original output limit, because it compares it with the whole request |
| `Handlers.Handler.ChatCompletions` | gateway/internal/proxy/handler.go:106-161 | A request leaves exactly the trace of checks, reconciles, finishes and responses its path prescribes, with the policy outcome that Decide determines. Spelled out for calls that are not streamed: granted and completed, they settle the amount asked against tokens in plus tokens out at the reported cost, finish once with the label of the check that granted them, and answer 200; failed, they settle against nothing |
| `Handlers.Handler.HandleBudgetPressure` | gateway/internal/proxy/handler.go:163-234 | Under pressure the policy outcome decides whether a second check is made, for which model and amount, and what follows it |
| `Handlers.Handler.StreamDispatch` | gateway/internal/proxy/stream.go:101-133 | A stream is settled at the usage of its last terminal chunk, refunded in full if it failed before the first chunk, and not settled at all without a flusher |
| `Handlers.Handler.HandleProviderError` | gateway/internal/proxy/handler.go:337-355 | A failed provider call is refunded in full, finished once as an upstream error, and answered with the mapped status |
| `Handlers.ChunkWriter.Write` | gateway/internal/proxy/stream.go:56-61 | Any chunk marks the headers written; only a terminal chunk sets the usage |
| `Handlers.ReservationsMatch` | gateway/internal/proxy/handler.go:126-355 | Whatever the backend, advisor, policy, provider and transport answer: at most one reservation the gateway is told of, settled by exactly one later reconcile with the same buckets and amount, and exactly one finish for each decided request, the stream without flusher being the only exception |
| `Settlements.EveryChargeAccounted` | gateway/internal/proxy/handler.go:145-229 | With both checks answered as the enforcer answers, over any stores and links: a request charges its buckets at most once, and the charge is settled by a reconcile unless its reply was lost or it was made for a stream without flusher |
| `Settlements.SettledExactly` | gateway/internal/proxy/handler.go:145-229 | Reconciles equal charges if and only if no admitted check lost its reply and no charge was made for a stream without flusher |
| `Settlements.LostReplyEndings` | gateway/internal/proxy/handler.go:145-150 | A reply lost on the first check ends in a 503 and no finish; one lost on the second ends in the 429 of a rejection, finished as one |
| `Settlements.LostReplyLeaks` | gateway/internal/proxy/handler.go:145-150 | A call for 10 of 100 tokens whose reply is lost leaves 90, a 503 and no reconcile |
| `Settlements.LocalAsksForHundred` | gateway/internal/proxy/handler.go:137-143 | Such a call exists: nine tokens in and a hundred out, of a model without a price |
| `Settlements.LostRetryLeaks` | gateway/internal/proxy/handler.go:218-229 | A call for 109 of 100 tokens, granted 64 of output, whose second reply is lost leaves 27, a finished rejection and no reconcile |
| `Handlers.StreamIsFreeExactly` | gateway/internal/proxy/stream.go:115-128 | A settled stream is charged the usage of its last terminal chunk at list price; it is free if and only if no terminal chunk came or the last one reports no usage |
| `Tokenizer.EstimateTokens` | gateway/internal/provider/tokenizer.go:34-76 | The nested run loops compute the run-by-run cost of the text |
| `Tokenizer.RunsExactly` | gateway/internal/provider/tokenizer.go:43-73 | A run of spaces is free, one of n letters and digits costs n / 4 and at least one, one of n symbols (n + 1) / 2 |
| `Tokenizer.RunsAddUp` | gateway/internal/provider/tokenizer.go:34-76 | And where two parts of a text meet between runs, the text costs what the parts cost |
| `Tokenizer.EstimateMessagesTokens` | gateway/internal/provider/tokenizer.go:83-93 | The message loop computes the cost of system text, messages and framing |
| `Tokenizer.SeamBound` | gateway/internal/provider/tokenizer.go:34-76 | Splitting a text anywhere moves its estimate by at most one, and neither part is dearer than the whole |
| `Tokenizer.EstimateBetween` | gateway/internal/provider/tokenizer.go:51-72 | The estimate lies between a seventh of the non-space runes and the number of runes |
| `Tokenizer.SplittingCosts` | gateway/internal/provider/tokenizer.go:83-93 | Splitting one message of a request in two, anywhere, costs at least three tokens more |
| `Spend.SpendWriter.Enqueue` | gateway/internal/proxy/spend_writer.go:59-69 | Never blocks: appends the stamped event if the channel has room, else drops that event and counts it |
| `Spend.SpendWriter.Receive` | gateway/internal/proxy/spend_writer.go:96-100 | Moves the oldest event to the batch and keeps the order of everything; the batch is flushed exactly when it has reached its size, as one statement that binds it |
| `Spend.SpendWriter.DrainRemaining` | gateway/internal/proxy/spend_writer.go:107-116 | Empties the channel into the batch, in order, however many offers of others come in while it does |
| `Spend.SpendWriter.Cancel` | gateway/internal/proxy/spend_writer.go:92-95 | Hands over, once and in order, everything accepted up to the drain's last look at the channel; only later offers can stay unwritten |
| `Spend.SpendWriter.Run` | gateway/internal/proxy/spend_writer.go:75-105 | Over every schedule of offers, receives and ticks, offers during and after the drain included: handed over is what was accepted before its last look, in order, the rest is still in the channel, accepted + dropped = offered, and without later offers both queues end empty |
| `Spend.EveryOfferIsAccounted` | gateway/internal/proxy/spend_writer.go:63-68 | Accepted plus dropped is offered, and the accepted events are the offers in order with some left out |
| `Spend.WriteBatch` | gateway/internal/proxy/spend_writer.go:118-138 | Placeholder j of row i is 11i + j + 1 and names column j of event i |
| `Spend.ColumnsByName` | gateway/internal/proxy/spend_writer.go:130-137 | Arguments 11i to 11i + 10 are the fields of event i in the order of the column list, a blank agent or task as NULL |
| `Spend.NumberingIsExact` | gateway/internal/proxy/spend_writer.go:122-128 | For any batch the placeholders read 1 to 11n, once each and in order |
| `Auth.LookupAndVerify` | gateway/internal/auth/auth.go:126-161 | Over the table itself: the first row with the key's twelve-character prefix that is not revoked and verifies the key decides, by its tenant, id and scopes or the error that these do not parse; without one the key is not found; a short key and an unreachable database are errors of their own |
| `Auth.FirstMatchOfTable` | gateway/internal/auth/auth.go:132-160 | Filtering by prefix and revocation first and verifying then finds exactly the first row of the table that satisfies all three |
| `Auth.CandidatesAreActive` | gateway/internal/auth/auth.go:132-136 | Only unrevoked rows with the key's prefix are considered |
| `Auth.ParseScopes` | gateway/internal/auth/auth.go:167-177 | The scopes are the listed ones, without duplicates, or an error |
| `Auth.Store.Authenticate` | gateway/internal/auth/auth.go:102-122 | Answers from an unexpired entry without asking, and else with exactly the result of the lookup, errors included, remembering exactly the successful ones, each until the TTL after it returned |
| `Auth.Store.EvictExpired` | gateway/internal/auth/auth.go:195-204 | The deletion loop removes exactly the entries past their expiry and leaves the others as they are |
| `Auth.SuccessIsServed` | gateway/internal/auth/auth.go:105-119 | The cache is used: after a successful lookup, every call for the same key before the TTL has passed is answered from it and asks nothing, whatever calls and evictions come in between |
| `Auth.SuccessIsBacked` | gateway/internal/auth/auth.go:102-122 | In every interleaving of calls, lookups and evictions each success rests on a lookup of that very key which found an active row verifying it, the call's own or one no older than the TTL plus that lookup's duration |
| `Auth.RevocationTakesEffect` | gateway/internal/auth/auth.go:179-181 | A key revoked at an instant is served by no call at or after it plus the TTL plus the duration of the lookup that backs the call |
| `Auth.EvictionIsInvisible` | gateway/internal/auth/auth.go:195-204 | Leaving out all evictions changes neither what any call returned nor which calls reached the database |
| `Drift.ReconcileWindow` | reconciliation/job.py:85-117 | The loop reports every tenant in order, detects drift exactly when some tenant exceeds the threshold, and totals exactly the exceeding ones |
| `Drift.DriftExactly` | reconciliation/job.py:69-82 | One tenant's drift, without dividing: observed less reported; its share of a positive report, or all or nothing of a zero one, against the threshold |
| `Drift.TotalExactly` | reconciliation/job.py:107-109 | The total is additive over the tenants, and of one tenant it is the absolute drift if that exceeds, else zero |
| `Drift.DetectedIffPositive` | reconciliation/job.py:98-109 | With non-negative reports and threshold, drift is detected if and only if the total drift is positive |
| `Drift.TotalIgnoresOrder` | reconciliation/job.py:102-109 | The total does not depend on the order of the tenants |
| `Drift.DetectionIgnoresOrder` | reconciliation/job.py:102-109 | Nor does the verdict |
| `Drift.LargestSpender` | reconciliation/job.py:166 | Picks the first of the largest spenders |
| `Drift.MockFlags` | reconciliation/usage_providers/mock_usage.py:34-55 | For any threshold from 3/97 up to but not including 8/92 the mock makes only the anomalous account exceed it, and only if that account spent anything |
| `Drift.MockFlagsExactlyTheLargest` | reconciliation/usage_providers/mock_usage.py:43-55 | At the default threshold, for any non-negative spends with a positive maximum and any hash fractions, exactly the chosen largest spender is flagged |
| `Drift.MockTotal` | reconciliation/job.py:107-109 | And the total drift is that tenant's drift |
| `Drift.MockAmount` | reconciliation/usage_providers/mock_usage.py:43-55 | An account's drift is its spend times its perturbation |

## Left out

- HTTP routing, JSON and SSE wire formats, the provider clients, SQL, migrations, metrics and log output: a
  provider call is an arbitrary result and a database answer an arbitrary one.
- Floating point: balances, costs and fractions are exact reals, so rounding and the precision of `tostring`
  on stored balances and timestamps are not modelled; nor is 64-bit overflow of token counts.
- SpendBounds.SpendBound: limits are fixed for the whole run. Configured tenants and agents contain no colon
  and no agent or task is `-`; otherwise keys may collide, as `Collisions.RefundsExactly` says. Expiry may
  strike any bucket at any moment, so the bound does not use when a key's lifetime actually ends.
- EagerBuckets.LazyRefinesEager: assumes refill rates are not negative, as do the results on holds, expiry
  and admission; the spend and burst bounds do not.
- Expiry.ExpiryNeverMatters: assumes increments reach only keys that have not expired, since an expired one
  would come back with a missing timestamp and the bare increment as its balance.
- Enforcement.Enforcer.CheckAndDecrement: the NOSCRIPT fallback counts as the same call, and a backend error
  is one value without its message.
- Config.ConfigCache.Refresh: a failed query is a failed scan; the locks and the refresh loop's timer are left out.
- Handlers.Handler.ChatCompletions: body parsing errors, the advisor's request and its recent-call history,
  response bodies and the advisory header are left out; a response is its status.
- Spend.SpendWriter.Run: the direct hand-off of a channel without capacity, and what the database does with a
  batch, are left out.
- Auth.Store.Authenticate: the gap between reading the cache and reading the clock is left out, as are row
  scan errors; hash verification is an arbitrary predicate and the cache-key hash is injective.
- Tokenizer.EstimateTokens: the Unicode classes are an arbitrary three-way classification of characters.
- Drift.ReconcileWindow: the lookup returns a number; the choice of a real provider per tenant is left out,
  and the hash behind the mock enters only as a fraction per account.
- Drift.LargestSpender: `None` for no observed spend at all is left out, since the lookup is then never called.
- Limit changes between refreshes, `simulatedOutputTokens`, the control plane and the dashboards.
