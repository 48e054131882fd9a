# Reliability, error budgets and layered configuration, verified

A Dafny 4.11 model of the parts of the Cloudflare DNS operator that carry state or arithmetic:
the circuit breaker, the token bucket limiter, retry with backoff and their composition
(`internal/reliability`), the error budget bookkeeping (`internal/slo`) and the merge of
configuration layers (`internal/config`).

`dafny verify dfyconfig.toml` checks everything.

| file | contents |
|---|---|
| `Common.dfy` | errors, optional values, the truncating conversion of a float to an integer |
| `CircuitBreaker.dfy` | the breaker object; the function each locked operation computes |
| `BreakerProtocol.dfy` | any number of callers interleaving those operations; theorems over all runs |
| `BreakerExact.dfy` | what each operation does in every reachable state, told from the log |
| `TokenBucket.dfy` | the limiter object, `Wait` included |
| `LimiterGuarantee.dfy` | theorems over all sequences of limiter calls |
| `Retry.dfy`, `Backoff.dfy` | the retry loop over an arbitrary scripted function; the arithmetic of its delays |
| `RetryErrors.dfy` | substring search and the rules for retryable errors |
| `Composition.dfy` | any number of concurrent `ExecuteWithReliability` calls over one limiter and one breaker |
| `ErrorBudget.dfy` | the three budget formulas, the manager's state, the policies |
| `BudgetHistory.dfy` | the bounded history, burn rate, statistics and prediction |
| `ConfigLayers.dfy` | `Merge`, the priority load and the record of sources |

How to read it. An object of the source is a class with the same fields; each method's
postcondition equates its whole new state with a function of the old one. Those functions are
then run: a protocol state adds the clock, the requests in flight and a log that nothing reads,
an event is one locked operation, and a theorem speaks about every legal sequence of events from
construction. Instants and durations are integer nanoseconds, float64 amounts are reals, uint32
counters wrap around at 2^32 explicitly.

What the proofs found out about the code:

- The bound of the default trip condition can be broken with n requests admitted in one closed
  period exactly if n is at least 2^32, the interval is not negative and some error counts as a
  failure (`BreakerProtocol.WrapAroundBreaksTripBound`).
- A closed breaker can satisfy its own trip condition, because only a failure evaluates it;
  `BreakerProtocol.ClosedYetReady` says exactly at which three pairs of counts.
- `SetRate` does not settle elapsed time, so a `Stats` or `Reserve` call just before it can change
  later answers (`LimiterGuarantee.LookIsSeen`). `LimiterGuarantee.LooksAreTransparent` is the
  exact condition for looks to stay invisible in a run without negative rates;
  `LimiterGuarantee.RefillSplits` covers a negative rate.
- `Reserve` rounds the waiting time down, so a `Wait` may need more than two attempts;
  `LimiterGuarantee.WaitTerminates` says exactly when it returns.
- For rates between 0 and 1 per second the default burst is 0 and no request ever passes
  (`LimiterGuarantee.DefaultBurstBelowOne`, `LimiterGuarantee.NeverGrantedExactly`).
- The comment on `contains` promises a case-insensitive search (retry.go:391). The code searches
  that way exactly for markers without letters (`RetryErrors.SearchIsCaseSensitive`); "Timeout"
  is not recognised as a timeout (`RetryErrors.TimeoutIsMissed`).
- "circuit breaker is open" and "rate limit exceeded" are retryable under the Cloudflare rules
  (`Composition.RefusalsAreRetried`): a refused call sleeps and tries again.
- No configuration source can switch off leader election, webhooks or metrics, and the loaded
  configuration's own `ConfigSources` always names the defaults (`ConfigLayers.NeverOverridden`).
- A source that sets a zero value is recorded as the origin of a value it did not provide
  (`ConfigLayers.ZeroIsMisattributed`); `ConfigLayers.ProvenanceIsRight` is the exact condition
  for the recorded origin to be right. Retry and lease renewal settings of a file are used but
  never attributed to it (`ConfigLayers.FileIsHonest`), and an origin recorded for leader
  election, webhooks or metrics is never the true one (`ConfigLayers.RecordedInVain`).

## Model

| member | source | states |
|---|---|---|
| CircuitBreaking.CircuitBreaker.constructor | internal/reliability/circuit_breaker.go:149-173 | a new breaker is closed, in generation 0, with zero counts and a deadline one interval ahead, under the defaulted configuration |
| CircuitBreaking.WithDefaults | internal/reliability/circuit_breaker.go:151-166 | zero values become one request, 60 s and 60 s, missing callbacks the default ones; given values and callbacks are kept |
| CircuitBreaking.CircuitBreaker.ToNewGeneration | internal/reliability/circuit_breaker.go:377-395 | next generation of the same state: counts cleared, deadline by state |
| CircuitBreaking.CircuitBreaker.SetState | internal/reliability/circuit_breaker.go:347-374 | no effect on the same state; otherwise a new generation and one OnStateChange call with both states |
| CircuitBreaking.CircuitBreaker.CurrentState | internal/reliability/circuit_breaker.go:332-344 | an expired closed period is renewed, an expired open period becomes half-open, nothing else changes |
| CircuitBreaking.CircuitBreaker.BeforeRequest | internal/reliability/circuit_breaker.go:265-284 | admits exactly if the ticked breaker is closed, or half-open with requests to spare, and then counts the request |
| CircuitBreaking.CircuitBreaker.AfterRequest | internal/reliability/circuit_breaker.go:287-304 | an outcome of another generation only ticks; otherwise it is counted and may move the state |
| CircuitBreaking.CircuitBreaker.OnSuccess | internal/reliability/circuit_breaker.go:307-314 | counts the success and closes a half-open breaker at MaxRequests consecutive successes |
| CircuitBreaking.CircuitBreaker.OnFailure | internal/reliability/circuit_breaker.go:317-329 | counts the failure; opens from half-open, and from closed if ReadyToTrip |
| CircuitBreaking.CircuitBreaker.ObserveState | internal/reliability/circuit_breaker.go:398-404 | State() ticks like every other operation and returns the resulting state |
| CircuitBreaking.CircuitBreaker.Reset | internal/reliability/circuit_breaker.go:420-426 | a new generation, then closed (one more generation unless it was closed) |
| CircuitBreaking.CircuitBreaker.Execute | internal/reliability/circuit_breaker.go:243-262 | rejects exactly when there is no room; otherwise reports the result, a panic as an error, for the generation that admitted the call |
| CircuitBreaking.DefaultTripMeaning | internal/reliability/circuit_breaker.go:113-118 | FailureRate() >= 0.6 on at least 5 requests means: at least 5 requests and 5 * failures >= 3 * requests |
| BreakerProtocol.StepIsOperation | internal/reliability/circuit_breaker.go:265-304 | every step of the protocol changes the breaker exactly as the corresponding method does |
| BreakerProtocol.Conservation | internal/reliability/circuit_breaker.go:243-304 | in every interleaving and generation: admitted = counted + ignored + in flight; none in flight from the future, none of the present generation ignored |
| BreakerProtocol.CountersAreHistory | internal/reliability/circuit_breaker.go:77-102 | the five counters are the fold (modulo 2^32) of the outcomes logged for the present generation and its requests in flight |
| BreakerProtocol.CountersBelowWrap | internal/reliability/circuit_breaker.go:68-102 | below 2^32: Requests = TotalSuccesses + TotalFailures + in flight, and the consecutive counters are the lengths of the trailing runs |
| BreakerProtocol.HalfOpenSafety | internal/reliability/circuit_breaker.go:275-283 | half-open: no failure, fewer successes than MaxRequests, at most MaxRequests admitted, and a free slot or a request still to report |
| BreakerProtocol.HalfOpenProgress | internal/reliability/circuit_breaker.go:307-329 | each current report leaves half-open or lowers MaxRequests - TotalSuccesses by one |
| BreakerProtocol.HalfOpenQuota | internal/reliability/circuit_breaker.go:275-283 | over a whole run every half-open generation admits and counts at most MaxRequests |
| BreakerProtocol.TripBound | internal/reliability/circuit_breaker.go:434-436 | with the default trip condition every reachable closed state has at most 4 failures or a rate below 3/5, below 2^32 admissions |
| BreakerProtocol.WrapAroundBreaksTripBound | internal/reliability/circuit_breaker.go:86-88 | some run ends closed beyond that bound with n requests admitted in its generation if and only if n >= 2^32, the interval is not negative and some error is a failure |
| BreakerProtocol.ClosedYetReady | internal/reliability/circuit_breaker.go:321-325 | which counts a run below 2^32 requests can show while closed and ready to trip: exactly three pairs, each reached if a failure can be counted at all |
| BreakerProtocol.ReadyWhileClosed | internal/reliability/circuit_breaker.go:434-436 | in every such run a closed breaker is ready to trip exactly at these pairs |
| BreakerProtocol.CoolDown | internal/reliability/circuit_breaker.go:265-284 | after opening at t, no admission up to t + Timeout in any run, unless Reset intervenes |
| BreakerProtocol.OpenIsIdle | internal/reliability/circuit_breaker.go:377-395 | open: all counts zero, nothing in flight for the present generation |
| BreakerProtocol.CallbackPath | internal/reliability/circuit_breaker.go:346-374 | the OnStateChange calls form a path from closed to the present state using allowed transitions only; open to closed only inside Reset |
| BreakerProtocol.LateReportsAreLooks | internal/reliability/circuit_breaker.go:294-297 | replacing every late report of a run by State() gives a run with the same breaker, callbacks included |
| BreakerExact.RunPunctual | internal/reliability/circuit_breaker.go:377-395 | in every run the deadline is one interval or the timeout after the present generation began, none while half-open, and the last transition led to the present state |
| BreakerExact.LookExactly | internal/reliability/circuit_breaker.go:332-344 | time alone renews a closed generation after more than the interval, makes an open breaker half-open after more than the timeout, and does nothing else |
| BreakerExact.AdmissionExactly | internal/reliability/circuit_breaker.go:265-284 | in every reachable state the next request is admitted: if closed, always; if half-open, exactly below MaxRequests admissions; if open, exactly after more than the timeout since it opened, and then it becomes half-open |
| BreakerExact.ClosedReport | internal/reliability/circuit_breaker.go:307-329 | a current report to a closed breaker opens it exactly if it is a failure and ReadyToTrip holds for the counters of the history with it |
| BreakerExact.ResetExactly | internal/reliability/circuit_breaker.go:420-426 | Reset leaves a closed breaker in a generation with nothing counted, admitted or in flight, and one callback exactly if it was not closed |
| TokenBucket.Full | internal/reliability/rate_limiter.go:125-166 | a new bucket is full; its rate is the given positive one or 10, its cap the given positive burst or the whole part of the rate |
| TokenBucket.TokenBucketLimiter.constructor | internal/reliability/rate_limiter.go:123-166 | defaults for rate, burst and strategy |
| TokenBucket.TokenBucketLimiter.RefillTokens | internal/reliability/rate_limiter.go:371-379 | elapsed time times rate is added, up to the cap |
| TokenBucket.TokenBucketLimiter.Allow | internal/reliability/rate_limiter.go:220-237 | true exactly if the refilled level is at least 1; then one token is taken, else a rejection counted |
| TokenBucket.TokenBucketLimiter.Reserve | internal/reliability/rate_limiter.go:294-309 | takes no token; returns the rounded waiting time for the settled bucket |
| TokenBucket.TokenBucketLimiter.SetRate | internal/reliability/rate_limiter.go:312-336 | new rate and cap, copied into the configuration; level cut to the cap, elapsed time not settled |
| TokenBucket.TokenBucketLimiter.Stats | internal/reliability/rate_limiter.go:339-354 | the bucket after settling elapsed time |
| TokenBucket.TokenBucketLimiter.Reset | internal/reliability/rate_limiter.go:357-368 | full bucket at the present time, statistics cleared |
| TokenBucket.TokenBucketLimiter.Wait | internal/reliability/rate_limiter.go:240-291 | the loop of Allow and Reserve under each strategy, timer and context, with the delays reported to OnRateLimited |
| LimiterGuarantee.LevelIsLeastRoom | internal/reliability/rate_limiter.go:371-379 | the lazily refilled level equals the least room over all past windows |
| LimiterGuarantee.ExactEnvelope | internal/reliability/rate_limiter.go:220-237 | Allow admits if and only if every past window of the run leaves room for one more within burst + rate * time |
| LimiterGuarantee.ExactEnvelopeFromConstruction | internal/reliability/rate_limiter.go:220-237 | for a new limiter the windows alone decide |
| LimiterGuarantee.ExactEnvelopeSinceReset | internal/reliability/rate_limiter.go:357-368 | after Reset only the windows since then decide, at the rate and cap in force, and the statistics start over |
| LimiterGuarantee.GrantsWithinWindow | internal/reliability/rate_limiter.go:312-322 | across any SetRate calls, grants in a Reset-free window stay within largest burst + largest rate * length |
| LimiterGuarantee.RefillSplits | internal/reliability/rate_limiter.go:371-379 | two refills equal one exactly if the second adds nothing negative or the first did not reach the cap |
| LimiterGuarantee.SetRateSeparates | internal/reliability/rate_limiter.go:312-322 | after a change to a non-negative rate two buckets agree for ever exactly if they agree, up to the new cap, at the instant of the later one |
| LimiterGuarantee.LooksAreTransparent | internal/reliability/rate_limiter.go:294-354 | for non-negative rates, removing all Stats and Reserve calls stays invisible all along a run if and only if each SetRate finds both runs agreeing; so wherever no SetRate comes directly after a look; and then no Allow result changes |
| LimiterGuarantee.LookIsSeen | internal/reliability/rate_limiter.go:312-336 | a run in which a look just before SetRate turns a granted request into a refused one |
| LimiterGuarantee.LevelBounded | internal/reliability/rate_limiter.go:371-379 | 0 <= tokens <= maxTokens in every run with non-negative rates and bursts |
| LimiterGuarantee.StatisticsCount | internal/reliability/rate_limiter.go:226-236 | without Reset, allowed counts the grants and allowed + rejected the requests |
| LimiterGuarantee.DelayIsRoundedDown | internal/reliability/rate_limiter.go:300-308 | Reserve's delay is 0 with a token, else the exact waiting time rounded down to whole nanoseconds |
| LimiterGuarantee.TokenArrives | internal/reliability/rate_limiter.go:371-379 | a token is there exactly from the exact waiting time on, if the cap is at least 1 |
| LimiterGuarantee.DelaySuffices | internal/reliability/rate_limiter.go:294-309 | one nanosecond after the delay Allow succeeds, before the delay it fails |
| LimiterGuarantee.WaitTakesOne | internal/reliability/rate_limiter.go:240-291 | a Wait is a run of Allow and Reserve calls at the given times with exactly one grant if it returns nil and none otherwise |
| LimiterGuarantee.WaitLevel | internal/reliability/rate_limiter.go:240-291 | for a clock that does not run backwards: the level after a Wait is what elapsed time alone gives, less one token exactly if it returned nil |
| LimiterGuarantee.WaitErrors | internal/reliability/rate_limiter.go:255-284 | which errors each strategy can return |
| LimiterGuarantee.WaitExactly | internal/reliability/rate_limiter.go:240-291 | for every strategy and cancellation: the round in which a lone Wait ends, how it ends, and the delays OnRateLimited sees, from the levels that elapsed time gives |
| LimiterGuarantee.WaitErrorsExactly | internal/reliability/rate_limiter.go:258-284 | a context error exactly if a blocking or adaptive Wait meets a done context in a round that misses the token before any round brings it; ErrRateLimited exactly if a rejecting Wait misses |
| LimiterGuarantee.WaitGrantedExactly | internal/reliability/rate_limiter.go:247-284 | for every strategy and cancellation, a lone Wait returns nil if and only if in some round elapsed time has brought one token and no round before ends it |
| LimiterGuarantee.WaitTerminates | internal/reliability/rate_limiter.go:247-284 | a live Wait that does not reject returns nil if and only if an attempt comes when the token is there, that is at or after the exact waiting time |
| LimiterGuarantee.SecondAttemptGranted | internal/reliability/rate_limiter.go:247-284 | one nanosecond past the computed delay the second attempt is enough |
| LimiterGuarantee.NeverGrantedExactly | internal/reliability/rate_limiter.go:226-231 | no run of Allow, Stats and Reserve calls ever grants a request if and only if the cap is below 1 |
| LimiterGuarantee.NoBurstNoGrant | internal/reliability/rate_limiter.go:240-291 | with a cap below 1 no Wait is ever granted |
| LimiterGuarantee.DefaultBurstBelowOne | internal/reliability/rate_limiter.go:129-131 | the default burst is below 1 exactly for rates between 0 and 1 |
| Retrying.WithDefaults | internal/reliability/retry.go:62-77 | zero settings and a missing predicate get their defaults, all others are kept; defaulted settings give a growing backoff when the given ones do |
| Retrying.Retryer.CalculateDelay | internal/reliability/retry.go:239-265 | the capped, jittered and truncated exponential delay |
| Backoff.DelayExactly | internal/reliability/retry.go:239-265 | the delay grows from one attempt to the next by the multiplier up to the cap; with jitter it is that times 0.75 + u/2 under the cap |
| Retrying.Retryer.Retry | internal/reliability/retry.go:141-231 | number of calls, result, OnRetry calls and total sleep for every scripted function, cancellation and jitter; nil exactly if the last call returned nil |
| Retrying.CallsExactly | internal/reliability/retry.go:145-231 | why a Retry makes this many calls, and which of the four results it returns |
| Backoff.UnjitteredDelaysGrow | internal/reliability/retry.go:239-246 | without jitter delays never shrink and stay at the cap once there |
| Backoff.JitteredDelayRange | internal/reliability/retry.go:249-262 | with jitter a delay lies between 0.75 and min(1.25, cap) of its base; the negative branch is unreachable |
| Backoff.GeometricClosedForm | internal/reliability/retry.go:241 | closed form of the sum of the uncapped delays |
| Backoff.TotalSleep | internal/reliability/retry.go:145-217 | one Retry sleeps at most MaxRetries * MaxDelay and at most 1.25 times the geometric sum |
| Backoff.SleepBetween | internal/reliability/retry.go:145-217 | the total sleep from both sides: the sum of the delays, or three to five quarters of it, less at most a nanosecond a sleep |
| RetryErrors.IndexInString | internal/reliability/retry.go:400-407 | the first position of the substring, or -1 if there is none |
| RetryErrors.Contains | internal/reliability/retry.go:392-397 | true exactly if the substring occurs somewhere |
| RetryErrors.CheckCloudflare | internal/reliability/retry.go:345-389 | retryable exactly if no context error and a transient marker occurs or no permanent one does |
| RetryErrors.GivenUpExactly | internal/reliability/retry.go:345-389 | exactly which errors are not retried, marker by marker |
| RetryErrors.SearchIsCaseSensitive | internal/reliability/retry.go:391-397 | the search ignores case, as its comment promises, if and only if the marker has no letter |
| RetryErrors.TimeoutIsMissed | internal/reliability/retry.go:391-397 | a message in which the search misses a marker in another case |
| Composition.RunInvariant | internal/reliability/reliability_integration_example.go:53-64 | in every concurrent run limiter and breaker are runs of their own protocols, every admission was paid with a token, and no call exceeds its attempts |
| Composition.AdmissionsWithinWindow | internal/reliability/reliability_integration_example.go:53-64 | between any two moments of a run: admissions <= tokens held unused at the first + burst + rate * time |
| Composition.AdmissionsWithinRate | internal/reliability/reliability_integration_example.go:53-64 | breaker admissions <= limiter grants <= burst + rate * time since construction |
| Composition.AdmissionsPerCall | internal/reliability/reliability_integration_example.go:55-63 | each call is admitted at most MaxRetries + 1 times, and the calls together exactly as often as the breaker admits |
| Composition.BreakerUnderCalls | internal/reliability/reliability_integration_example.go:62 | under all calls the half-open quota holds, nothing is admitted in a cool-down, and the breaker waits only for requests some call is running |
| Composition.CallsAreRetries | internal/reliability/reliability_integration_example.go:53-64 | in every concurrent run each finished call made the attempts, and returned the result, that Retry makes and returns for the errors of its attempts |
| Composition.AllowExactly | internal/reliability/rate_limiter.go:249-251 | a call goes on to the breaker exactly if the limiter counts a grant |
| Composition.ReserveExactly | internal/reliability/rate_limiter.go:253-284 | what a refused call does next under each strategy |
| Composition.BeforeExactly | internal/reliability/circuit_breaker.go:244-247 | the protected function runs exactly if the breaker logs an admission, for that generation; else the attempt returns ErrCircuitBreakerOpen |
| Composition.ReportIsDecided | internal/reliability/retry.go:145-217 | an error of the protected function is retried exactly if it is retryable, a retry is left and the context is live; a panic ends the call |
| Composition.DecideExactly | internal/reliability/retry.go:164-217 | the same for every error an attempt returns, up to the next attempt once the delay has passed |
| Composition.RefusalsAreRetried | internal/reliability/retry.go:345-389 | a call refused by the limiter or an open breaker sleeps exactly while it has a retry left and its context is live |
| Composition.AttemptsAreSpaced | internal/reliability/retry.go:145-217 | in every concurrent run a call is admitted at most once in each attempt, and two admissions are at least the backoff delays drawn between them apart |
| Composition.CloudflareLoad | internal/reliability/reliability_integration_example.go:26-50 | the shipped configuration sends at most 10 + 4 per second requests, at most four for one call |
| ErrorBudget.BudgetsAgree | internal/slo/error_budget.go:40-74 | the manager's, the calculator's and the clamped state's remaining budget are the same number for all inputs |
| ErrorBudget.BudgetsComplement | internal/slo/error_budget.go:61-71 | remaining and consumed percentages add up to 1 |
| ErrorBudget.RemainingExactly | internal/slo/slo.go:227-240 | what remains, as a part of the total, is the total less the shortfall |
| ErrorBudget.RemainingMonotone | internal/slo/calculator.go:217-250 | a better actual value never leaves less budget |
| ErrorBudget.BudgetExtremes | internal/slo/calculator.go:219-247 | exactly when all of the budget remains and exactly when none does |
| ErrorBudget.Manager.CheckErrorBudgetPolicies | internal/slo/slo.go:260-276 | the actions of the reached policies in configuration order |
| ErrorBudget.Manager.UpdateSingleErrorBudget | internal/slo/slo.go:216-257 | only the state under the key changes, to the next state for this sample |
| ErrorBudget.Manager.GetRecommendedAction | internal/slo/error_budget.go:234-250 | the recommendation computed in one pass |
| ErrorBudget.RecommendationIsHighest | internal/slo/error_budget.go:239-249 | it is the action of the first policy with the highest reached threshold; the default if none is reached or that action is empty |
| ErrorBudget.RecommendedIsTriggered | internal/slo/slo.go:263-265 | the recommended action is the default or one of the triggered actions |
| ErrorBudget.TriggeredExactly | internal/slo/slo.go:263-265 | an action is triggered exactly if one of its thresholds is reached |
| ErrorBudget.TriggeredInOrder | internal/slo/slo.go:260-276 | each reached policy contributes its action once, in configuration order |
| ErrorBudget.BurnRateConvex | internal/slo/slo.go:242-247 | the moving average stays within the values it was fed, despite starting over at zero |
| ErrorBudget.BurnRateExactly | internal/slo/slo.go:242-247 | leading zeros leave no trace; then the first value has weight 0.9^(n-1) and each later one 0.1 faded by 0.9 for each value after it |
| ErrorBudget.BurnRateOfState | internal/slo/slo.go:227-257 | after any run of updates: burn rate within the consumptions seen and not negative; remaining budget, time and triggered actions those of the last update; the name unchanged |
| ErrorBudget.BudgetsAreIndependent | internal/slo/slo.go:217-225 | however updates interleave, a key's state is what its own updates produce, under the name of the first of them |
| ErrorBudget.ExhaustionEstimate | internal/slo/slo.go:250-253 | a whole number of hours, less than one below the exact value; the old value once nothing remains |
| BudgetHistory.ErrorBudgetManager.RecordSnapshot | internal/slo/error_budget.go:90-108 | appends under the snapshot's key, trims it to 1000, leaves other keys alone |
| BudgetHistory.HistoryIsSuffix | internal/slo/error_budget.go:90-108 | after any recordings each key holds exactly the last 1000 snapshots recorded under it |
| BudgetHistory.HistoryOfPair | internal/slo/error_budget.go:90-108 | without underscores in windows, that is the last 1000 snapshots of the SLO and window |
| BudgetHistory.KeysCollide | internal/slo/error_budget.go:94 | two windows can make different SLOs share a key exactly if one ends in an underscore and the other |
| BudgetHistory.KeyInjective | internal/slo/slo.go:217 | without underscores in windows the key determines SLO and window |
| BudgetHistory.ErrorBudgetManager.CalculateBurnRate | internal/slo/error_budget.go:111-161 | consumption between the last snapshot before the period (or the first) and the newest, per hour, or which error |
| BudgetHistory.BurnRateDefined | internal/slo/error_budget.go:117-147 | for snapshots ordered in time a rate exists exactly if there are two, the newest lies in the period and not all are from one instant; it is not negative |
| BudgetHistory.BurnRateExactly | internal/slo/error_budget.go:126-158 | the rate is the absolute change of consumption per hour since the last snapshot not after the start of the period, or since the first of all |
| BudgetHistory.ErrorBudgetManager.PredictExhaustion | internal/slo/error_budget.go:164-196 | a prediction exactly for a positive burn rate of the last hour, from the newest snapshot at the second reading, whatever others record in between |
| BudgetHistory.PredictionWithinOneHour | internal/slo/error_budget.go:186-195 | the time of the newest snapshot if nothing remains; else a whole number of hours ahead and early by less than one |
| BudgetHistory.ErrorBudgetManager.CalculateStatistics | internal/slo/error_budget.go:326-403 | one pass yields the extremes, means, number of maximal violation runs and longest run as defined declaratively |
| BudgetHistory.RunsHaveStarts | internal/slo/error_budget.go:369-383 | counting run starts counts maximal runs |
| BudgetHistory.AverageBetween | internal/slo/error_budget.go:386-389 | MinRemaining <= AvgRemaining <= MaxRemaining |
| BudgetHistory.AverageMeaning | internal/slo/error_budget.go:386-393 | an average times its number is the sum; 0 of nothing |
| BudgetHistory.ExtremesAttained | internal/slo/error_budget.go:331-353 | for budgets in [0, 1] both extremes are values of snapshots |
| ConfigLayers.Merge | internal/config/types.go:213-305 | the later configuration wins wherever it has a value; nil changes nothing |
| ConfigLayers.MergeAssociative | internal/config/types.go:213-305 | merging is associative and the empty configuration is a right identity |
| ConfigLayers.MergedSwitches | internal/config/types.go:253-277 | in a merge a switch is on exactly if it is in one of the two; a custom flag is the later one; leader election is the earlier one's |
| ConfigLayers.MarkFieldsFromSource | internal/config/loader.go:585-620 | the ten recorded keys are marked field by field |
| ConfigLayers.MarkExactly | internal/config/loader.go:590-619 | exactly the set fields get the source, all other entries are unchanged |
| ConfigLayers.LoadWithPriority | internal/config/loader.go:428-501 | fails exactly on no source, a failing source or failed validation; otherwise the fold over the loaded layers |
| ConfigLayers.ValueFromHighest | internal/config/loader.go:434-491 | every merged scalar is that of the highest-priority source that sets it |
| ConfigLayers.PriorityOrder | internal/config/loader.go:428-501 | environment before ConfigMap before Secret before file before defaults, for every scalar and every recorded source |
| ConfigLayers.SourceFromHighest | internal/config/loader.go:440-491 | the recorded source of every key is that of the highest-priority source that claims it |
| ConfigLayers.ProvenanceIsRight | internal/config/loader.go:428-501 | for all fourteen recorded scalars: the recorded source is the one whose value is in the result if and only if that source claims the key and no higher one claims it without setting it |
| ConfigLayers.RecordedInVain | internal/config/loader.go:146-231 | for leader election, webhooks and metrics: a source is recorded exactly if one claims the key, and never is it the origin of the value |
| ConfigLayers.LoadsAreLabelled | internal/config/loader.go:434-491 | every load has layers with distinct source labels, as that condition assumes |
| ConfigLayers.FileIsHonest | internal/config/loader.go:451-454 | a parsed file claims exactly those of the ten fields it sets, and none of the other recorded scalars |
| ConfigLayers.ZeroIsMisattributed | internal/config/loader.go:185-190 | a rate limit of "0" in the environment: the default value is in the result and the environment is recorded |
| ConfigLayers.NeverOverridden | internal/config/types.go:253-271 | leader election, webhooks, metrics and ConfigSources are those of the defaults after every load |
| ConfigLayers.FlagsAreOred | internal/config/types.go:254-271 | the other flags are on exactly if some source switches them on |
| ConfigLayers.CustomFlagFromHighest | internal/config/types.go:271-277 | a custom flag is that of the highest-priority source that has it, absent if none has |

## Left out

- Prometheus metrics, logging and tracing: no logic that feeds back.
- Float rounding: float64 amounts are reals. The default trip condition is not affected, since two different quotients of uint32 numbers by 3/5 differ by far more than rounding.
- Overflow of int64 durations, of the uint64 generation and of the uint64 limiter statistics; conversion of infinities and NaN.
- Panicking or re-entrant callbacks (`ReadyToTrip`, `IsSuccessful`, `OnStateChange`, `OnRetry`, `OnRateLimited`). They are functions without side effects, and their calls are listed.
- The read lock of `State()` although it may change the state: treated as one atomic step.
- A clock that runs backwards: protocol steps carry non-decreasing times. The exact envelope does not need this.
- TokenBucket.TokenBucketLimiter.Wait: nobody else uses the limiter during it; concurrent waiters are modelled step by step in `Composition`.
- TokenBucket.TokenBucketLimiter.Reserve: not called with a rate of exactly 0, where the source converts an infinity to a Duration.
- The adaptive strategy's shorter delay: `waiting` is never incremented, so the ratio is 0 and the delay unchanged. The sliding and fixed window limiters fall back to the token bucket.
- The timer inside a limited Wait of `Composition`: a waiting call may try again at any time, which allows every run the timer allows.
- CircuitBreaking.CircuitBreaker.Execute: no other caller between admission and report; the interleaved case is the protocol.
- RetryErrors.SearchIsCaseSensitive: case is that of the letters a to z; other alphabets do not occur in the markers.
- Error wrapping: `errors.Is` for context errors is a flag of the error value.
- ErrorBudget.Manager.UpdateSingleErrorBudget: states are values in a map, so a state handed out by `GetErrorBudgetState` does not change with later updates as the shared pointer does.
- ConfigLayers.Merge: configurations are values, so that a copy shares nothing with its original holds by construction.
- Reading and parsing of files, ConfigMaps, Secrets and environment variables: each source is an arbitrary partial configuration or a failure. `Validate` is an arbitrary predicate.
- `Calculator.Calculate` and the alert checks built on it: placeholders returning constants.
- `CheckAlertThresholds`, `GenerateReport`, convenience constructors and preset configurations other than the Cloudflare one: one-branch facts.
- The controller, health checks, shutdown, ticker loops and `WatchConfig`: I/O.
