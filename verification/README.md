# Verified model of the assistant's reliability machinery

The assistant answers chat messages with an agent graph that may run external tools. Between the
graph and the tools stand a rate limiter, a result cache and a circuit breaker, all kept in Redis;
beside it, sessions are rotated, long conversations compacted and logs redacted. This project models
that machinery and proves what it guarantees over whole runs, and exactly when it does not.

| file | models |
|---|---|
| `CircuitBreaker.dfy` | the breaker's four Redis keys, as functions and as a class issuing single commands |
| `BreakerHistory.dfy` | one tool's breaker over a history of uninterrupted calls |
| `BreakerInterleaving.dfy` | any number of calls in flight, each half of a call atomic |
| `BreakerCommands.dfy` | any number of calls in flight, each Redis command atomic |
| `RateLimiter.dfy`, `RateLimiterHistory.dfy` | the sliding window, one request and whole histories |
| `Text.dfy`, `ToolCache.dfy` | tokens, normalisation, write detection and cache entries |
| `ToolExecutor.dfy`, `ToolPipeline.dfy`, `PipelineBreaker.dfy` | the executor node, and all executions of all runs interleaved at single Redis commands |
| `AgentGraph.dfy`, `AgentRuns.dfy`, `AgentOutcomes.dfy` | the graph's nodes and routing, all its runs, and how the main courses of a run end |
| `Sessions.dfy`, `SessionHistory.dfy` | refresh-token rotation |
| `Summarization.dfy`, `ChatService.dfy` | compaction, its trigger, and the record of active users |
| `Redaction.dfy` | redaction of log trees |
| `Common.dfy` | shared vocabulary |

Components that change Redis data, tables or dictionaries in place are classes whose methods are
proved against functions; the theorems are about those functions. Time stamps are real numbers of
seconds (integers of microseconds in the compaction). Replies of the language model, of the tools and
of the clock are inputs of any value.

Run `dafny verify dfyconfig.toml` to check everything.

## Where the code differs from its documentation

The model follows the code.

- `validation_loop_count` is read by the routing and written nowhere, so `max_validation_loops` bounds
  nothing unless it forbids loops altogether (`AgentRuns.LoopsBoundedIffForbidden`).
- HALF_OPEN admits any number of probes, not one (README.md line 127 and the docstring at
  circuit_breaker.py line 126). Probes still in flight can therefore close a circuit that has just
  opened. `BreakerCommands.EarlyExitExactly` says exactly when, over all schedules of single commands;
  `BreakerInterleaving.EarlyExitCondition` is its simpler form while no half of a call is interrupted.
- OPEN is written before `opened_at`, the timeout check and the write of HALF_OPEN are separate commands, and
  the clock is read before the stamp is sent, so a stamp can arrive late and replace a newer one
  (`BreakerCommands.StampLagIsReachable`, `LateProbeIsReachable`, `LateStampIsReachable`).
- The limiter records rejected requests too, unlike the docstring at tool_rate_limiter.py lines 12-14
  (`RateLimiterHistory.PersistentClientStarves`).
- The summary's stamp is at most a millisecond early, not a second as the comment at summarization.py
  line 99 has it, so it need not sort first (`Summarization.SummaryLeadsExactly`).
- The time-to-live of a cached result counts from the write, not from the moment the tool produced it
  (`ToolPipeline.FreshIffPrompt`), and integers are compared as floats (`ToolCache.LargeIntegersCollide`).
- The compaction task is dispatched before the request commits, so it can miss the turn that dispatched it
  (`ChatService.BoundedExactly`), and the rows of one turn share a time stamp (`ChatService.AnswerMayPrecede`).
- Compaction is not dispatched "after every 20th message": the length tested is odd in every
  conversation whose turns all succeed (`ChatService.AnsweredNeverDispatches`).
- A selector that declines to call a tool does not prevent the call (`AgentRuns.DeclinedCallStillRuns`).
- `retryable` on `ToolExecutionError` is never consulted: the executor re-raises it and the run is
  aborted. The retry loop is entered only through a returned result that reports failure. Malformed
  planner output likewise aborts the run; no retry handler catches it.
- The refresh route passes neither device id nor client address, so the device check applies only to
  other callers of the service.

## Model

| member | source | states |
|---|---|---|
| `Breaker.CircuitBreaker.Call` | backend/app/infrastructure/tools/circuit_breaker.py:122-154 | With Redis reachable one call, command by command, maps the tool's four keys, its outcome and "was the coroutine awaited" exactly as `Breaker.CallEffect` says; with Redis down it is a pass-through; no other tool's keys change |
| `Breaker.ClosedCall` | backend/app/infrastructure/tools/circuit_breaker.py:146-186 | On a closed circuit, by the outcome of the coroutine: a returned payload clears the failure counter, a `ToolExecutionError` changes nothing and comes out as it is, any other exception counts, opens the circuit at the threshold with the time of the failure, and comes out as a retryable `ToolExecutionError` |
| `Breaker.ProbeCall` | backend/app/infrastructure/tools/circuit_breaker.py:131-186 | The same for a probe: a returned payload counts towards closing, from zero if the circuit was open until this call, a `ToolExecutionError` leaves the count, any other exception re-opens the circuit |
| `Breaker.RefusedCall` | backend/app/infrastructure/tools/circuit_breaker.py:131-144 | Within the timeout a call fails fast, is not retryable, and changes nothing |
| `Breaker.CircuitBreaker.RecordSuccess` | backend/app/infrastructure/tools/circuit_breaker.py:160-171 | The success handler turns the keys into `OnSuccess` of them and leaves every other tool's keys alone |
| `Breaker.CircuitBreaker.RecordFailure` | backend/app/infrastructure/tools/circuit_breaker.py:173-186 | The failure handler turns the keys into `OnFailure` of them and leaves every other tool's keys alone |
| `Breaker.CircuitBreaker.Put` | backend/app/infrastructure/tools/circuit_breaker.py:67-103 | A write changes exactly one field of one tool as read back, or nothing at all while Redis is down |
| `Breaker.OnlyToolErrorsEscape` | backend/app/infrastructure/tools/circuit_breaker.py:129-154 | The only exception a call can raise is `ToolExecutionError`; a non-retryable one is the coroutine's own or the fail-fast; the coroutine is skipped if and only if the circuit is OPEN and younger than the timeout |
| `Breaker.KeyInjective` | backend/app/infrastructure/tools/circuit_breaker.py:57-58 | No two (tool, suffix) pairs share a Redis key, even for tool names containing colons |
| `Breaker.KeyLayout` | backend/app/infrastructure/tools/circuit_breaker.py:57-58 | A key is "circuit:", the tool, a colon and the suffix |
| `Breaker.UnknownToolIsFresh` | backend/app/infrastructure/tools/circuit_breaker.py:60-97 | A tool without keys reads as closed with clean counters |
| `Breaker.WriteOne` | backend/app/infrastructure/tools/circuit_breaker.py:57-103 | Writing one key and reading all four of any tool back changes one field of one tool |
| `BreakerHistory.StepIsCall` | backend/app/infrastructure/tools/circuit_breaker.py:122-154 | The history step used below is the key half of a call |
| `BreakerHistory.Refinement` | backend/app/infrastructure/tools/circuit_breaker.py:122-186 | Every history of calls simulates the abstract machine Closed(k) / Open(t) / HalfOpen(s); each counter is zero outside its own state and below its threshold |
| `BreakerHistory.CountersAreTrailingRuns` | backend/app/infrastructure/tools/circuit_breaker.py:160-186 | From a fresh start the failure counter of a closed circuit is exactly the trailing run of failures of the awaited calls, the success counter of a half-open one the trailing run of successes; neutral and fail-fast calls leave no trace |
| `BreakerHistory.OpensExactlyAtThreshold` | backend/app/infrastructure/tools/circuit_breaker.py:181-186 | A closed circuit opens if and only if the call is the failure that completes a run of `failure_threshold`, and is stamped with that failure's time |
| `BreakerHistory.OpensExactlyByOutcomes` | backend/app/infrastructure/tools/circuit_breaker.py:146-186 | Over histories of coroutine outcomes: a closed circuit's failure counter is the number of the last awaited coroutines, `ToolExecutionError`s aside, that raised; a call opens it if and only if it raised another exception and, with it, the last `failure_threshold` of them all raised |
| `BreakerHistory.ProbesByOutcomes` | backend/app/infrastructure/tools/circuit_breaker.py:146-171 | A half-open circuit's success counter is the number of the last such coroutines that returned, the one before them having raised |
| `BreakerHistory.NoAwaitDuringRecovery` | backend/app/infrastructure/tools/circuit_breaker.py:131-144 | Under a clock that never goes back no coroutine is awaited in [opened_at, opened_at + recovery_timeout) |
| `BreakerHistory.OpenedAtIsLastOpening` | backend/app/infrastructure/tools/circuit_breaker.py:176-185 | The stored stamp is always the time of the latest opening |
| `BreakerHistory.OpeningsKeepDistance` | backend/app/infrastructure/tools/circuit_breaker.py:131-186 | Openings p and q of a history are at least (q - p) recovery timeouts apart |
| `BreakerHistory.OpeningsPerSpan` | backend/app/infrastructure/tools/circuit_breaker.py:131-186 | A span of length L holds at most floor(L / R) + 1 openings |
| `BreakerHistory.Recovery` | backend/app/infrastructure/tools/circuit_breaker.py:133-144 | Once the timeout has passed and nothing fails, `success_threshold` successes are necessary and sufficient to close; a failure before that re-opens with clean counters |
| `BreakerInterleaving.AlwaysBounded` | backend/app/infrastructure/tools/circuit_breaker.py:122-186 | Under every interleaving of begins and finishes both counters stay in [0, threshold) |
| `BreakerInterleaving.StaysOpen` | backend/app/infrastructure/tools/circuit_breaker.py:131-171 | As long as no half of a call is interrupted, an open circuit stays open through the timeout while the stored successes plus the probes in flight are fewer than `success_threshold` |
| `BreakerInterleaving.EarlyExitCondition` | backend/app/infrastructure/tools/circuit_breaker.py:126-144 | Among schedules that interrupt no half of a call, some leaves OPEN before the timeout if and only if stored successes plus probes in flight reach `success_threshold`; for all schedules see `BreakerCommands.EarlyExitExactly` |
| `BreakerInterleaving.EarlyExitIsReachable` | backend/app/infrastructure/tools/circuit_breaker.py:126-186 | With the thresholds 5, 60 s and 2 such a state is reached from a fresh start |
| `BreakerCommands.AloneIsCall` | backend/app/infrastructure/tools/circuit_breaker.py:122-186 | The single Redis commands of an uninterrupted call add up to the call |
| `BreakerCommands.CountersAccounted` | backend/app/infrastructure/tools/circuit_breaker.py:160-186 | Under every schedule of single Redis commands a counter is at its threshold only while some call still owes the reset, so both are below whenever no call is running |
| `BreakerCommands.StaysSealed` | backend/app/infrastructure/tools/circuit_breaker.py:131-186 | Under every schedule of single commands with clock readings in [from, from + recovery_timeout), a sealed circuit stays sealed: open, stamped at `from` or later, no call about to write another state, none that goes by a stamp from before `from` or is about to write one, and too few successes to come to close it |
| `BreakerCommands.EarlyExitExactly` | backend/app/infrastructure/tools/circuit_breaker.py:131-186 | Some schedule of single commands leaves a circuit that opened at `from` before its timeout if and only if it is not sealed: the stored stamp, or one a call has read, or one whose SET is still on its way, is from before `from`, or a call is about to write HALF_OPEN or CLOSED, or the successes still to come can complete `success_threshold` |
| `BreakerCommands.EarlyStartExactly` | backend/app/infrastructure/tools/circuit_breaker.py:131-147 | Some schedule starts a coroutine before the timeout if and only if the circuit is not sealed or a probe has still to clear the success counter |
| `BreakerCommands.Completes` | backend/app/infrastructure/tools/circuit_breaker.py:160-168 | Whenever the successes to come suffice by that count, a schedule that brings a call to its write of CLOSED exists |
| `BreakerCommands.StampLagIsReachable` | backend/app/infrastructure/tools/circuit_breaker.py:181-186 | From a fresh start and for all thresholds a state is reached in which OPEN has been written at t and its stamp has not, no probe is in flight, and a coroutine can be started within the timeout that began at t |
| `BreakerCommands.LateProbeIsReachable` | backend/app/infrastructure/tools/circuit_breaker.py:131-137 | From every open circuit whose timeout is over, two calls can pass the timeout check so that the first fails and re-opens the circuit, stamp and all, with the second still about to write HALF_OPEN |
| `BreakerCommands.LateStampIsReachable` | backend/app/infrastructure/tools/circuit_breaker.py:173-178 | From every open circuit whose timeout is over, two probes can fail at t1 < t2 so that the circuit is open and stamped t2 with the SET of the stamp t1 still on its way, and it can then be left before t2 + recovery_timeout |
| `BreakerCommands.HalvesSuffice` | backend/app/infrastructure/tools/circuit_breaker.py:122-154 | From a state in which every call in flight is awaiting its coroutine, the condition for uninterrupted halves is exact for single commands too |
| `RateLimiter.ToolRateLimiter.Check` | backend/app/infrastructure/cache/tool_rate_limiter.py:46-91 | The stored set afterwards, and rejection exactly when the trimmed set has `limit` members or more; rejected requests are stored as well; without a limit or without Redis the call is let through untouched |
| `RateLimiter.SortedSets.Pipeline` | backend/app/infrastructure/cache/tool_rate_limiter.py:60-71 | The four commands of the pipeline as one transaction: what it counts and what it stores |
| `RateLimiter.KeyLayout` | backend/app/infrastructure/cache/tool_rate_limiter.py:56 | A key is "toolrate:" and the tool |
| `RateLimiterHistory.StoredSet` | backend/app/infrastructure/cache/tool_rate_limiter.py:60-71 | After any history the stored set is exactly the requests of the tool, admitted or not, that no later request of the tool has trimmed |
| `RateLimiterHistory.ExpiryHidesNothing` | backend/app/infrastructure/cache/tool_rate_limiter.py:29-30 | If 65 s of server time never pass with less than 60 s between the stamps, an expired key held nothing the trim would have kept |
| `RateLimiterHistory.CountedExactly` | backend/app/infrastructure/cache/tool_rate_limiter.py:60-71 | What a request counts is exactly the earlier requests of the tool less than 60 s before it and before every request in between |
| `RateLimiterHistory.WindowLimit` | backend/app/infrastructure/cache/tool_rate_limiter.py:57-91 | With stamps at most d out of order and the time from stamp to pipeline growing by at most e from one request to a later one, every half-open window of w seconds holds at most `limit` admitted requests whenever w + d <= 60 and w + e <= 65; for ordered stamps and 5 s of growth this is the plain 60 s guarantee |
| `RateLimiterHistory.GuaranteedExactly` | backend/app/infrastructure/cache/tool_rate_limiter.py:29-91 | For stamps at most d out of order and a time from stamp to pipeline that varies by at most e, up or down, the window guarantee holds in all histories if and only if w + min(d, e) <= 60 and w + e <= 65, for every width and all deviations; histories that exceed `limit` are given for all others |
| `RateLimiterHistory.AdmissionRule` | backend/app/infrastructure/cache/tool_rate_limiter.py:60-91 | With stamps in order and 65 s of server time never passing with less than 60 s between them, a request is admitted if and only if fewer than `limit` requests, admitted or rejected, fall in (now - 60, now] |
| `RateLimiterHistory.AdmissionRuleExactly` | backend/app/infrastructure/cache/tool_rate_limiter.py:29-91 | For ordered stamps the rule holds in all histories whose time from stamp to pipeline varies by at most e, up or down, if and only if e <= 5 |
| `RateLimiterHistory.PersistentClientStarves` | backend/app/infrastructure/cache/tool_rate_limiter.py:66-91 | Under the conditions of `AdmissionRule`, whoever keeps asking for a tool with `limit` gaps shorter than the window is never admitted after the first `limit` requests, whatever other requests come in between |
| `RateLimiterHistory.StaysStored` | backend/app/infrastructure/cache/tool_rate_limiter.py:60-71 | A request stays stored as long as the later ones of its tool come less than 60 s after it by stamp and less than 65 s by server time, in whatever order |
| `Text.TokenMeaning` | backend/app/infrastructure/cache/tool_cache.py:26-32 | A token is exactly a maximal run of letters of the lower-cased text |
| `Text.LowerMeaning` | backend/app/infrastructure/cache/tool_cache.py:32 | Lower-casing replaces each letter by its counterpart in the alphabet and nothing else |
| `Text.LettersAndSpaces` | backend/app/infrastructure/cache/tool_cache.py:26 | The letters and the white space characters, one by one |
| `Text.StripMeaning` | backend/app/infrastructure/cache/tool_cache.py:54-55 | Stripping cuts white space off both ends, all of it and nothing else |
| `Text.StripToNothing` | backend/app/application/agent/nodes/validator.py:9 | Stripping leaves nothing exactly of a string of white space |
| `Text.TokensOfNormalized` | backend/app/infrastructure/cache/tool_cache.py:31-32 | Stripping and lower-casing a string leaves its tokens unchanged |
| `ToolCache.NormalizeArguments` | backend/app/infrastructure/cache/tool_cache.py:47-62 | The loop yields the normal form whatever order the keys come in, and raises exactly if an integer outside lists is too large for a float |
| `ToolCache.WriteMeaning` | backend/app/infrastructure/cache/tool_cache.py:24-44 | Arguments are a write if and only if some top-level key or string value has one of the eight words, written out, as a maximal letter run of its lower-cased text |
| `ToolCache.SameKeyExactly` | backend/app/infrastructure/cache/tool_cache.py:47-69 | Two calls share a key if and only if they are of one tool and have the same argument names with values that agree up to case and outer white space of text, conversion of integers to floats, and such differences inside dictionaries |
| `ToolCache.ToFloatMeaning` | backend/app/infrastructure/cache/tool_cache.py:56-57 | An integer becomes the nearest number with 53 bits, the even one of two |
| `ToolCache.SmallIntegersExact` | backend/app/infrastructure/cache/tool_cache.py:56-57 | Integers up to 2^53 keep their value in the key |
| `ToolCache.LargeIntegersCollide` | backend/app/infrastructure/cache/tool_cache.py:56-69 | 2^53 and 2^53 + 1 share a key, since both round to one float |
| `ToolCache.NormalArgumentsIdempotent` | backend/app/infrastructure/cache/tool_cache.py:47-62 | Normalising twice is normalising once |
| `ToolCache.NormalKeepsWrite` | backend/app/infrastructure/cache/tool_cache.py:34-62 | Arguments are classified as a write if and only if their normal form is |
| `ToolCache.SameKeySameClass` | backend/app/infrastructure/cache/tool_cache.py:34-69 | Calls that share a cache key are both writes or both reads |
| `ToolCache.ToolResultCache.Get` | backend/app/infrastructure/cache/tool_cache.py:78-103 | Nothing for a write, in the sense of `ToolCache.Writes`; `OverflowError` for any other call without a normal form, Redis or not; otherwise a hit exactly on an unexpired entry under the normal form |
| `ToolCache.ToolResultCache.Set` | backend/app/infrastructure/cache/tool_cache.py:105-116 | A write, in the sense of `ToolCache.Writes`, is never stored; any other call is stored under its normal form until its time-to-live ends, or raises `OverflowError` if it has none |
| `ToolExecutor.Executor.Execute` | backend/app/application/agent/nodes/tool_executor.py:46-130 | With everything wired the node computes `ExecuteEffect` on the shared stores; a payload it returns is reported field by field; nothing but `ToolExecutionError` gets out, save the `OverflowError` of a cache that cannot build a key; without a breaker a tool that raises becomes a failed result |
| `ToolExecutor.Executor.RunAndStore` | backend/app/application/agent/nodes/tool_executor.py:77-130 | After a miss: the breaker around the tool, the payload's success, output and error as the result, and the cache write |
| `ToolExecutor.OnlyToolErrors` | backend/app/application/agent/nodes/tool_executor.py:79-95 | With a breaker a tool that raises always aborts the node with `ToolExecutionError`, so the branch at lines 86-95 is dead; another exception gets out if and only if the call is registered, admitted, and a read with an integer too large for a float; a returned result of a run is the tool's own |
| `ToolExecutor.ResultByFields` | backend/app/application/agent/nodes/tool_executor.py:63-69 | A result of a run has the call's tool and the payload's success, output and error; a result without a run is the entry of the call's key |
| `ToolExecutor.RunsExactly` | backend/app/application/agent/nodes/tool_executor.py:51-83 | The tool is run if and only if it is registered, its limit is not reached, the call is a write or has a key without an unexpired entry, and its circuit lets the call through |
| `ToolExecutor.RaisesExactly` | backend/app/application/agent/nodes/tool_executor.py:51-85 | Every exception the node ends in, with its tool and its retryable flag |
| `ToolExecutor.StoredByFields` | backend/app/application/agent/nodes/tool_executor.py:110-128 | The cache gains an entry exactly for a payload that reports success, of a call that is no write, to a tool with a positive time-to-live, holding the payload field by field; otherwise it stays as it was |
| `ToolPipeline.AloneIsExecute` | backend/app/application/agent/nodes/tool_executor.py:46-130 | The interleavable steps of one execution, down to single Redis commands, are exactly one call of the node when taken in a row |
| `ToolPipeline.LimiterStaysInSync` | backend/app/application/agent/nodes/tool_executor.py:55-57 | In every interleaving the limiter has seen exactly the checks of the executions, and every execution past its check was admitted |
| `ToolPipeline.ToolRunsPerWindow` | backend/app/application/agent/nodes/tool_executor.py:55-108 | Over all runs, retries and interleavings a limited tool is really executed at most `limit` times per half-open window of w seconds, by check time, whenever w + d <= 60 and w + e <= 65 for checks at most d out of order whose time to the pipeline grows by at most e |
| `ToolPipeline.CacheStaysSound` | backend/app/application/agent/nodes/tool_executor.py:63-69 | In every interleaving a hit goes back to three earlier actions of the run: a coroutine of the same tool whose payload reported success with the output and error of the hit, for arguments with equal normal form, its cache write, and a look-up less than the time-to-live after that write; neither call is a write |
| `ToolPipeline.ServedInOrder` | backend/app/application/agent/nodes/tool_executor.py:63-128 | Under one clock the coroutine's end, the write and the look-up of a hit come in that order |
| `ToolPipeline.HitAgeExactly` | backend/app/application/agent/nodes/tool_executor.py:63-128 | Whatever actions follow a write, every hit on it is younger than a given age, counted from the end of the coroutine, if and only if that age is at least ttl plus the delay between the end of the coroutine and the write |
| `ToolPipeline.FreshIffPrompt` | backend/app/infrastructure/cache/tool_cache.py:105-113 | Whatever actions follow a write, every hit on it comes less than the time-to-live after the tool produced the result if and only if it was written at the moment the coroutine ended |
| `PipelineBreaker.RunProjects` | backend/app/application/agent/nodes/tool_executor.py:79-85 | Seen from one tool, every run of the shared pipeline is a run of the breaker's single commands from its start |
| `PipelineBreaker.PipelineBreakers` | backend/app/application/agent/nodes/tool_executor.py:79-85 | Hence the counter bounds and the exact conditions for leaving OPEN and starting a coroutine early hold for every tool in every run of the pipeline |
| `PipelineBreaker.NoRunWhileSealed` | backend/app/application/agent/nodes/tool_executor.py:77-85 | While the timeout of a circuit runs that is sealed and has no probe about to clear the success counter, no execution of its tool is started, whatever all agent runs do |
| `AgentRuns.RunInvariant` | backend/app/application/agent/graph.py:17-52 | In every run `node_path` is the executed nodes and a walk of the graph; `retry_count` counts retry handlers and never exceeds `max_retries`; every node finds what it relies on; the loop counter stays 0; an ended run was refused at once or, with max_loops > 0, has a non-blank draft |
| `AgentOutcomes.ValidatorEnds` | backend/app/application/agent/nodes/validator.py:6-14 | At the validator a run ends if and only if the draft has a character that is not white space or the loops are used up, otherwise it goes to the selector; the errors reported, one by one |
| `AgentOutcomes.FlaggedIsRefused` | backend/app/application/agent/nodes/content_filter.py:170-190 | A flagged message ends the run at once with the refusal |
| `AgentOutcomes.AnswerWithoutTool` | backend/app/application/agent/graph.py:17-52 | If the planner's JSON asks for no registered tool and the reply says something, the run ends after four nodes with that reply as its draft |
| `AgentOutcomes.ToolChosen` | backend/app/application/agent/nodes/tool_selector.py:61-79 | If it does, the run comes to the executor with the selector's first call, or with the planner's tool and no arguments if the selector makes none |
| `AgentOutcomes.AnswerWithTool` | backend/app/application/agent/graph.py:17-52 | If that tool then succeeds, the run ends after six nodes with the generator's reply, or with the selector's words if it had answered in words |
| `AgentOutcomes.RetriedToTheEnd` | backend/app/application/agent/graph.py:43-46 | A tool that keeps returning failures is retried exactly until `max_retries`, along the path executor, error handler, retry handler; the draft stays as it is |
| `AgentOutcomes.AnswerAfterFailures` | backend/app/application/agent/graph.py:17-52 | A whole run with such a tool ends after exactly `max_retries` retries with the generator's reply |
| `AgentOutcomes.SecondChance` | backend/app/application/agent/graph.py:33-52 | If no tool was needed and the reply says nothing, the selector is asked; its words, if it makes no call, are the answer |
| `AgentOutcomes.FailuresAbort` | backend/app/application/agent/nodes/tool_executor.py:84-85 | A tool that raises, a model that fails and JSON that cannot be read abort the run at their node |
| `AgentOutcomes.PayloadDecides` | backend/app/application/agent/graph.py:37-40 | A payload that reports failure leaves the cache as it was and leads to the error handler, one that reports success to the response generator |
| `AgentRuns.RouteIsEdge` | backend/app/application/agent/graph.py:94-127 | Every routing decision is a declared edge |
| `AgentRuns.DeadBranches` | backend/app/application/agent/nodes/error_handler.py:8-18 | In a run the executor's assertion never fires and the error handler's unrecoverable branch is never taken |
| `AgentRuns.WalkLength` | backend/app/application/agent/graph.py:94-127 | Any walk of the declared edges takes at most 5 steps per validator visit and 3 per retry, plus its start and the position in the current round |
| `AgentRuns.RunLength` | backend/app/application/agent/graph.py:17-52 | A completed run with V validator visits takes at most 2 + 5 V + 3 max_retries steps; an unfinished one at most 6 + 5 V + 3 max_retries |
| `AgentRuns.ExecutorEntriesOfRun` | backend/app/application/agent/graph.py:33-46 | Executor entries equal selector-to-executor moves plus retries, in every run |
| `AgentRuns.LoopsBoundedIffForbidden` | backend/app/application/agent/graph.py:49-52 | `max_validation_loops` bounds the validator visits of all runs if and only if it is at most 0 |
| `AgentRuns.Diverges` | backend/app/application/agent/nodes/response_generator.py:53-54 | For any number of visits there is a run with that many: a one-space draft is passed through for ever |
| `AgentRuns.StuckNeverEnds` | backend/app/application/agent/nodes/validator.py:9-14 | From any state with a white-space draft the run never reaches END while the selector keeps calling tools |
| `AgentRuns.CountingWouldBound` | backend/app/application/agent/graph.py:49-52 | If the validator wrote the counter, every run would visit it at most max(1, max_loops) times and be over after 2 + 5 max(1, max_loops) + 3 max_retries steps |
| `AgentRuns.TokensBalance` | backend/app/application/agent/nodes/planner.py:181-194 | Final token counts are the sum over exactly the accepted planner replies and the response-generator replies; selector replies are not counted |
| `AgentRuns.BackoffTotal` | backend/app/application/agent/nodes/retry_handler.py:12 | k retries sleep (2^k - 1)/4 seconds for k <= 5 and 31/4 + 4 (k - 5) beyond |
| `AgentRuns.RunBackoff` | backend/app/application/agent/nodes/retry_handler.py:12-14 | Every run sleeps for exactly that total of its own `retry_count` |
| `AgentRuns.DecisionByFields` | backend/app/application/agent/nodes/planner.py:132-171 | The decision, by the fields of the JSON: readable if and only if `needs_tool` is a truth value, one, zero or a text, the tool's name a text or null, the reasoning a text or missing; a text needs a tool exactly if it spells "true" in any case; five names stand for none; an unknown tool means none is needed |
| `AgentRuns.PlannerSelectsRegistered` | backend/app/application/agent/nodes/planner.py:145-194 | The planner goes on if and only if the JSON is readable, asks for a tool if and only if the JSON does and names a registered one, and selects it without arguments; otherwise the selection is unchanged |
| `AgentRuns.DeclinedCallStillRuns` | backend/app/application/agent/nodes/tool_selector.py:63-70 | If the selector's reply carries no call, the first round still goes to the executor with the planner's registered tool and no arguments |
| `AgentRuns.HitGoesToResponse` | backend/app/application/agent/graph.py:37-40 | Every cache hit of the shared pipeline routes to the response generator |
| `AgentRuns.NodeKeeps` | backend/app/infrastructure/observability/agent_tracing.py:93 | A completed node appends its own name, adds one to the retry count only in the retry handler, and hands its successor what that relies on |
| `Sessions.AuthService.Login` | backend/app/application/services/auth_service.py:55-60 | The session table and result after a login, including wrong credentials |
| `Sessions.AuthService.Refresh` | backend/app/application/services/auth_service.py:62-81 | The session table and result after a refresh, including every refusal and the roll-back of a failed insert |
| `Sessions.AuthService.Logout` | backend/app/application/services/auth_service.py:83-85 | The session table and result after a logout |
| `Sessions.AuthService.Issue` | backend/app/application/services/auth_service.py:87-97 | One new session row and two tokens that match it, or nothing if the key is taken |
| `Sessions.SessionRepository.Create` | backend/app/infrastructure/db/repositories/user_repository.py:51-57 | A new row, refused if the key exists |
| `Sessions.SessionRepository.RevokeSession` | backend/app/infrastructure/db/repositories/user_repository.py:75-79 | The row, if any, becomes revoked and nothing else changes |
| `SessionHistory.RotationInvariant` | backend/app/application/services/auth_service.py:55-97 | After every history each login has at most one unrevoked session, all its sessions share one user and one non-empty device, and every refresh token matches its row |
| `SessionHistory.TokenWorksOnce` | backend/app/application/services/auth_service.py:65-81 | After a refresh has succeeded, no later refresh with the same token id ever does, whatever happens between |
| `SessionHistory.RefreshSucceedsExactly` | backend/app/application/services/auth_service.py:62-81 | A refresh succeeds if and only if the token is an issued, unexpired refresh token of an unrevoked session, the device, if named, is that of the original login, and the new key is free |
| `SessionHistory.LoginSucceedsExactly` | backend/app/application/services/auth_service.py:55-60 | A login succeeds if and only if the credentials are right and the new key is free; it gives out tokens of that user with their expiries, adds one live session of its own login and changes nothing else; a refused one changes nothing |
| `SessionHistory.RefreshRotates` | backend/app/application/services/auth_service.py:62-81 | A refresh gives out tokens of the session's user for the device of its login, revokes the session it used, noting the client's address, adds one to the same login and changes nothing else; a refused one changes nothing |
| `SessionHistory.LogoutRevokes` | backend/app/application/services/auth_service.py:83-85 | A logout with a token that verifies revokes its session, if there is one, and nothing else; any other is refused |
| `SessionHistory.LogoutEndsLogin` | backend/app/application/services/auth_service.py:83-85 | A logout ends a login if and only if it was over or the token belongs to its one live session |
| `SessionHistory.DeadForGood` | backend/app/application/services/auth_service.py:62-97 | A login without a live session never gets one again |
| `SessionHistory.NoRefreshAfterEnd` | backend/app/application/services/auth_service.py:62-97 | After that no refresh with any token of the login succeeds |
| `SessionHistory.RevokedForGood` | backend/app/infrastructure/db/repositories/user_repository.py:75-79 | A revoked session stays revoked through every history |
| `Summarization.MessageStore.SummarizeConversation` | backend/app/infrastructure/tasks/summarization.py:56-115 | Fewer than 20 rows: skipped; model failure: nothing written; otherwise the table is exactly `Compacted`, rows committed meanwhile included |
| `Summarization.WhatIsLeft` | backend/app/infrastructure/tasks/summarization.py:67-115 | Exactly the summary, the last ten rows and the rows inserted meanwhile are left of the conversation, the summary with its role, text and stamp, the others verbatim, and other conversations are untouched |
| `Summarization.RowsLeft` | backend/app/infrastructure/tasks/summarization.py:63-65 | Any later read finds 11 rows plus arrivals, so an immediate rerun is a no-op if and only if fewer than nine arrived |
| `Summarization.SummaryStampBounds` | backend/app/infrastructure/tasks/summarization.py:100-101 | The summary's stamp is at most 1 ms before the earliest row and in the same second, equal to it if and only if that row's microseconds are 0 |
| `Summarization.SummaryThenTail` | backend/app/infrastructure/tasks/summarization.py:67-115 | The summary, the last ten rows and then the rows committed meanwhile, each in their order, are a possible read of the result if and only if none of those is stamped before the last row |
| `Summarization.LeadsExactly` | backend/app/infrastructure/tasks/summarization.py:57-61 | A row is first in every possible read of a conversation if and only if its stamp is before that of every other row |
| `Summarization.SummaryLeadsExactly` | backend/app/infrastructure/tasks/summarization.py:100-115 | The summary is first in every possible read if and only if its stamp is before the first kept row's and before that of every row committed meanwhile |
| `ChatService.Messages.SendMessage` | backend/app/application/services/chat_service.py:65-126 | The stored rows after a turn in all three endings, both rows of a turn with the time of the transaction, and dispatch exactly when the history loaded before the answer has a length divisible by 20 |
| `ChatService.TurnRows` | backend/app/application/services/chat_service.py:72-110 | The rows a turn adds in each of its three endings, with role, text and stamp; no other row changes |
| `ChatService.AnswerMayPrecede` | backend/app/infrastructure/db/models/orm.py:68 | The two rows of an answered turn share one time stamp, so a later read may return them in either order |
| `ChatService.CompactedLengthIsRight` | backend/app/infrastructure/tasks/summarization.py:63-115 | The length used for the trigger is the length of any read after the task, for any number of rows committed between its read and its delete |
| `ChatService.FirstDispatchNeedsOddRejections` | backend/app/application/services/chat_service.py:113-116 | From an empty conversation, or any of even length, the first dispatch needs an odd number of turns that kept only the user's message |
| `ChatService.AnsweredNeverDispatches` | backend/app/application/services/chat_service.py:79-116 | From any even length, if every turn is answered no compaction is ever dispatched and the history grows by two a turn |
| `ChatService.OddStaysBounded` | backend/app/application/services/chat_service.py:110-116 | From an odd length the stored length stays odd and at or below the ceiling, whether tasks may read before the commit of the turn that dispatched them or not |
| `ChatService.BoundedExactly` | backend/app/application/services/chat_service.py:110-116 | From an odd length the ceiling is the least bound between turns, and the ceiling plus 2 the least bound before the task has run; from at most 19 messages these are 19 and 21 if every task reads after the commit, and 39 and 41 if tasks may read before it |
| `ChatService.BoundedIffOdd` | backend/app/application/services/chat_service.py:110-116 | With every turn answered the history stays bounded if and only if it starts odd, whenever the tasks read |
| `ChatService.ActiveUsers.RecordActiveUser` | backend/app/application/services/chat_service.py:32-40 | The eviction loop leaves exactly the users seen in the last 300 seconds, whatever order they are deleted in, and reports their number |
| `ChatService.SeenExactly` | backend/app/application/services/chat_service.py:32-40 | With a monotone clock the record is exactly the users whose latest call is at most 300 s before the latest of all, with that call's time |
| `Redaction.RedactCleans` | backend/app/infrastructure/observability/redaction.py:38-50 | The result has only the marker below sensitive keys and no string over 200 characters in a value position |
| `Redaction.SensitiveMeaning` | backend/app/infrastructure/observability/redaction.py:18-21 | A key is sensitive if and only if one of the six words, written out, occurs in it in any case |
| `Redaction.RedactedTexts` | backend/app/infrastructure/observability/redaction.py:23-50 | What becomes of a string, short or long, and of each field, sensitive or not |
| `Redaction.CleanIffFixed` | backend/app/infrastructure/observability/redaction.py:38-50 | A tree is clean if and only if redaction leaves it alone |
| `Redaction.RedactIdempotent` | backend/app/infrastructure/observability/redaction.py:29-50 | Redacting twice is redacting once |
| `Redaction.RedactKeepsShape` | backend/app/infrastructure/observability/redaction.py:38-44 | Outside sensitive keys the result has the same dictionaries, lists and other values |
| `Redaction.RedactSeparates` | backend/app/infrastructure/observability/redaction.py:38-50 | Two trees redact to the same tree if and only if they differ only below sensitive keys and in what truncation cuts off |

## Left out

- Redis errors that hit some commands of a call and not others: the class contracts state the behaviour with Redis reachable or down for a whole call, and the theorems over runs assume it reachable.
- The cache fingerprint is taken to be injective: a cache key is the tool and the normal form of the arguments. A collision of two 64-bit prefixes of SHA-256 is not modelled.
- JSON, integer and float texts in Redis are taken to read back as written; a stored value the breaker's parsers reject reads as the default.
- Text is ASCII: Unicode lower-casing and white space are not modelled.
- Floating-point rounding of clock readings and the sign of a zero are not modelled; the rounding of integer arguments is.
- Sessions and users: requests are atomic transactions, so two overlapping refreshes of one token are not modelled; one clock reading serves the token check and the session check.
- SessionHistory.RotationInvariant: a refresh token and its row expire at one time; the program reads the clock for each separately and cuts the token's to whole seconds, so the two can differ by about a second.
- `register`, `revoke_all_for_user` and `get_status`: they would add only easy members.
- Token signatures, audiences and argon2: a token verifies if and only if it was issued and has not expired.
- Prompts, language-model calls, tracing, metrics and the content filter's patterns: a node's replies and the filter's verdict are inputs.
- The lenient JSON extractor and pydantic's coercions of text to booleans beyond the planner's own repair: the parsed dictionary is an input.
- The planner's repairs are functions on a dictionary value rather than updates in place; nothing else holds a reference to it.
- Cancellation of a request while a coroutine is awaited: neither success nor failure is recorded by the program, which the histories do not include.
- A graph without limiter, cache or breaker appears only in the contract of `ToolExecutor.Executor.Execute`; the theorems over runs are about the configuration the application wires.
- Row order between messages with equal time stamps is arbitrary, and the Celery retry schedule, the invalidation of the Redis memory and failures of the database are not modelled.
- HTTP routing, dependency wiring, the tools themselves, `RedisRateLimiter`, `RedisConversationMemory` and LangGraph's own recursion limit are not part of this model.
