# Verification of the source gateway's control plane

This project models the in-memory control plane of the gateway and proves properties of it for
all inputs, all runs and all interleavings. The clock is a real number, tokens and counters are
unbounded integers (as in Python), and text is a sequence of characters.

- **Admission control.** `AdmissionController` is a class with the source's counters, deques,
  running totals and cooldowns. Its ghost `log` keeps every call with its clock reading.
  `AdmissionHistory` and `RetryGuardHistory` define what the controller should answer as pure
  functions of that history, with nothing pruned or totalled incrementally; every method keeps
  the class in step with them. `Isolation` proves the noisy-neighbour promise.
- **Routing.** `Routing` holds the model index, the health map and the registry class;
  `RoundRobin` the fairness of its cursor and `Fairness` the same for consecutive selections of the
  registry; `Failover` the retry loop of one request while others use the registry.
- **Streams.** `Sse` and `SseUsage` cover the incremental event parser, a subset of sections
  9.2.5 and 9.2.6 of the WHATWG HTML Living Standard, and `Streaming` the generator around it.
- **Requests.** `LifeCycle` is a step system: any number of requests interleave with clock ticks
  and health changes, and a step is the code between two points where a request waits. Its state
  is the clock, the registry, the admission history and the accounting counters. `LeaseSafety`,
  `BudgetSafety`, `LedgerSafety`, `ChargeSafety` and `RoutingSafety` prove invariants of all its runs, `BudgetTightness` that the
  budget bound is the least one, and `Replay` drives the controller class through any run.
- **The rest.** `Configuration` (validation and key table), `RequestShape` (payload limits),
  `RequestMetrics` (request and failure counters), and `Text`, `Sequences`, `Counters`,
  `Options`, `AdmissionConfig`.

Where a promise does not hold of the code, the code is modelled and the exact condition is proved:

- Normalising line endings again and again is not idempotent on CR CR LF
  (`src/vllm_source_gateway/services/proxy.py:406`): what the parser keeps is independent of how a
  text is cut, at each moment of it, exactly for texts without it (`SseUsage.CutsDoNotMatterIff`).
  The same condition holds for the raw text of the events (`Sse.ChunkIndependentIff`), and
  `SseUsage.UsageDependsOnCuts` gives texts for which the usage itself differs.
- `config.example.yaml:44-46` bounds the overspending of a token budget by concurrency times the
  output cap. The code charges prompt and generation tokens, so the output cap is not enough
  (`BudgetSafety.OutputCapDoesNotBound`); `BudgetTightness.DocumentedBoundIff` says exactly when it
  is, and `BudgetTightness.LeastBound` which bounds hold at all.
- A lease is not always released: `LifeCycle.LeaksExactlyWhen` says exactly in which runs it leaks,
  and `LifeCycle.AbandonedLeaks` gives such a run.
- A status below 400 that is not a success counts as class `5xx` but not as a failure
  (`RequestMetrics.RedirectIsNoFailure`); `RequestMetrics.FailuresMatchIff` is the exact condition.
- An API key listed twice within one department is rejected although the message speaks of more
  than one department (`src/vllm_source_gateway/config.py:396-398`):
  `Configuration.RepeatedKeyIsRefused`, and exactly when in `Configuration.RefusedForKeysIff`.
- A key that never had a cooldown is treated as if its cooldown ended at time zero, so a clock that
  starts below zero reads as a cooldown (`AdmissionHistory.ColdClockIff`).

## Model

| member | source | states |
|---|---|---|
| `AdmissionController.AdmissionController.constructor` | src/vllm_source_gateway/services/admission_control.py:23-42 | a new controller is in step with the empty history |
| `AdmissionController.AdmissionController.Acquire` | src/vllm_source_gateway/services/admission_control.py:100-185 | the call joins the history; the verdict is the one the whole history demands whenever clock readings arrive in order, so pruning skipped on early rejections is invisible (out of order, the running total stands in for the windowed sum); and it is justified reason by reason: guard open exactly while the latest cooldown has not ended, with the whole seconds left as Retry-After, else model limit reached, else key limit reached, else budget reached, each with the default Retry-After, else admitted |
| `AdmissionHistory.AnswerIsJustified` | src/vllm_source_gateway/services/admission_control.py:107-185 | the decision meets that description for every history, with r between x - 1 and max(1, x) for x seconds of cooldown left |
| `AdmissionHistory.JustifiedIsUnique` | src/vllm_source_gateway/services/admission_control.py:107-185 | the description leaves only one verdict |
| `AdmissionController.AdmissionController.Release` | src/vllm_source_gateway/services/admission_control.py:187-205 | the release joins the history and all three counters stay in step with it; a request without a lease changes nothing |
| `AdmissionController.AdmissionController.RecordTokens` | src/vllm_source_gateway/services/admission_control.py:207-227 | the charge joins the history and deque and total stay in step with it, for any order of clock readings |
| `AdmissionController.AdmissionController.RecordRetryEvent` | src/vllm_source_gateway/services/admission_control.py:229-257 | the event joins the history; the guard opens exactly when the history of retry events of the key says so |
| `AdmissionController.AdmissionController.Prune` | src/vllm_source_gateway/services/admission_control.py:155-162 | dropping old events keeps total and deque equal, the floor at zero never acts, and with ordered clocks the total becomes the sum of everything charged within the window |
| `AdmissionController.DropOldTokenEvents` | src/vllm_source_gateway/services/admission_control.py:324-334 | only a stale prefix is dropped, the first event kept is live, and the tokens removed are those of the prefix |
| `AdmissionController.DropOldRetryEvents` | src/vllm_source_gateway/services/admission_control.py:250-252 | only a stale prefix of the retry deque is dropped |
| `AdmissionController.NeverUndercounts` | src/vllm_source_gateway/services/admission_control.py:153-163 | whatever the order of clock readings, the retained total is never below the live window of the whole history |
| `AdmissionController.ExactAfterPruning` | src/vllm_source_gateway/services/admission_control.py:324-334 | with ordered clocks, dropping the stale prefix leaves exactly the live window |
| `AdmissionController.AdmissionController.TotalCoversWindow` | src/vllm_source_gateway/services/admission_control.py:207-227 | in every reachable state the running total covers what the history spent in the window, at any later time |
| `AdmissionController.AdmissionController.RetryDequeBetweenCalls` | src/vllm_source_gateway/services/admission_control.py:243-257 | between calls the retry deque is shorter than max_events, and empty during a cooldown |
| `AdmissionController.FillingOpens` | src/vllm_source_gateway/services/admission_control.py:250-256 | counting the pruned deque is counting the events of the window: an event fills it exactly when the guard must open |
| `AdmissionHistory.ClampsNeverFire` | src/vllm_source_gateway/services/admission_control.py:193-200 | on a history that never releases more than it granted, the floored counter is the plain difference |
| `AdmissionHistory.LimitsHold` | src/vllm_source_gateway/services/admission_control.py:123-151 | in every history of granted leases neither the model limit nor the department limit is exceeded |
| `AdmissionHistory.EventsFollowClock` | src/vllm_source_gateway/services/admission_control.py:207-227 | if calls arrive in clock order, so do the token events of a key |
| `AdmissionHistory.ColdClockIff` | src/vllm_source_gateway/services/admission_control.py:108-109 | a request of a key without retry events is refused by the guard exactly when the clock is below zero |
| `AdmissionHistory.GaugeTotals` | src/vllm_source_gateway/services/admission_control.py:180-184 | the in-flight gauge, summed over any set of labels, counts the leases outstanding there |
| `RetryGuardHistory.GuardOpensExactly` | src/vllm_source_gateway/services/admission_control.py:243-257 | an event opens the guard exactly when it is unsuppressed and, with the unsuppressed events since the last opening that fall inside the window, makes max_events |
| `RetryGuardHistory.OpeningsApart` | src/vllm_source_gateway/services/admission_control.py:254-256 | two openings for a key are at least cooldown_seconds apart |
| `RetryGuardHistory.SuppressedInsideCooldown` | src/vllm_source_gateway/services/admission_control.py:247-248 | an event is suppressed exactly when an earlier opening is less than a cooldown ago |
| `RetryGuardHistory.PendingFollowsCooldown` | src/vllm_source_gateway/services/admission_control.py:250-256 | every event still pending comes after the end of the last cooldown |
| `RetryGuardHistory.CooldownEndsThere` | src/vllm_source_gateway/services/admission_control.py:254-256 | the cooldown kept for a key ends cooldown_seconds after the latest opening event, and at zero if there was none |
| `RetryGuardHistory.RetryAfterBounds` | src/vllm_source_gateway/services/admission_control.py:115-121 | Retry-After r for remaining time x satisfies x - 1 < r <= max(1, x), and r >= 1 |
| `Isolation.NoisyNeighbour` | src/vllm_source_gateway/services/admission_control.py:123-151 | if every department that uses a model has a limit and those limits fit under the global limit, a department below its own limit is never refused for concurrency |
| `Isolation.ModelCoveredByDepartments` | src/vllm_source_gateway/services/admission_control.py:178-205 | the model counter is at most the sum of its limited departments' counters, even across surplus releases |
| `RequestShape.CheckRequestShape` | src/vllm_source_gateway/services/admission_control.py:48-98 | with limits for the model: body too large exactly when the size exceeds the limit; otherwise output tokens exactly when a present cap is not a positive integer within the limit; otherwise too many choices exactly when n is present and not equal to one; otherwise accepted, unchanged if it has a cap and completed with max_output_tokens (endpoint responses) or max_tokens (any other) if not |
| `RequestShape.ExtractValidMaxOutputTokens` | src/vllm_source_gateway/services/admission_control.py:308-321 | reports whether a cap is present, and a highest cap exactly when all present caps are positive integers; that cap is within a limit iff all are |
| `RequestShape.AcceptedIsCapped` | src/vllm_source_gateway/services/admission_control.py:71-98 | with an output limit, an accepted payload has a cap, every cap is a positive integer within the limit, and no other key changed |
| `RequestShape.CheckedOnceIsEnough` | src/vllm_source_gateway/services/admission_control.py:94-98 | a checked payload passes the same check again unchanged, for any endpoint |
| `Configuration.ValidateUniqueConstraints` | src/vllm_source_gateway/config.py:383-463 | accepts exactly the configurations with unique upstream names, sound API keys and (when enabled) sound admission lists; the key table then answers every API key as a scan of the departments would |
| `Configuration.ValidateAdmission` | src/vllm_source_gateway/config.py:404-459 | accepts exactly the admission sections that mention known names and list no pair twice; duplicate pairs are reported after unknown models of the two maps and before unknown names in the lists |
| `Configuration.ValidateUniquePairs` | src/vllm_source_gateway/config.py:366-381 | succeeds exactly when no pair occurs twice |
| `Configuration.BuildKeyTable` | src/vllm_source_gateway/config.py:389-402 | yields a table of exactly the listed keys, or the first problem in the order of the file |
| `Configuration.TableIsLinearScan` | src/vllm_source_gateway/dependencies.py:87-107 | lookup in the precomputed table equals a linear scan of the departments, for every API key |
| `Configuration.OneOwner` | src/vllm_source_gateway/config.py:389-400 | after validation each API key belongs to one department only |
| `Configuration.RefusedForKeysIff` | src/vllm_source_gateway/config.py:395-400 | named departments are refused for their API keys exactly when two departments share a key or one department lists a key twice |
| `Configuration.RepeatedKeyIsRefused` | src/vllm_source_gateway/config.py:395-400 | a concrete configuration that is refused though no key belongs to more than one department |
| `Configuration.ScanIsLookup` | src/vllm_source_gateway/services/admission_control.py:259-263 | with unique pairs a first-match scan equals lookup in the map built from the list in any order |
| `Configuration.OrderFreeIffConsistent` | src/vllm_source_gateway/services/admission_control.py:259-263 | the scan is independent of the order of the list exactly when entries with equal keys are equal |
| `Configuration.BudgetScanIsOrderFree` | src/vllm_source_gateway/services/admission_control.py:265-269 | with unique pairs the budget scan is independent of the order of the list |
| `Configuration.BudgetScanIsLookup` | src/vllm_source_gateway/services/admission_control.py:265-269 | with unique pairs a first-match budget scan equals lookup in the map built from the list in any order |
| `Configuration.ValidatedScansAreLookups` | src/vllm_source_gateway/config.py:423-438 | validation of an enabled admission section establishes the unique keys that isolation needs, and makes limit scans and budget scans lookups in the maps built from their lists in any order |
| `Configuration.AcceptedIff` | src/vllm_source_gateway/config.py:383-463 | a configuration is accepted exactly when upstream names differ, API keys are sound, and, with admission control on, every model mentioned has an upstream slot, every department mentioned can be reached by an API key, and no pair is listed twice |
| `Configuration.OwnersHaveNames` | src/vllm_source_gateway/config.py:391-400 | every department that an API key leads to has a non-empty name without white space around it |
| `Text.StripExactly` | src/vllm_source_gateway/config.py:392 | stripping removes the white space at both ends and nothing else |
| `Routing.BuildModelIndex` | src/vllm_source_gateway/routing.py:62-70 | the index has exactly the served models, each with its pool in configuration order |
| `Routing.PoolInvertsModels` | src/vllm_source_gateway/routing.py:66-69 | an upstream occupies as many slots of a model as its model list mentions it |
| `Routing.PoolKeepsOrder` | src/vllm_source_gateway/routing.py:66-69 | pool slots come from non-decreasing positions of the upstream list |
| `Routing.RoutingRegistry.constructor` | src/vllm_source_gateway/routing.py:38-47 | a new registry is indexed, all upstreams are healthy, and all cursors stand at the first slot |
| `Routing.RoutingRegistry.SetUpstreamHealth` | src/vllm_source_gateway/routing.py:115-140 | replaces the health of one known upstream, keeping probe times not given, and changes nothing else; an unknown name is an error |
| `Routing.RoutingRegistry.SelectUpstream` | src/vllm_source_gateway/routing.py:142-177 | takes the eligible slot nearest to the cursor and moves the cursor one past it; a failed selection, and every other model, keeps its cursor |
| `Routing.Scan` | src/vllm_source_gateway/routing.py:153-175 | the modular scan finds the nearest eligible slot, or none exactly when no slot is eligible |
| `Routing.RoutingRegistry.OnlineIffSelectable` | src/vllm_source_gateway/models.py:32-36 | a model is online exactly when an unexcluded selection succeeds |
| `Routing.RoutingRegistry.AvailabilityCounts` | src/vllm_source_gateway/routing.py:88-99 | the availability of a model counts its slots, and the healthy ones among them |
| `Routing.RoutingRegistry.ReadyIffSomeModelOnline` | src/vllm_source_gateway/routers/health.py:22-29 | readiness is 200 exactly when some model is online |
| `RoundRobin.NearestIsUnique` | src/vllm_source_gateway/routing.py:153-175 | the nearest eligible slot from a cursor is unique |
| `RoundRobin.PassingOverApproaches` | src/vllm_source_gateway/routing.py:153-175 | a selection that passes over an eligible slot strictly decreases that slot's cyclic distance from the cursor |
| `RoundRobin.StarvationBound` | src/vllm_source_gateway/routing.py:153-177 | a slot eligible at each of pool_size consecutive selections is chosen at least once, however the others change |
| `RoundRobin.OneRoundIsAPermutation` | src/vllm_source_gateway/routing.py:142-177 | with steady health, any h selections in a row choose each of the h healthy slots once |
| `RoundRobin.SteadyPicksFollowSlots` | src/vllm_source_gateway/routing.py:142-177 | with steady health the picks walk the healthy slots cyclically |
| `RoundRobin.Balance` | src/vllm_source_gateway/routing.py:142-177 | with steady health, k selections choose every healthy slot floor(k/h) or ceil(k/h) times |
| `Fairness.SelectInTurns` | src/vllm_source_gateway/routing.py:142-177 | for the registry itself, any consecutive selections for one model with health changes and selections for other models in between: a slot eligible in every one of at least pool_size turns is taken, and with nothing changing every eligible slot is taken floor(k/h) or ceil(k/h) times and no other slot ever |
| `Failover.Select` | src/vllm_source_gateway/services/proxy.py:310-343 | a selection yields a healthy upstream outside the excluded names and counts once, or fails exactly because there is none and then leaves the cursor alone |
| `Failover.TryUpstreams` | src/vllm_source_gateway/services/proxy.py:466-519 | from the first selected upstream on: terminates, tries no upstream twice, counts one selection per attempt, surfaces the outcome of the last attempt, and surfaces a connect error only when every upstream healthy by then was tried and failed to connect, whatever others do to the registry meanwhile |
| `Failover.ProxyWithFailover` | src/vllm_source_gateway/services/proxy.py:770-831 | the same for a whole request, the first selection included: without a healthy upstream at the start nothing is attempted and nothing counted |
| `Sse.NormaliseConcat` | src/vllm_source_gateway/services/proxy.py:406 | normalising line endings distributes over a cut unless the cut separates CR from LF |
| `Sse.SplitIncrementally` | src/vllm_source_gateway/services/proxy.py:411-412 | splitting at blank lines may stop at any cut and resume with the tail |
| `Sse.SplitLosesNothing` | src/vllm_source_gateway/services/proxy.py:411-412 | the events, each closed by a blank line, and the tail are the whole text |
| `Sse.SplitOwnText` | src/vllm_source_gateway/services/proxy.py:411-412 | the text of the extracted events splits into these events again |
| `Sse.FeedIsReadAll` | src/vllm_source_gateway/services/proxy.py:406-412 | for text without CR CR LF, reading fragment by fragment is normalising once and splitting once |
| `Sse.ChunkIndependentIff` | src/vllm_source_gateway/services/proxy.py:406-412 | the raw text of the events together with the tail is the same for all ways of cutting a text exactly when the text does not contain CR CR LF |
| `SseUsage.ConsumeSseEvents` | src/vllm_source_gateway/services/proxy.py:398-434 | drops the buffer exactly when the normalised text exceeds the bound; otherwise leaves the unterminated tail and the usage of the last event that reports one |
| `SseUsage.CollectData` | src/vllm_source_gateway/services/proxy.py:413-416 | collects the values of the data lines in order, leading white space stripped |
| `Text.LinesRoundTrip` | src/vllm_source_gateway/services/proxy.py:414 | splitting at line feeds and joining again gives the text back, and no piece holds a line feed |
| `Text.LinesOfJoined` | src/vllm_source_gateway/services/proxy.py:414 | joining pieces without line feeds and splitting again gives the pieces back |
| `SseUsage.OneDataLine` | src/vllm_source_gateway/services/proxy.py:413-432 | an event with one data line among other lines reports what its value reports, white space after the colon left out; the end marker reports nothing |
| `SseUsage.TwoDataLines` | src/vllm_source_gateway/services/proxy.py:413-432 | two data lines, with other lines around them, are read as one payload joined by a line feed |
| `SseUsage.WithoutDataLines` | src/vllm_source_gateway/services/proxy.py:418-419 | an event without data lines reports nothing |
| `SseUsage.LastReported` | src/vllm_source_gateway/services/proxy.py:430-432 | the latest usage is that of the last event that reports one |
| `Text.WidthIsShortest` | src/vllm_source_gateway/services/proxy.py:408 | the size counted for a character is that of the shortest UTF-8 sequence with room for it (section 3 of RFC 3629) |
| `SseUsage.BoundIsInvisible` | src/vllm_source_gateway/services/proxy.py:408-434 | short of an overflow the bound changes nothing, and what is retained respects it and holds no complete event |
| `SseUsage.SameUsageForAnyCut` | src/vllm_source_gateway/services/proxy.py:398-434 | two cuttings that do not overflow leave the same tail and latest usage: those of the whole text |
| `SseUsage.CutsDoNotMatterIff` | src/vllm_source_gateway/services/proxy.py:398-434 | what the parser returns, tail and latest usage, is the same at each moment of a text for all ways of cutting it and all extractors, exactly when the text does not contain CR CR LF |
| `SseUsage.UsageDependsOnCuts` | src/vllm_source_gateway/services/proxy.py:398-434 | a failing family for the usage alone: any reported event followed by two line ends of CR CR LF is seen or missed depending on the cuts |
| `SseUsage.FinerCutsFit` | src/vllm_source_gateway/services/proxy.py:408-409 | cutting finer never introduces an overflow |
| `SseUsage.FlushChangesNothing` | src/vllm_source_gateway/services/proxy.py:586-601 | the final empty flush changes nothing |
| `Streaming.StreamBytes` | src/vllm_source_gateway/services/proxy.py:526-601 | yields an unchanged prefix of the upstream chunks, up to the disconnection, whatever the parser does; settles from the parser state over that prefix |
| `Streaming.MemoryIsBounded` | src/vllm_source_gateway/services/proxy.py:556-584 | after any chunks the retained text is within the bound and holds no complete event; parsing is on exactly while there is no parse error |
| `Streaming.DisabledForGood` | src/vllm_source_gateway/services/proxy.py:556-584 | once parsing is disabled no further chunk changes anything and no usage is charged however the stream ends |
| `Streaming.SettlesExactly` | src/vllm_source_gateway/services/proxy.py:586-665 | for every stream: usage is charged exactly when the client stays, the iteration ends without cancellation or upstream failure, everything decodes and fits the bound, the status is a success and the text reports a usage, and then it is the last one reported; it is a parse error exactly when the client stays, the iteration ends so, and something does not decode or fit |
| `Streaming.StateFollowsReader` | src/vllm_source_gateway/services/proxy.py:556-584 | the generator's parser state is that of the bounded reader over the decoded text |
| `Streaming.SettlesWithLastUsage` | src/vllm_source_gateway/services/proxy.py:586-665 | a stream that ends regularly, decodes and fits settles with the last usage of its whole text, however it was cut |
| `LifeCycle.SelectMeaning` | src/vllm_source_gateway/services/proxy.py:310-343 | within a step, routing takes a healthy upstream not yet attempted, and changes nothing exactly when there is none |
| `LifeCycle.GivesUpOnlyWhenExhausted` | src/vllm_source_gateway/services/proxy.py:486-519 | after a connect error a request moves to a healthy upstream it has not attempted, and gives up exactly when none is left at that moment |
| `LifeCycle.SelectionsAreBounded` | src/vllm_source_gateway/services/proxy.py:777-831 | in every run a request selects at most as often as its model has upstream names |
| `LifeCycle.EveryRequestConforms` | src/vllm_source_gateway/services/proxy.py:444-875 | in every interleaving: an ended request has released its lease once and a leaked one never; one accounting record exactly for returned responses, transport failures and finished streams; one retry event exactly for transport failures before a response and statuses of 500 or more; one selection per attempted name (charges: `ChargeSafety.ChargesFollowOutcomes`) |
| `ChargeSafety.EveryRequestStandsAsHeard` | src/vllm_source_gateway/services/proxy.py:526-601 | in every run, a request knows the status it received, and the parser of its body is in the state of having read the chunks received since the body started, up to the disconnection |
| `ChargeSafety.ChargesFollowOutcomes` | src/vllm_source_gateway/services/proxy.py:608-665 | in every run, the calls that charge a key are those of its outcomes, each with prompt plus generation of the usage received, and the model-level counter counts just the outcomes: a body that is not JSON or a stream not readable is a parse error, usage counts for 2xx answers only, anything else is missing usage |
| `ChargeSafety.ChargesMatchLedger` | src/vllm_source_gateway/services/proxy.py:117-164 | in every run a key is charged as often as the model-level counter has recorded usage for it |
| `ChargeSafety.FinishedStreamIsCharged` | src/vllm_source_gateway/services/proxy.py:652-665 | when a body ends in any run, its key is charged prompt plus generation of the last usage in the text received, exactly if it was received whole, is readable, and the status is 2xx |
| `RoutingSafety.SelectionsFollowCursor` | src/vllm_source_gateway/routing.py:142-177 | in every run, whichever requests select, the selections for a model start at its cursor, take the nearest eligible slot, send the request there and move the cursor one past it |
| `RoutingSafety.NoSlotStarves` | src/vllm_source_gateway/routing.py:153-177 | in every run a slot eligible in pool_size consecutive selections for its model is sent a request by one of them |
| `RoutingSafety.EnvironmentInEveryRun` | src/vllm_source_gateway/routing.py:115-140 | in every run health and clock are what health changes and ticks made them; requests change neither |
| `LifeCycle.EndedForGood` | src/vllm_source_gateway/services/proxy.py:608-610 | whatever happens afterwards, an ended request stays as it is and a leaked lease never comes back |
| `LifeCycle.LeaksExactlyWhen` | src/vllm_source_gateway/services/proxy.py:608-610 | in every run a request has leaked its lease exactly when some step cancelled it while it was streaming and its body had not started, or ended its body with a failing close |
| `LifeCycle.AbandonedLeaks` | src/vllm_source_gateway/services/proxy.py:738-766 | a run that leaks, for every gateway that serves and admits the request: the lease stays granted and unreleased whatever follows |
| `LeaseSafety.LeasesAccountedFor` | src/vllm_source_gateway/services/admission_control.py:187-205 | in every run and for any set of leases, the floored counter, the difference of grants and releases, and the number of requests holding such leases coincide |
| `LeaseSafety.ControllerCountsHolders` | src/vllm_source_gateway/services/admission_control.py:178-205 | a controller that has seen a balanced history holds, in its model counter, department counter and summed gauge, the numbers of requests holding leases; every run is balanced (`LeaseSafety.LeasesAccountedFor`), and `Replay.ReplayRun` puts the two together |
| `Replay.ReplayRun` | src/vllm_source_gateway/services/admission_control.py:100-257 | for every run: a new controller driven through the calls of the run has exactly the history of the run, answers every acquisition as in the run, and its counters and gauge count the requests holding leases |
| `BudgetSafety.EveryRunIsSound` | src/vllm_source_gateway/services/admission_control.py:138-185 | in every run: windowed total plus outstanding leases times C stays within the bound, and calls are in clock order |
| `BudgetSafety.RunsAreInClockOrder` | src/vllm_source_gateway/services/admission_control.py:104-109 | in every run acquisitions, charges and retry events reach admission control in clock order, and each acquisition is answered as the history before it demands |
| `BudgetSafety.OverspendBound` | config.example.yaml:43-51 | upper half, from the charges: with budget B, D the smaller of department and model limit, and charges of at most C, the windowed total never exceeds B - 1 + D * C, at any time of any run, leaked leases included |
| `BudgetTightness.ReportsBoundCharges` | src/vllm_source_gateway/services/proxy.py:854-867 | what bodies and stream events report bounds every charge of the run |
| `BudgetTightness.LeastBound` | config.example.yaml:43-51 | exactly which bounds hold: when upstreams report at most P prompt and G generation tokens, all runs stay within a bound if and only if there is a concurrency limit D and the bound is at least B - 1 + D * (P + G) |
| `BudgetTightness.NoCeilingNoBound` | config.example.yaml:43-51 | without a concurrency limit no bound on overspending holds |
| `BudgetTightness.OverspendIff` | config.example.yaml:43-51 | all runs stay within B - 1 + D * C if and only if no request is reported to cost more than C |
| `BudgetTightness.DocumentedBoundIff` | config.example.yaml:44-46 | the documented bound, concurrency times output cap on top of the budget, holds for all runs if and only if D * P <= 1, P being the most a prompt is charged |
| `BudgetSafety.OutputCapDoesNotBound` | config.example.yaml:44-46 | a concrete input at which the documented bound fails: budget 10, one request at a time, output cap 1, and 101 tokens spent; `BudgetTightness.DocumentedBoundIff` is the exact condition |
| `BudgetSafety.LimitsHoldInEveryRun` | src/vllm_source_gateway/services/admission_control.py:123-151 | in every run the requests holding leases never exceed the model limit nor the department limit |
| `LedgerSafety.LedgerInEveryRun` | src/vllm_source_gateway/services/proxy.py:97-177 | in every run: endpoint-level entries are as many as the accounted requests of the endpoint, model-level entries as many as the requests answered by an upstream, and the two levels differ by the transport failures alone, all under missing_usage |
| `LedgerSafety.ActAccounts` | src/vllm_source_gateway/services/proxy.py:608-665 | each step accounts at most one outcome, at both levels if there was a response and at the endpoint level as missing usage otherwise |
| `LedgerSafety.RetryEventsInEveryRun` | src/vllm_source_gateway/services/proxy.py:368-380 | in every run the retry events reported for a key are as many as its requests that failed before a response or were answered with 500 or more |
| `RequestMetrics.RequestState.Finalize` | src/vllm_source_gateway/request_metrics.py:88-127 | counts a request that is initialised, not yet recorded and has its context, in step with the history of counted requests; in any other case the counters keep their values |
| `RequestMetrics.GatewayMetrics.Observe` | src/vllm_source_gateway/metrics.py:139-205 | request, model and failure counters stay in step with the history of counted requests |
| `RequestMetrics.FirstFinalizationCounts` | src/vllm_source_gateway/request_metrics.py:88-127 | over any sequence of operations on a live request exactly the first finalisation counts, and only with department and endpoint set by then |
| `RequestMetrics.FinalizationCounts` | src/vllm_source_gateway/request_metrics.py:58-127 | what it counts, in terms of the operations before it: department, endpoint and model as last set; the status last given as override, or the default; the origin last set, or the gateway for an error status; and the time since initialisation |
| `RequestMetrics.CountersTellHistory` | src/vllm_source_gateway/metrics.py:139-205 | each counter at each label is the number of counted requests with just that department, endpoint, method, status class and model, or error status and origin |
| `RequestMetrics.FailuresAreRequests` | src/vllm_source_gateway/metrics.py:186-205 | for any selection of labels, failures summed over origins are the requests minus those without an error status |
| `RequestMetrics.FailuresByClass` | src/vllm_source_gateway/metrics.py:20-25 | failures equal the 4xx requests exactly, and the 5xx requests minus those below 400 that were classed 5xx; there are none among the 2xx requests |
| `RequestMetrics.FailuresMatchIff` | src/vllm_source_gateway/metrics.py:20-25 | the failures of class 5xx are the requests of that class exactly when every status is a success or an error |
| `RequestMetrics.RedirectIsNoFailure` | src/vllm_source_gateway/metrics.py:20-25 | a status of 302 counts as one 5xx request and no failure |
| `RequestMetrics.GatewayMetrics.FailuresAreConserved` | src/vllm_source_gateway/metrics.py:139-205 | the counters themselves satisfy these equations after any sequence of finalisations, and count each request once |

## Left out

- HTTP clients, the web framework and dependency injection: calls to an upstream are
  nondeterministic outcomes (connect error, other transport error, other exception, or a status
  with a body or chunks).
- `services/upstream_health.py`: probing appears as a step that sets the health of any upstream at
  any time.
- JSON parsing and the usage extractors: together one function from the text of an event to an
  optional pair of counts, so an extractor that raises on a payload that is not an object is
  outside the streaming model; for a non-streaming response it is the `Unusable` body.
- The incremental UTF-8 decoder: each chunk carries the text that decoding it yields, or a failure.
- Rejection counters, histograms, selection durations, logging and error texts: they record and do
  not influence anything.
- Header filtering, reading and size checks of the body, extraction of the API key, and the policy
  for unknown callers: single branches before admission.
- The order in which models and snapshots are listed, and the readiness payload besides its status.
- Normalisation of single configuration fields, environment variables and YAML: admission lists,
  API keys and model names come in normalised; department names are stripped in the model.
- Upper-casing of the HTTP method in metric labels: methods come in upper case.
- The finite precision of Python floats in clock arithmetic.
- The catalog pages, the command-line tools and the deployment files: no shared state.
- More than one worker process: the state is process-local by contract.
- AdmissionController.AdmissionController.RecordRetryEvent: asks that the clock reading is not before
  earlier events of the key, because the source reads that clock inside its lock; `Acquire` and
  `RecordTokens`, which read it outside, take any reading.
- Failover.ProxyWithFailover: models the loop shared by the streaming and the non-streaming path once;
  other exceptions than transport errors are in `LifeCycle` only.
- LifeCycle.EveryRequestConforms: requests for unknown models, and payloads refused for their shape,
  end before admission and are not requests of the step system.
