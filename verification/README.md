# Verified models of Lirix's stateful cores

Lirix puts a pipeline of checks between an agent and a chain: it validates a transaction draft (L1-L3),
agrees on a block height over several RPC endpoints (L4), simulates the draft (L5), audits the result, and
keeps a replayable record of everything in a session. This project models the parts of that pipeline that
carry state or recursion, and proves what they promise.

| file | what it models |
|---|---|
| `AbiCache.dfy` | the two-level ABI cache: an LRU order in memory over a persistent table, with expiry |
| `Statuses.dfy`, `SessionFsm.dfy`, `Session.dfy` | status aggregation, the append guard, the session recorder |
| `Replay.dfy`, `ReplayGuarantees.dfy` | replay bundles, their checker, and how recorder and checker agree |
| `CircuitBreaker.dfy`, `RpcManager.dfy` | breaker bookkeeping under overlapping rounds; height reconciliation |
| `Quorum.dfy`, `Retry.dfy` | the two-thirds vote and the bounded retry of the quorum provider |
| `Calldata.dfy`, `V3Path.dfy`, `DefiParser.dfy` | selectors and codec, packed swap paths, the L3 parser with its two batch walkers |
| `BatchTree.dfy`, `AddressSafety.dfy` | batches as trees of calls; what acceptance says about every address in the tree |
| `RawCalldata.dfy` | acceptance and its reasons byte by byte: which calls a batch holds, and every address they name |
| `MulticallEncoder.dfy` | packing transactions into one Multicall3 call |
| `Hooks.dfy`, `HookFold.dfy` | judging hook results; which patches reach the payload |
| `Pipeline.dfy` | the full pipeline: hook points, two passes of three checks with a hook round after each, the stages that use the draft, the record |
| `PipelineGuarantees.dfy`, `LegacyGuarantees.dfy` | what every run guarantees about the draft, under a contract and in legacy mode |
| `RunVerdicts.dfy` | which verdicts a run depends on, and what it logs |
| `FatalHooks.dfy` | which hook results end a run, and which decide nothing |
| `SafeRuns.dfy` | parser and pipeline together: what the simulated calldata can touch |
| `PipelineRecord.dfy` | what every run leaves in its session |
| `ConfigAuthority.dfy`, `ConfigSources.dfy` | configuration precedence and provenance tags |
| `ClassGraph.dfy` | alias chasing and subtree closure of the exception-lattice gate |

What the code mutates is a class here (`AbiLRUCache`, `ValidationSession`, `RPCManager`, `HookManager`,
`PayloadDict`, `Collected`, `Resolution`), and loops are loops. Each method is proved against a function of
values, and the lemmas are about those functions: over whole runs, over every interleaving, over every tree
of nested calls. `dafny verify dfyconfig.toml` checks the project.

Some promises turn out not to hold as the code or its comments suggest. Each is stated exactly:

- The guard looks at the last 25 timeline items only, so a finalize event recorded directly
  (`record_event("finalize")`) can slip out of its sight: `EventKeepsOrderIff` gives the exact condition and
  `BareFinalizeEscapesTheGuard` a family of runs that end with two finalize events.
- The cooldown suggests that an open endpoint comes back after sixty seconds. It comes back if and only if the
  breakers are reset, or a round that was already under way and asked it records a success of it at or after
  the end of its cooldown (`RecoversExactlyWhen`). So it never does when no other round was asking it
  (`NoRoundNoRecovery`), in particular with one round at a time (`NoRecoveryWithoutOverlap`);
  `OverlapCanRecover` is a run in which it does.
- The asynchronous round is documented as equal to the synchronous one. The decision is. The remembered last
  error is the same exactly as `SlotsAgree` says (`SyncAndAsyncAgree`): it differs when too few endpoints
  report and the slot does not already hold these very failures, texts included (`LastErrorsDiffer`), and when
  a tolerated round lists the failures of a class in the order they came in (`FailuresListedInOtherOrder`).
- Outside a batch two of the three V2 swap selectors are accepted on their target alone (`TopLevelV2Swap`),
  even at the router with no minimum and a block-listed recipient (`RouterCallGoesUndecoded`). V3 and Merchant
  Moe swaps must go to the router outside a batch (`TopLevelOtherSwap`), but not inside a plain one: the
  exact condition is `BatchAcceptance`, and `BatchedV3GoesAnywhere` gives the accepted batches.
- The second pass of checks exists so that only a checked draft is simulated. Under a contract that holds
  (`ValidatedIsSimulated`). In legacy mode the callbacks after each check are handed the live draft: whatever
  the checks, a draft none of them was given can reach the simulator (`LegacyRunsUncheckedDraft`), and
  `LegacyIsSafeExactlyWhen` says for which checks and callbacks it cannot.
- A fatal hook result is entered at every point, but ends the run only at the four points of the pipeline and
  at the intent check's (`FatalResultEndsRun`); elsewhere it decides nothing (`UnreadResultsDecideNothing`),
  and `ApprovedDespiteRejection` is an enforced run approved with a fatal rejection of its draft on record.
- A pipeline failure is recorded unless its layer is blank (`RunShape`); `BlankLayerLeavesNoRecord` shows a
  callback whose security exception leaves the session open and empty.

Assumptions about what lies outside: fetches, stages, callbacks and plugins are arbitrary functions of what
they are shown; stages and plugins do not write to the draft, and callbacks write to it only where they are
handed it live, in legacy mode; the clock is a parameter of each call; the digest is any
function, collision-free only where a lemma says so; the ABI codec is any pair of partial functions, with
decode inverting encode only where a lemma says so (`RoundTrips`).

## Model

| member | source | states |
|---|---|---|
| `AbiCache.AbiLRUCache.Get` | lirix/layers/l3_proxy_piercer.py:88-114 | an open cache answers what the expiring map of all earlier calls answers, keeps the two-level invariant and changes exactly what the hit or miss branch changes; a closed one refuses and changes nothing |
| `AbiCache.AbiLRUCache.Set` | lirix/layers/l3_proxy_piercer.py:116-139 | writes both levels with one expiry, makes the key most recent, trims from the old end; keeps the invariant |
| `AbiCache.AbiLRUCache.Invalidate` | lirix/layers/l3_proxy_piercer.py:141-145 | forgets the key on both levels and in the touch records; keeps the invariant |
| `AbiCache.AbiLRUCache.InvalidateStale` | lirix/layers/l3_proxy_piercer.py:147-150 | a sweep of an open cache drops exactly the expired keys from both levels; keeps the invariant |
| `AbiCache.AbiLRUCache.Sweep` | lirix/layers/l3_proxy_piercer.py:188-199 | collecting stale keys from memory alone and deleting stale rows leaves both levels without any stale key |
| `AbiCache.AbiLRUCache.TrimMemory` | lirix/layers/l3_proxy_piercer.py:184-186 | the loop keeps exactly the newest entries up to the limit |
| `AbiCache.AbiLRUCache.Touch` | lirix/layers/l3_proxy_piercer.py:208-215 | a touch less than one interval after the last is swallowed; otherwise record and row are updated |
| `AbiCache.AbiLRUCache.Purge` | lirix/layers/l3_proxy_piercer.py:231-235 | the key leaves memory, touch records and table |
| `AbiCache.AbiLRUCache.Lookup` | lirix/layers/l3_proxy_piercer.py:92-114 | memory first, then table: a hit exactly when an unexpired row exists |
| `AbiCache.AbiLRUCache.Close` | lirix/layers/l3_proxy_piercer.py:152-160 | closing keeps the contents and is permanent |
| `AbiCache.TableAnswers` | lirix/layers/l3_proxy_piercer.py:100-113 | under the invariant the table answers as the expiring map |
| `AbiCache.ReadKeeps` | lirix/layers/l3_proxy_piercer.py:88-114 | a read keeps table faithfulness, memory backing and recency order, whether it hits, promotes, misses or purges |
| `AbiCache.WriteKeeps` | lirix/layers/l3_proxy_piercer.py:116-139 | a write keeps all three parts of the invariant |
| `AbiCache.InvalidateKeeps` | lirix/layers/l3_proxy_piercer.py:141-145 | so does an invalidation |
| `AbiCache.SweepKeeps` | lirix/layers/l3_proxy_piercer.py:188-206 | so does a sweep by a caller or the janitor |
| `AbiCache.RunKeeps` | lirix/layers/l3_proxy_piercer.py:88-150 | the invariant holds after every sequence of calls with a non-decreasing clock |
| `AbiCache.RunsAnswerAsOneMap` | lirix/layers/l3_proxy_piercer.py:88-150 | after every such sequence the cache answers as one expiring map that never evicts, purges or sweeps, within the memory limit |
| `AbiCache.ResidentsAreMostRecent` | lirix/layers/l3_proxy_piercer.py:92-139 | a stored key that is not resident was last used before every resident key: evictions take the least recently used |
| `AbiCache.AnswerByLastChange` | lirix/layers/l3_proxy_piercer.py:88-145 | the expiring map answers exactly while the last call that changed the key was a write not yet expired; an entry is gone from the second it expires |
| `AbiCache.HitLeaves` | lirix/layers/l3_proxy_piercer.py:92-114 | a memory hit rewrites the touch time of its row unless touched less than one interval ago; a table hit loads the entry and leaves the table as it is; no other row changes |
| `AbiCache.MissLeaves` | lirix/layers/l3_proxy_piercer.py:92-109 | a read that misses takes the key from both levels |
| `AbiCache.OtherCallsLeave` | lirix/layers/l3_proxy_piercer.py:116-199 | a write leaves one row expiring a lifetime later, an invalidation nothing of the key, a sweep exactly the rows not expired |
| `Statuses.AggregateStatuses` | lirix/core/status_aggregation.py:13-30 | the early-exit loop returns the name of the precedence maximum |
| `Statuses.AggregateIsMostSevere` | lirix/core/status_aggregation.py:5-18 | the aggregate is attained by some input and outranked by none; unknown tokens count as info |
| `Statuses.AggregateConcat` | lirix/core/status_aggregation.py:13-30 | aggregating in stages equals aggregating at once |
| `Statuses.AggregateIgnoresOrder` | lirix/core/status_aggregation.py:13-30 | the aggregate depends on the multiset of statuses only |
| `Statuses.AggregateByTokens` | lirix/core/status_aggregation.py:5-30 | token by token: "rejected" if there is one, else "degraded", else "ok", else "info", white space stripped |
| `SessionFsm.SessionWorkflowEventsSeen` | lirix/core/session_fsm.py:22-32 | the loop returns exactly the tracked event types present |
| `SessionFsm.TailEventTypes` | lirix/core/session_fsm.py:41-51 | the event types of the last 25 items, newest first |
| `SessionFsm.ValidateAppend` | lirix/core/session_fsm.py:64-122 | the guard raises exactly the first rule the append would break |
| `SessionFsm.GuardByNames` | lirix/core/session_fsm.py:64-122 | the guard by event names: a finalised session takes annotations only; a strict one wants plan, draft, tool_call, decision, finalize in this order; after a finalize event among the last 25 items no workflow event and no second finalize |
| `Session.ValidationSession.RecordTrace` | lirix/core/session.py:418-490 | state and error are those of the step function: lifecycle, timeline and aggregated outcome |
| `Session.ValidationSession.RecordEvent` | lirix/core/session.py:492-531 | checks in the source's order, then append, decision state in strict mode, outcome |
| `Session.ValidationSession.RecordDecision` | lirix/core/session.py:575-598 | strict sessions need plan and draft first; the verdict fixes the status |
| `Session.ValidationSession.BindExecutionPlan` | lirix/core/session.py:540-548 | sets the plan, then records it as an event, which may still be refused |
| `Session.ValidationSession.Finalize` | lirix/core/session.py:600-608 | records the event and finalises only if the event was accepted |
| `Session.ValidationSession.LinkTrace` | lirix/core/session.py:156-160 | adds a non-empty new correlation id; refused after finalisation |
| `Session.OutcomeOverRuns` | lirix/core/session.py:489-490 | after any run the outcome is the aggregate of every status recorded |
| `Session.OutcomeIsMostSevere` | lirix/core/session.py:530-531 | a fresh session ends with the most severe status recorded, and the outcome never decreases |
| `Session.OutcomeIgnoresOrder` | lirix/core/session.py:451-459 | runs that recorded the same statuses in any order and grouping end with one outcome |
| `Session.FinalizedOnlyAnnotates` | lirix/core/session_fsm.py:72-78 | a finalised session stays finalised, its timeline only grows, and only by annotations |
| `Session.TraceIsRecorded` | lirix/core/session.py:418-490 | when a trace is refused, and the one record it leaves, under its own digest and worst step, in a running session |
| `Session.EventIsRecorded` | lirix/core/session.py:492-531 | when an event is refused for type or status, and what it leaves, the decision state of a strict session included |
| `Session.DecisionIsRecorded` | lirix/core/session.py:575-598 | the prerequisites, the three verdicts with their statuses, and the recorded verdict, rationale and details |
| `Session.FinalizeIsRecorded` | lirix/core/session.py:600-608 | the finalize event with outcome and notes, and the end of the session; a refusal changes nothing |
| `Session.PlanAndLinkAreRecorded` | lirix/core/session.py:156-160 | a plan is kept even when its event is refused; an id is linked once |
| `Replay.ReplayBundle` | lirix/core/session.py:204-286 | the bundle of a state, or the drift error when two traces disagree on fingerprint or closure digest |
| `Replay.BundleCarries` | lirix/core/session.py:186-286 | the bundle carries the metadata of the last trace by index, absent maps read as empty, the session field by field, the number of its items and of its decision events, and the digest of all that |
| `Replay.CheckTimeline` | lirix/core/session.py:682-728 | the scan with its flags accepts exactly the timelines that are well typed, finalise at most once and last, and in strict mode have their prerequisites |
| `Replay.VerifyReplayBundle` | lirix/core/session.py:627-851 | no error exactly when the bundle is acceptable in the declarative sense |
| `Replay.DigestsByNames` | lirix/core/session.py:760-841 | the digest checks by name: sixty-four hexadecimal digits, the four artifact names or an ext_ prefix, and the four registry entries a strict proof needs |
| `Replay.StrictOrderByNames` | lirix/core/session.py:682-728 | the strict order by event names |
| `ReplayGuarantees.EventKeepsOrderIff` | lirix/core/session_fsm.py:41-51 | an accepted event keeps the timeline in order if and only if no finalize event lies beyond the tail the guard sees |
| `ReplayGuarantees.RunKeepsRecorded` | lirix/core/session.py:156-608 | every run whose finalize events come from finalize() keeps the recorder invariant |
| `ReplayGuarantees.RecordThenVerify` | lirix/core/session.py:204-286 | the bundle of any such run is accepted if and only if its digests are well formed and, when strictness is enforced on a lax session, its prerequisites are met |
| `ReplayGuarantees.WellFormedRunsAreAccepted` | lirix/core/session.py:627-851 | with well-formed metadata every such run's bundle is accepted, strictly so for agent sessions |
| `ReplayGuarantees.StrictAcceptanceIsSound` | lirix/core/session.py:682-728 | in a strictly accepted bundle every event has its whole prerequisite chain before it, at most one finalize, and only annotations after it |
| `ReplayGuarantees.EqualDigestsEqualBundles` | lirix/core/session.py:842-851 | what the digest comparison is worth: since an accepted bundle carries the digest of its fields, a collision-free digest makes equal digests mean equal fields and counters (a direct consequence, not a main result) |
| `ReplayGuarantees.BareFinalizeEscapesTheGuard` | lirix/core/session.py:492-531 | a directly recorded finalize event followed by 25 or more annotations lets a second one in, and the bundle is rejected |
| `CircuitBreaker.OpenIffThreshold` | lirix/layers/l4_rpc_manager.py:223-228 | in every interleaving of rounds and resets an endpoint is open exactly when it has three or more counted failures |
| `CircuitBreaker.FailuresAreCounted` | lirix/layers/l4_rpc_manager.py:223-331 | the count is the number of failing readings since the last success at or after the end of the cooldown, whether the endpoint was open or closed |
| `CircuitBreaker.OpensExactlyWhen` | lirix/layers/l4_rpc_manager.py:223-228 | a closed endpoint opens at a reading if and only if it fails and is at least the third failure in that stretch |
| `CircuitBreaker.CooldownAfterLastTrip` | lirix/layers/l4_rpc_manager.py:223-228 | the cooldown ends sixty seconds after the last failing reading that left the endpoint open |
| `CircuitBreaker.RunCountsFailures` | lirix/layers/l4_rpc_manager.py:90-240 | over every interleaving of rounds and resets: the count, and being open, are what the readings since the last reset and the last clearing say |
| `CircuitBreaker.OpeningStartsCooldown` | lirix/layers/l4_rpc_manager.py:223-228 | the reading that opens an endpoint is its third failure and starts a full cooldown |
| `CircuitBreaker.ClosedOnlyAfterCooldown` | lirix/layers/l4_rpc_manager.py:327-331 | an endpoint opened at time t is closed only by a reset or by a success recorded at t+60 or later, however rounds overlap |
| `CircuitBreaker.EligibleAreClosed` | lirix/layers/l4_rpc_manager.py:220-221 | the eligible endpoints are exactly the configured ones that are not open |
| `CircuitBreaker.EligibleInOrder` | lirix/layers/l4_rpc_manager.py:220-221 | they stand in the configured order |
| `CircuitBreaker.SequentialRun` | lirix/layers/l4_rpc_manager.py:338-352 | with one round at a time the open set only grows between resets |
| `CircuitBreaker.NoRecoveryWithoutOverlap` | lirix/layers/l4_rpc_manager.py:327-352 | so once every endpoint is open no further round starts, whatever the cooldown |
| `CircuitBreaker.OverlapCanRecover` | lirix/layers/l4_rpc_manager.py:327-331 | two overlapping rounds can open and, after the cooldown, close an endpoint |
| `CircuitBreaker.ReadingsCloseExactlyWhen` | lirix/layers/l4_rpc_manager.py:327-331 | the readings of one round close an open endpoint if and only if they hold a success of it at or after the end of its cooldown |
| `CircuitBreaker.StepClosesExactlyWhen` | lirix/layers/l4_rpc_manager.py:90-100 | one event closes an open endpoint if and only if it is a reset or such a record |
| `CircuitBreaker.RecoversExactlyWhen` | lirix/layers/l4_rpc_manager.py:220-240 | in every interleaving an open endpoint closes at some time if and only if there is a reset, or a round in flight from the start that asked it records such a success |
| `CircuitBreaker.NoRoundNoRecovery` | lirix/layers/l4_rpc_manager.py:220-240 | an endpoint that opens while no round is asking it stays open until a reset |
| `RpcManager.RPCManager.PrepareReconcile` | lirix/layers/l4_rpc_manager.py:338-352 | lists the closed endpoints in order, or the error for no endpoints or all open |
| `RpcManager.RPCManager.RecordTransportFailure` | lirix/layers/l4_rpc_manager.py:223-228 | counts the failure and opens at the threshold |
| `RpcManager.RPCManager.RecordTransportSuccess` | lirix/layers/l4_rpc_manager.py:327-331 | resets the endpoint unless it is cooling down |
| `RpcManager.RPCManager.RecordOutcome` | lirix/layers/l4_rpc_manager.py:230-240 | one update per eligible endpoint, in order |
| `RpcManager.RPCManager.ResetCircuitBreakers` | lirix/layers/l4_rpc_manager.py:90-100 | everything back to the initial state |
| `RpcManager.RPCManager.SelectBest` | lirix/layers/l4_rpc_manager.py:333-336 | the pass returns the highest endpoint, last in URL order among equals |
| `RpcManager.RPCManager.Collect` | lirix/layers/l4_rpc_manager.py:372-385 | results in arrival order become heights and failures, with the quota test |
| `RpcManager.RPCManager.Settle` | lirix/layers/l4_rpc_manager.py:387-466 | a quota error abandons the round before anything is recorded; otherwise every result reaches its breaker and the decision is the declarative one |
| `RpcManager.RPCManager.SyncReconcile` | lirix/layers/l4_rpc_manager.py:367-485 | the synchronous round: decision, breaker, binding and last error, with the text of each failure and the classes in the order the results came in |
| `RpcManager.RPCManager.AsyncReconcile` | lirix/layers/l4_rpc_manager.py:497-607 | the same for outcomes in endpoint order, with its own last-error rule |
| `RpcManager.RPCManager.Conclude` | lirix/layers/l4_rpc_manager.py:410-466 | threshold, spread, choice and last error, in that order |
| `RpcManager.RequiredSuccessesBounds` | lirix/layers/l4_rpc_manager.py:242-251 | the threshold is the least number of reports meeting every configured bound, between one and the number eligible |
| `RpcManager.DecisionIsUnique` | lirix/layers/l4_rpc_manager.py:410-443 | the outcomes leave no choice of verdict |
| `RpcManager.ChosenExactlyWhen` | lirix/layers/l4_rpc_manager.py:410-443 | an endpoint is chosen exactly when no quota error came in, enough reported and no two reports lie more than two blocks apart |
| `RpcManager.LexByFirstDifference` | lirix/layers/l4_rpc_manager.py:333-336 | the URL order: the first differing character decides, a prefix comes first |
| `RpcManager.ChosenMeetsTheBound` | lirix/layers/l4_rpc_manager.py:410-466 | a successful round has enough reports, all within two of the returned maximum, reported by the last URL that attains it |
| `RpcManager.SyncAndAsyncAgree` | lirix/layers/l4_rpc_manager.py:367-607 | on equal outcomes both variants decide alike; their last errors agree if and only if a quota error came in; or too few reported and the slot held these failures with these texts; or enough did and the spread was exceeded, every report was required, or each class of failures completed in the order of the endpoints |
| `RpcManager.LastErrorsDiffer` | lirix/layers/l4_rpc_manager.py:400-425 | one refused endpoint of two: the synchronous round stores who failed and how, the asynchronous one keeps whatever was there, so they differ even where the slot held an earlier failure of that endpoint |
| `RpcManager.FailuresListedInOtherOrder` | lirix/layers/l4_rpc_manager.py:464-474 | a tolerated round whose two slots list the same failures in different orders, whatever was there before |
| `RpcManager.RPCManager.ClassifyErrors` | lirix/layers/l4_rpc_manager.py:253-272 | the loop sorts the failures into quota, time-out, transport and other, keeping their order, quota being known by the text |
| `RpcManager.ClassMembers` | lirix/layers/l4_rpc_manager.py:253-272 | an endpoint is in a class exactly when it failed that way, quota by text first, then the kind of the error |
| `RpcManager.QuotaByText` | lirix/layers/l4_rpc_manager.py:315-318 | either text, anywhere in the message, makes a quota error |
| `RpcManager.RoundIsEvent` | lirix/layers/l4_rpc_manager.py:230-240 | what a settled round does to the breakers is an enabled event of the interleaving model: its readings name exactly the endpoints the round prepared, or it gives up on a quota error |
| `Quorum.Group` | lirix/layers/l4_rpc_manager.py:855-859 | the loop groups exactly the voters of each digest, keys in first-appearance order |
| `Quorum.QuorumVote` | lirix/layers/l4_rpc_manager.py:855-870 | the vote is one that `VoteOf` allows: a consensus has two thirds of all answers, rounded up; without one no digest has |
| `Quorum.TwoThirds` | lirix/layers/l4_rpc_manager.py:861-863 | the required votes are the least number that is two thirds of all |
| `Quorum.VotersInOrder` | lirix/layers/l4_rpc_manager.py:855-859 | the voters of a digest stand in answering order |
| `Quorum.GroupsPartitionAnswers` | lirix/layers/l4_rpc_manager.py:855-859 | the groups side by side are a rearrangement of the endpoints |
| `Quorum.QuorumIsUnique` | lirix/layers/l4_rpc_manager.py:861-863 | no two digests can both reach the required votes |
| `Quorum.HonestQuorum` | lirix/layers/l4_rpc_manager.py:861-863 | a digest other than the honest one needs two thirds faulty; with at most a third faulty the honest digest has the votes and no other has |
| `Quorum.HonestVote` | lirix/layers/l4_rpc_manager.py:855-870 | so with at most a third faulty, whatever they answer, every allowed vote is a consensus on the honest digest by exactly its voters |
| `Quorum.OneMoreFaultBlocks` | lirix/layers/l4_rpc_manager.py:861-863 | one more faulty endpoint can block the vote: the bound is tight |
| `Retry.RetryCall` | lirix/layers/l4_rpc_manager.py:782-809 | the verdict is that of the first attempt that succeeds, may not be repeated or leaves no room for its pause; the code after the loop is unreachable |
| `Retry.AttemptEndsExactlyWhen` | lirix/layers/l4_rpc_manager.py:782-797 | an attempt ends the call exactly when it succeeds, its error is not one of the three retryable kinds, it is the third, or the doubled pause would pass five seconds |
| `Retry.EndsAs` | lirix/layers/l4_rpc_manager.py:798-806 | time-outs, and any error after five seconds, end as a time-out; other errors are raised as they are |
| `Retry.PausesFitTheBudget` | lirix/layers/l4_rpc_manager.py:782-809 | the pauses together never exceed five seconds |
| `Calldata.SelectorRoundTrip` | lirix/core/signatures.py:11-29 | the selectors are pairwise different, so an encoded call is read as what it is |
| `V3Path.PackThenCollect` | lirix/layers/l3_defi_parser.py:457-480 | packing any n+1 addresses with n fees passes the length checks and yields exactly those addresses |
| `V3Path.PackedAddress` | lirix/layers/l3_defi_parser.py:457-480 | address k of a packed route lies at offset 23k |
| `V3Path.CheckedPathsArePacked` | lirix/layers/l3_defi_parser.py:457-480 | every path that passes the checks is the packing of a route |
| `DefiParser.DeFiPayloadParser.CollectV3PathAddresses` | lirix/layers/l3_defi_parser.py:457-480 | the offset loop reads whole fields in bounds at 0, 23, 46, ... and adds exactly those addresses |
| `DefiParser.DeFiPayloadParser.AccumulateSwap` | lirix/layers/l3_defi_parser.py:409-429 | recipient and route, or the error for undecodable data or a zero minimum |
| `DefiParser.DeFiPayloadParser.AccumulateV3Swap` | lirix/layers/l3_defi_parser.py:431-455 | the same for V3, with zero input and malformed paths refused |
| `DefiParser.DeFiPayloadParser.AccumulateMoeSwap` | lirix/layers/l3_defi_parser.py:482-512 | the same for Merchant Moe |
| `DefiParser.DeFiPayloadParser.WalkMulticall` | lirix/layers/l3_defi_parser.py:271-340 | terminates on every call tree; result and growth of the shared set are those of the recursive walk |
| `DefiParser.DeFiPayloadParser.WalkMulticallValue` | lirix/layers/l3_defi_parser.py:342-407 | the same for batches with values, which support fewer calls |
| `DefiParser.DeFiPayloadParser.Validate` | lirix/layers/l3_defi_parser.py:86-193 | the verdict: the first error in source order, or none, through field checks, short payloads and plugins; the hook round that follows an acceptance is a step of the pipeline model |
| `DefiParser.DeFiPayloadParser.ValidateBuiltIn` | lirix/layers/l3_defi_parser.py:158-261 | the verdict of the built-in path: targets, routing checks, decoding, address lists |
| `DefiParser.DeFiPayloadParser.EnforceAddresses` | lirix/layers/l3_defi_parser.py:514-528 | the two passes refuse exactly the sets with a block-listed address or, given an allow list, one not on it |
| `BatchTree.WalkIsExact` | lirix/layers/l3_defi_parser.py:271-407 | at every depth a walk succeeds if and only if the batch decodes, the depth limit holds and every call in the tree is in order, and it then collects exactly the addresses the calls involve |
| `BatchTree.AtMostSixLevels` | lirix/core/signatures.py:39 | no call of a batch in order lies in more than six nested batches |
| `AddressSafety.BatchAcceptance` | lirix/layers/l3_defi_parser.py:194-261 | a batch is accepted if and only if it targets Multicall3, its whole call tree is in order and every address involved is allowed |
| `AddressSafety.AcceptedBatchIsSafe` | lirix/layers/l3_defi_parser.py:514-528 | an accepted batch touches no block-listed address at any depth and, given an allow list, only listed ones |
| `AddressSafety.EnforcedMeansAllowed` | lirix/layers/l3_defi_parser.py:514-528 | passing the two address passes means every address is allowed |
| `AddressSafety.TopLevelV2Swap` | lirix/layers/l3_defi_parser.py:194-233 | outside a batch only swapExactTokensForTokens is decoded; the other two V2 selectors are judged by their target, wherever it is |
| `AddressSafety.RouterCallGoesUndecoded` | lirix/layers/l3_defi_parser.py:194-233 | at an allowed router every call of the two other V2 selectors is accepted, even one that would decode to a zero minimum and a block-listed recipient |
| `AddressSafety.TopLevelOtherSwap` | lirix/layers/l3_defi_parser.py:164-260 | V3 and Moe calls outside a batch are accepted exactly at the router, with minimum and input, and an allowed route |
| `AddressSafety.BatchedV3GoesAnywhere` | lirix/layers/l3_defi_parser.py:298-340 | a plain batch of one V3 swap with allowed addresses is accepted wherever the swap is addressed, while the same call outside a batch is refused away from the router |
| `AddressSafety.OtherCall` | lirix/layers/l3_defi_parser.py:156-185 | unknown selectors pass exactly on an allowed target that is neither router nor Multicall3 |
| `AddressSafety.TargetOnly` | lirix/layers/l3_defi_parser.py:100-155 | empty and short payloads and plugin-claimed calls are judged by their target alone |
| `AddressSafety.AcceptedPayloadIsSafe` | lirix/layers/l3_defi_parser.py:86-261 | the target of every accepted payload is allowed and, unless a plugin decoded it, so is everything the parser decodes from its calldata, at any depth |
| `RawCalldata.SelectorsByBytes` | lirix/core/signatures.py:11-29 | the eight selectors, byte for byte |
| `RawCalldata.CanonicalTargets` | lirix/layers/l3_defi_parser.py:52-84 | configured targets first, then the main-network addresses, then the chain adapter |
| `RawCalldata.WalkCollectsNames` | lirix/layers/l3_defi_parser.py:271-407 | by the bytes of the calls: a walk succeeds exactly when every call at every depth is one of the six kinds allowed there, and collects exactly targets, recipients and every token of every route |
| `RawCalldata.RawCallAcceptance` | lirix/layers/l3_defi_parser.py:156-261 | the exact rules for every call no plugin claims, by its bytes |
| `RawCalldata.AcceptedExactlyWhen` | lirix/layers/l3_defi_parser.py:86-261 | the exact rules for every payload, the first claiming plugin included |
| `RawCalldata.AcceptedRoutesAreAllowed` | lirix/layers/l3_defi_parser.py:427-429 | in an accepted batch every V2 or Moe swap at any depth has target, recipient and every route token off the block list and on the allow list |
| `RawCalldata.WalkReason` | lirix/layers/l3_defi_parser.py:271-512 | a refused batch gives the reason of its depth, its bytes, or its first call with something wrong |
| `RawCalldata.ReasonGiven` | lirix/layers/l3_defi_parser.py:86-261 | the reason given for a payload, in the order in which the parser looks |
| `RawCalldata.ListReason` | lirix/layers/l3_defi_parser.py:514-528 | which of the two lists refuses |
| `MulticallEncoder.MulticallEncoder.EncodeTransactions` | lirix/core/multicall.py:21-140 | the first offending transaction and its reason, the outer-value mismatch, an encoder refusal, or the packed call |
| `MulticallEncoder.MulticallEncoder.SumValues` | lirix/core/multicall.py:91-106 | the sum of the values, and whether all are zero |
| `MulticallEncoder.EncodeThenDecode` | lirix/core/multicall.py:91-140 | decoding gives back the calls in order, none allowing failure, their values adding up to the outer value; the plain form is used exactly when that is zero |
| `MulticallEncoder.EncodedAsGiven` | lirix/core/multicall.py:21-140 | from the transactions as given: the encoded call decodes to one call per transaction, in order, with its target, its bytes and its value, and the sum of the values given |
| `MulticallEncoder.ProblemExactlyWhen` | lirix/core/multicall.py:30-90 | which transactions are refused, and for what |
| `MulticallEncoder.EncodeThenWalk` | lirix/core/multicall.py:91-140 | a successful walk of a packed call collects Multicall3 and every target |
| `MulticallEncoder.TransfersAreAccepted` | lirix/layers/l3_defi_parser.py:292-297 | packed plain transfers are accepted exactly when Multicall3 and every target are allowed |
| `Hooks.PatchAppliesExactlyWhen` | lirix/core/hook_manager.py:277-419 | a patch reaches the payload exactly when it targets the payload, at a patching point, outside shadow mode, and under enforcement only from a well-formed call |
| `Hooks.BlocksExactlyWhen` | lirix/core/hook_manager.py:277-419 | a judged result is entered as a fatal error exactly under enforcement for stray patches, fatal rejections, foreign values and missing fields; what acts on the entry is `FatalHooks.FatalResultEndsRun` |
| `Hooks.RejectsExactlyWhen` | lirix/core/hook_manager.py:349-354 | a rejection is a decision at level fatal whose status spells reject, rejected or blocked in any case |
| `Hooks.StrayPatchEntered` | lirix/core/hook_manager.py:290-348 | the entry made of a patch on something else, or where none is taken, mode by mode |
| `Hooks.OtherResultEntered` | lirix/core/hook_manager.py:349-419 | the entry made of every other result, mode by mode |
| `Hooks.NoValueEntered` | lirix/core/hook_manager.py:489-566 | what a round enters for a coroutine it cannot await, a time-out and an exception, and which exception escapes |
| `Hooks.FieldsByPoint` | lirix/core/constants.py:69-80 | the fields each point must be called with |
| `Hooks.PayloadDict.Apply` | lirix/core/hook_contract.py:76-83 | key by key, the updates override the payload |
| `Hooks.HookManager.RegisterHook` | lirix/core/hook_manager.py:213-218 | appends to the point's callbacks and to no other's |
| `Hooks.HookManager.InvokeHooksIsolated` | lirix/core/hook_manager.py:466-573 | results, payload and escaping exception are those of the round over the registered callbacks |
| `Hooks.HookManager.AinvokeHooksIsolated` | lirix/core/hook_manager.py:615-711 | the same with coroutine callbacks awaited, including the hand-over to the synchronous loop |
| `Hooks.SyncAndAsyncAgree` | lirix/core/hook_manager.py:628-640 | without coroutine callbacks both loops do the same |
| `HookFold.PayloadIsFold` | lirix/core/hook_manager.py:466-711 | after a round the payload is the entry payload with the accepted patches folded in, in order; if an exception escapes, exactly the patches before it |
| `HookFold.LastWriterWins` | lirix/core/hook_contract.py:76-83 | a key ends with the value of the last patch that has it, or its old value |
| `HookFold.PayloadUnchanged` | lirix/core/constants.py:81-83 | in shadow mode, and under a contract at every point but two, no round changes the payload |
| `HookFold.FatalExactlyWhere` | lirix/core/hook_manager.py:466-711 | entry by entry, an enforced round has a fatal result exactly where a callback offends |
| `HookFold.LegacyRoundLeaves` | lirix/core/hook_manager.py:482-488 | in legacy mode a round at a point that takes no patches leaves of the live payload what its callbacks write, one after the other |
| `HookFold.OnlyEntryIsSeen` | lirix/core/hook_manager.py:258-263 | a round depends only on what each callback makes of the payload on entry |
| `HookFold.OnlyEnforcementBlocks` | lirix/core/orchestrator.py:130-135 | outside enforcement no result blocks; timeouts and failures never do |
| `Pipeline.LirixPipelineOrchestrator.HookStage` | lirix/core/orchestrator.py:530-549 | one hook round: patches and live writes, trace step, escape, and failure on a fatal result where somebody reads it |
| `Pipeline.LirixPipelineOrchestrator.LayerStage` | lirix/layers/l1_intent_validator.py:145-155 | one check on the live draft, then its hook round |
| `Pipeline.LirixPipelineOrchestrator.ChainValidate` | lirix/_facade.py:236-244 | the three checks in order, each followed by its hook round, on one live draft |
| `Pipeline.LirixPipelineOrchestrator.Prepare` | lirix/core/orchestrator.py:529-550 | up to the second pass: the two patching points and the first pass between them |
| `Pipeline.LirixPipelineOrchestrator.ReconcileStage` | lirix/core/orchestrator.py:553-562 | reconciliation, its hook round, the trace step, the client |
| `Pipeline.LirixPipelineOrchestrator.SimulateStage` | lirix/layers/l5_sandbox_simulator.py:182-236 | the simulation of the live draft, then its hook round |
| `Pipeline.LirixPipelineOrchestrator.AuditStage` | lirix/core/orchestrator.py:566-598 | trace step and audit of the live draft, then the last two hook points |
| `Pipeline.LirixPipelineOrchestrator.RunStages` | lirix/core/orchestrator.py:529-598 | all of these in order on one live dictionary, stopping at the first failure |
| `Pipeline.LirixPipelineOrchestrator.CloseSession` | lirix/core/orchestrator.py:599-612 | trace, decision and, on an owned session, finalize |
| `Pipeline.LirixPipelineOrchestrator.RecordFailure` | lirix/core/orchestrator.py:203-287 | a failure is recorded as blocked; a blank layer, a session error or an unbundlable session makes the handler itself raise |
| `Pipeline.LirixPipelineOrchestrator.RunFull` | lirix/core/orchestrator.py:501-647 | session and result of a whole run, on a given or an owned session, including refusal by a finalised session and errors while recording or bundling an approval |
| `PipelineGuarantees.ValidatedIsSimulated` | lirix/core/orchestrator.py:539-598 | under a contract the three checks of the second pass, the simulator and the audit are given one draft, in approved and failed runs alike, though a hook round on the live draft follows each check; nothing is simulated that all three did not check and accept |
| `RunVerdicts.StagesDecide` | lirix/core/orchestrator.py:553-598 | in every run and mode: what is simulated is simulated at the reconciled height, what is audited is audited with that result, and an error of either is what the run fails with |
| `RunVerdicts.ApprovedRunsWereAudited` | lirix/core/orchestrator.py:553-598 | an approved run was reconciled, connected, simulated and audited, all favourably, on one draft |
| `RunVerdicts.RefusedAuditEndsRun` | lirix/layers/l5_shadow_auditor.py:380-430 | a run whose audit is unfavourable fails with what the audit says |
| `RunVerdicts.FirstVerdictDecides` | lirix/core/orchestrator.py:529-598 | a run without callbacks fails with the first unfavourable of its ten verdicts, or is approved |
| `RunVerdicts.RoundLogs` | lirix/core/hook_manager.py:182-211 | the step a hook round logs: info without results, degraded if one went wrong, else ok |
| `RunVerdicts.ApprovedRunLogs` | lirix/core/orchestrator.py:529-598 | an approved run has logged fourteen steps |
| `FatalHooks.FatalResultEndsRun` | lirix/core/orchestrator.py:130-151 | a round nobody escapes from ends the run if and only if the mode is enforce, a callback offends, and the point is one of the four of the pipeline or the intent check's |
| `FatalHooks.EscapeEndsRun` | lirix/core/hook_manager.py:514-516 | an escaping exception ends the run at once under its own layer, and the round leaves no step |
| `FatalHooks.PointsByName` | lirix/core/constants.py:69-122 | whose results are read, who is shown the draft, who is awaited and who takes patches |
| `FatalHooks.FullRunFatals` | lirix/core/orchestrator.py:529-598 | over every run, fatal results occur only under enforcement, and one at a point somebody reads is the last and ends the run |
| `FatalHooks.UnreadResultsDecideNothing` | lirix/core/orchestrator.py:529-598 | two runs whose setups differ only in what is returned at the schema, calldata, reconciliation and simulator points, where nobody reads it, check, simulate, audit and end alike |
| `FatalHooks.SilencedRunsAlike` | lirix/layers/l2_schema_validator.py:86-94 | under a contract, callbacks at those points might as well not be registered, as long as none escapes |
| `FatalHooks.RejectionAtSchemaEndsNothing` | lirix/layers/l2_schema_validator.py:86-94 | an enforced fatal rejection at the schema point changes the end of no run, and is on record whenever the run is approved |
| `FatalHooks.ApprovedDespiteRejection` | lirix/layers/l2_schema_validator.py:86-94 | runs approved under enforcement although a callback rejected their draft as fatal |
| `PipelineGuarantees.ShadowRunsThePayload` | lirix/core/orchestrator.py:529-598 | in shadow mode what runs is the payload itself |
| `LegacyGuarantees.LegacyChain` | lirix/core/hook_manager.py:482-488 | a legacy run that reaches the simulator made all six checks, each given what the callbacks after the check before it left, and simulates what those after the last check left |
| `LegacyGuarantees.LegacyRunIsSafeExactlyWhen` | lirix/_facade.py:236-244 | a legacy run that reaches the simulator simulates what all three checks of its second pass were given if and only if the callbacks of the checks leave alone the draft that pass starts from |
| `LegacyGuarantees.LegacyIsSafeExactlyWhen` | lirix/_facade.py:236-244 | for the checks as they are: no run of any payload and other callbacks simulates a draft its second pass was not given, if and only if the callbacks of the checks leave alone every draft the second pass accepts and they let through, or no run can reach the simulator at all |
| `LegacyGuarantees.LegacyIsSafeForAnyChecks` | lirix/_facade.py:236-244 | over all checks there could be, if and only if the callbacks leave alone every draft they let through |
| `LegacyGuarantees.QuietLayersAreSafe` | lirix/_facade.py:236-244 | so it is enough that none of these callbacks ever writes |
| `LegacyGuarantees.LegacyRunsUncheckedDraft` | lirix/layers/l3_defi_parser.py:262-269 | whatever the checks, if they accept two different drafts, one callback at the last check gets any third draft simulated without any check being given it |
| `SafeRuns.ContractRunsSafely` | lirix/core/orchestrator.py:539-598 | with this parser as the last check, under a contract nothing is simulated or audited whose target, or anything the parser decodes from its calldata at any depth, is block-listed or off the allow list |
| `SafeRuns.QuietLegacyRunsSafely` | lirix/_facade.py:236-244 | in legacy mode the same holds of every run whose second pass leaves its draft alone |
| `SafeRuns.LegacyRunsUnsafely` | lirix/layers/l3_defi_parser.py:262-269 | otherwise it need not: past a parser that accepts two different drafts any unsafe one can be simulated |
| `PipelineGuarantees.ApprovedDraftIsFold` | lirix/core/orchestrator.py:530-552 | under a contract the draft that ran is the payload with the accepted patches of the two patching points folded in |
| `PipelineRecord.RunShape` | lirix/core/orchestrator.py:203-287 | an owned run that is approved, or fails with a non-blank layer, leaves exactly trace, decision, finalize; any other leaves the session open and empty |
| `PipelineRecord.BlankLayerLeavesNoRecord` | lirix/core/orchestrator.py:203-287 | with a first callback that raises a security exception whose context names a blank layer, every run ends in the handler's own failure and an open, empty session |
| `PipelineRecord.OutcomeTellsVerdict` | lirix/core/orchestrator.py:599-646 | for every setup and payload, the outcome of an owned session is rejected exactly when the run was blocked, ok or degraded exactly when approved |
| `PipelineRecord.RecordedRunsReplay` | lirix/core/orchestrator.py:599-646 | with well-formed labels, the bundle of a run recorded on a session of its own can be produced and passes the replay checker |
| `PipelineRecord.GivenSessionRun` | lirix/core/orchestrator.py:501-647 | on a given session a run keeps the recorder invariant, appends only trace and decision records, never finalises, and refuses exactly the finalised ones |
| `PipelineRecord.GivenVerdicts` | lirix/core/orchestrator.py:599-646 | on a given session an approved run and a blocked one leave their trace and decision with verdict, rationale, details and metadata; a foreign failure leaves nothing |
| `PipelineRecord.LostApprovalIsRejected` | lirix/core/orchestrator.py:203-287 | an approval that cannot be recorded or bundled is not reported, and leaves a rejected trace |
| `PipelineRecord.SeriesReplays` | lirix/core/session.py:627-851 | after any series of runs and other disciplined calls on one session, failed runs included, whatever bundle can be produced passes the replay checker |
| `PipelineRecord.ReportedExports` | lirix/core/session.py:204-286 | and one can be produced whenever the last of them is a run that reported a verdict |
| `ConfigAuthority.Resolution.OverlayNonEmpty` | lirix/core/config_authority.py:18-34 | the overlay loop fills empty fields with non-empty values and tags them |
| `ConfigAuthority.Resolution.ApplyRuntimePatch` | lirix/core/config_authority.py:50-80 | the patch loop fills and overrides or, in strict mode, raises for the field of the first trespassing entry |
| `ConfigAuthority.ResolveConfig` | lirix/core/config_authority.py:111-148 | raises, for the first such field, exactly when strict and a non-null patch value would change a set field off the allow list; otherwise the layered result |
| `ConfigAuthority.OverlayAt` | lirix/core/config_authority.py:18-34 | an overlay treats every field on its own, whatever the order of its keys |
| `ConfigAuthority.PatchAt` | lirix/core/config_authority.py:50-80 | so does a patch |
| `ConfigAuthority.SupplierWins` | lirix/core/config_authority.py:111-148 | every field, endpoint list and chain id included, takes its first non-empty supplier in precedence order, or the allow-listed patch, and its tag names that supplier |
| `ConfigSources.ResolvedByOffers` | lirix/core/config_authority.py:111-148 | the same for the sources as they are: configuration or call, the two addresses of the chain profile, the two main-network addresses on chain 1, the patch |
| `ConfigSources.SupplierByOffers` | lirix/core/config_authority.py:18-80 | which source that is, offer by offer |
| `ConfigSources.UnsetValues` | lirix/core/config_authority.py:10-34 | which values count as unset, and which defaults count as supplied |
| `ConfigSources.NullProfileTagged` | lirix/core/config_authority.py:138-146 | a patch naming the chain profile without giving one leaves it unset by the patch |
| `ConfigAuthority.UrlsWin` | lirix/core/config_authority.py:125-129 | endpoints given with the call replace the configured ones and the defaults; only an allow-listed patch overrides them, or any patch when the list is empty |
| `ClassGraph.CanonicalBase` | tools/contract_manifest_gate.py:269-275 | terminates on every alias map, cycles included, at the first name that is no alias or repeats |
| `ClassGraph.ChaseIsCanonical` | tools/contract_manifest_gate.py:269-275 | where the chain of aliases ends, the chase ends there; it stops at an alias only on a cycle |
| `ClassGraph.ReverseEdges` | tools/contract_manifest_gate.py:298-301 | exactly the child edges, reversed |
| `ClassGraph.Descendants` | tools/contract_manifest_gate.py:302-309 | the worklist terminates with exactly the names reachable by one or more child edges |

## Left out

- Threads and asyncio: a step is what happens under one lock; a wall-clock timeout is one possible outcome of a callback or fetch.
- RPC, HTTP, web3 and SQLite calls: endpoints return arbitrary outcomes and the table is a map; SQL errors are not modelled.
- SHA-256 and JSON text: a digest is a function of the digested fields, and ABI values are immutable, so the deep copy and the JSON round trip of the cache are the identity.
- Negative `max_entries`: the trimming loop of the source would fail on an empty dictionary.
- Timestamps of timeline items, the full-trace copy, `extra`, snapshots and forensic bundles: they take no part in any check.
- The `l1_l3_ok` flag in the session state and `run_validate`/`run_simulate`: the same steps as `run_full`, fewer of them.
- Unicode case folding and white space beyond the characters listed in `IsSpace` and `LowerChar`, for instance in digests.
- The contents of result envelopes, agent feedback, audit logs and disagreement reports: formatting.
- DefiParser.DeFiPayloadParser.Validate: the verdict only; the hook round that follows every acceptance, on the live payload, is a step of `Pipeline`, where a check is a function of the draft it is given.
- Values inside a payload reached through the read-only view: the view is shallow, and under a contract a callback here cannot write at all.
- In legacy mode: a callback that goes on writing after its time-out, the intent and the simulation result handed to callbacks live, and decoder plugins that write to the payload.
- The hook point of the Multicall packer: its results are discarded, and it is handed the packed call, not a draft.
- Unknown hook points and malformed callback signatures: refused at the entry.
- Duplicate endpoint URLs: outcomes are keyed by URL, and the rounds and votes are stated for distinct ones; the results about breakers under overlapping rounds hold for any list.
- Floating-point rounding of the success ratio and of the two-thirds vote: reals, and an integer ceiling.
- `refresh_quorum`, `eth_call`, and canonicalisation of RPC results before hashing: single-pass selections over one list, or JSON.
- Checksums and hex parsing: an address is its twenty bytes, and a malformed one is a variant of the input.
- Parsing Python source into class definitions, and the documentation checks of the gate: only the graph is modelled.
- Model validation after configuration resolution, the provenance chain strings, and resolution without a configuration, which is the modelled case with the default dump, no profile and no allow list.
