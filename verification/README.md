# Verified accounting and lifecycle state machines of loopcoder

loopcoder runs coding agents against metered providers. What it may spend, which provider it
may call, how many processes it may start and what an operator still has to decide is kept in
a handful of small state machines. This project models seven of them in Dafny and proves what
they promise over whole runs, not over single calls.

Each machine has three parts, for the larger ones in modules of their own.

* The *model* holds the state as a value and one step function per operation: the same checks
  in the same order, the same error for each.
* The *safety* part holds the theorems over runs of those steps, and says independently of the
  step functions what each operation checks, writes and answers.
* The *store* holds the code in the form the program has it: a class whose fields are
  reassigned, loops over rows, accumulators, early returns. Every method is proved to compute
  the step of the model, so every theorem about runs holds of the class.

| modules | what they model |
|---|---|
| `BudgetModel`, `BudgetSafety`, `BudgetFlows`, `BudgetLedger`, `BudgetExamples` | the hierarchical budget: policies, reservations that count against several policies, a cached aggregate per policy, an operation log |
| `Cooldown`, `BreakerModel`, `BreakerReplay`, `BreakerEpisodes`, `BreakerEffects`, `BreakerTable`, `BreakerStore` | circuit breakers fed with replayable observations, exponential cooldown with jitter, half-open probe leases |
| `AdmissionModel`, `AdmissionSafety`, `AdmissionRequests`, `AdmissionService`, `AdmissionExamples` | machine admission: an allocator in six dimensions with leases, generations and a state that fails closed |
| `GrokSink`, `GrokHistory` | the framer and bounded log of the Grok stream |
| `ForcedRestart` | forced-restart evidence from one pass over an event log |
| `AttentionModel`, `AttentionSafety`, `AttentionRecords`, `AttentionStore` | operator attention: items, evidence log, project index |
| `CapacityWindows`, `CapacityModel`, `CapacitySafety`, `CapacityEntries`, `CapacityLedger`, `CapacityExamples` | the capacity ledger: choice of a quota window, one accounting entry per attempt, lost writes and restarts |
| `Common`, `Sums` | shared vocabulary; sums over the values of a map |

## How the source is read

* One database transaction is one atomic step, and a transaction that returns an error changes
  nothing. A refused budget reservation is not an error of the transaction: it leaves a row.
* Hashes are parameters, and nothing is assumed about collisions. Identifiers that the source
  compares as text are ranks in that order. Operation keys are tuples.
* Times are integers. Where breaker observations are compared by their formatted text and not
  by the instant, the text order is a field of its own (`stamp`) next to the instant (`at`).
  Budget leases, which the source compares as instants in one place and as text in another,
  are compared as instants.
* CPU shares and capacity fractions are reals; counters are integers, except in the cooldown
  and jitter loops, where 64-bit wrap-around is written out.
* Requests are taken after the source has filled in defaults (quantity, window, requester);
  trimming is modelled where a check or a key depends on it.
* Trimming and lower-casing are modelled on ASCII.
* A set that the source visits in map order is visited in any order.

## Where the code does not do what one would expect

Each of these is a property that fails. For each there is a run or an input on which it
fails, and a lemma that says exactly when it holds.

| what fails | input | when it holds |
|---|---|---|
| A request with a used idempotency key is not reserved again: adding a policy can make the key unknown. | `NewPolicyChargesTwice` | `NewPolicyReservesAgainIff` |
| Repeating an effective Commit, Release, Cancel or Renew word for word is answered as a replay: it is rejected as stale. | `RepeatedCommitIsStale` | `RepeatedMutation`: never, only with the new generation |
| Hard ceilings hold: a ceiling can be set below what is in use. | `LoweredCeilingBreaksBound` | `UpsertKeepsHardBoundIff` |
| A lapsed reservation is settled: one without balance never is. | `ZeroReservationIsStuck` | `LapsedStuckIff` |
| The cooldown loop computes the capped power of two: it can wrap to a negative value. | `DoublingAtLimit` | `DoublingIsBackoffIff` |
| Admission stays within budget: a negative request makes room that its release takes back. | `NegativeClaimBreaksBound` | `ReleaseKeepsBoundIff`, `RunStaysSafe` |
| Double integration of a work item is reported: only if the item also has a success. | `IntegratedTwice` | `DeriveForcedRestart` |
| A client's idempotency key is its own: names that contain the separator collide. | `CollidingClients` | `KeysCollideIff` |
| Repeating a capacity reservation returns its entry, as the comment of `Reserve` promises: not for the window kind `rate-limit`, which is stored as `rate_limit` and no longer compares equal. | `RateLimitConflictsWithItself` | `RepeatedReserve`, `StoredKindEqualIff` |
| An attempt obtains one hold: a lost write and a restart give it a second. | `LostWriteHoldsTwice` | `HoldAfterRestartIff` |
| A hold number goes to one attempt: a lost write and a restart give it to another. | `LostWriteSharesNumber` | `DrawnAgainIff` |

Two steps that the code does take are needed for what is proved. Feeds are sorted: without that,
feeding twice can change a breaker (`UnsortedRefeedChanges`, and `FoldChangesNothingIff` says
exactly when a feed changes nothing). A failed transaction is rolled back: otherwise a failed
`ResolveAttention` could count an expired reservation again (`UnrolledResolveBreaksBound`,
`UnrolledResolveFitsIff`).

## Model

The first rows are the theorems and the inputs on which a property fails. The rows from
`BudgetFlows.TakesIff` on say in terms of the request what each operation checks, writes and
answers, independently of the step functions. The rows from `BudgetLedger.NextRow` on say which
step of the model each method computes.

| member | source | states |
|---|---|---|
| `BudgetSafety.RunKeepsBook` | internal/budget/budget.go:239-505 | After any run of upserts, reservations, mutations and expiries: requested = reserved + committed + released for every reservation that was not refused, terminal states hold no balance, partially committed ones do, active ones hold all of it, and no two reservations (refusals included) share an idempotency key and first policy. |
| `BudgetSafety.StepKeepsBook` | internal/budget/budget.go:613-739 | Each single transaction keeps that shape. |
| `BudgetSafety.StepOnRow` | internal/budget/budget.go:655-713 | No transaction drops a row or rewrites its key, fingerprint, policies or requested value; a changed row was open and moves up exactly one generation. |
| `BudgetSafety.GenerationCountsChanges` | internal/budget/budget.go:470-474 | Over any run a reservation's generation is 1 plus the number of steps that changed it. |
| `BudgetSafety.GenerationConsumedOnce` | internal/budget/budget.go:655-713 | Two effective changes in a run never consume the same generation of a reservation. |
| `BudgetSafety.TerminalIsForever` | internal/budget/budget.go:655-713 | Committed, released, cancelled, expired and refused reservations never change again in any run. |
| `BudgetSafety.MutationKeyOnce` | internal/budget/budget.go:613-670 | In any run each (kind, reservation, key) takes effect at most once, and logged operations stay logged. |
| `BudgetSafety.RepeatedMutation` | internal/budget/budget.go:626-641 | An exact repeat is rejected as stale, one with the new generation is a replay; neither changes anything. |
| `BudgetSafety.UseAfterReserve` | internal/budget/budget.go:352-391 | A grant adds the requested value to the use of exactly the applicable policies; a refusal, replay or rejection adds nothing. |
| `BudgetSafety.UseNeverGrowsElsewhere` | internal/budget/budget.go:466-485 | No other operation raises the use of any policy. |
| `BudgetSafety.StepNeverOvershoots` | internal/budget/budget.go:804-826 | No transaction raises a hard policy's use above its current ceiling. |
| `BudgetSafety.UpsertKeepsHardBoundIff` | internal/budget/budget.go:279-309 | An upsert keeps all hard bounds if and only if it does not set a hard ceiling below what is in use. |
| `BudgetSafety.RunKeepsHardBound` | internal/budget/budget.go:352-391 | In every run that lowers no hard ceiling and switches no mode, every hard policy at every level stays within its ceiling. |
| `BudgetSafety.RepeatedReserveAddsNothing` | internal/budget/budget.go:324-347 | Whatever happened in between, a request with a used key that resolves to the same first policy adds nothing. |
| `BudgetSafety.NewPolicyForgetsKeyIff` | internal/budget/budget.go:324-339 | A new policy makes a used key unknown exactly if it applies and sorts before all policies that applied. |
| `BudgetSafety.LapsedEmptyIsStuck` | internal/budget/budget.go:464-468 | A lapsed reservation without balance stays as it is in every run from then on. |
| `BudgetSafety.NewPolicyReservesAgainIff` | internal/budget/budget.go:324-347 | After a new policy the same request is reserved again if and only if it is well formed, the policy applies and sorts before all that applied, and the identifier allocated under it is free. |
| `BudgetSafety.LapsedStuckIff` | internal/budget/budget.go:464-468 | From its lease on, an open reservation is left as it is by every run if and only if it has no balance; any other is settled by the next expiry. |
| `BudgetFlows.RunFlow` | internal/budget/budget.go:676-713 | Over every run, what a reservation has committed is the sum of the amounts of its effective Commits, and what it has released the sum over its Releases, Cancels and its expiry. |
| `BudgetFlows.RunSpends` | internal/budget/budget.go:683-721 | Over every run, what counts as spent against a policy is exactly what effective Commits of reservations that list it have committed. |
| `BudgetFlows.MutationMoves` | internal/budget/budget.go:676-721 | A Commit moves the amount from reserved to committed in every policy of the reservation, Release and Cancel take it out of reserved, Renew moves nothing; nothing else changes. |
| `BudgetExamples.NewPolicyChargesTwice` | internal/budget/budget.go:324-391 | A run, for any value and any two policy identifiers, in which one request sent twice is charged twice to the same policy. |
| `BudgetExamples.LoweredCeilingBreaksBound` | internal/budget/budget.go:279-309 | A run in which a hard ceiling is lowered below what is in use. |
| `BudgetExamples.ZeroReservationIsStuck` | internal/budget/budget.go:358-383 | Every granted request for nothing creates such a reservation. |
| `BudgetExamples.RepeatedCommitIsStale` | internal/budget/budget.go:626-641 | A commit of a fresh reservation that takes effect and is stale when sent again. |
| `BudgetModel.SearchId` | internal/budget/budget.go:1391-1401 | The identifier search ends on any finite table, at the first candidate that is unused or holds the same fingerprint. |
| `BudgetModel.AllocateId` | internal/budget/budget.go:1381-1402 | The allocated identifier is unused or holds the same fingerprint. |
| `BudgetModel.CandidateInjective` | internal/budget/budget.go:1390-1400 | Different search positions give different identifiers, which is why the search ends. |
| `BudgetLedger.CacheFollowsRow` | internal/budget/budget.go:714-721 | Adding a row's change to exactly the policies it lists keeps every aggregate equal to the sum over reservations. |
| `BudgetLedger.GuardNeverRejects` | internal/budget/budget.go:961-982 | In a reachable state the would-go-negative guard never rejects a change of up to the row's own balance. |
| `BudgetLedger.AddAggregates` | internal/budget/budget.go:961-982 | Updates exactly the listed policies, and fails exactly if one of them is missing or would go negative. |
| `BudgetLedger.Ledger.CheckCapacity` | internal/budget/budget.go:804-826 | Reading only the cached aggregates, finds the refusal that the sums over reservations imply. |
| `BudgetLedger.FoldIsStep` | internal/budget/budget.go:462-503 | Expiring one by one, in any order, is expiring all at once. |
| `BudgetLedger.Ledger.RunAll` | internal/budget/budget.go:239-505 | The tables follow the model over any run, and every aggregate equals the sum it caches. |
| `Cooldown.DoublingIsBackoff` | internal/availability/breakers.go:175-182 | For a maximum below 2^62 ns it always does, with a result between base and max. |
| `Cooldown.ReduceFirst` | internal/availability/breakers.go:202-213 | Reducing before each digit gives the remainder of the whole number. |
| `Cooldown.DeterministicJitter` | internal/availability/breakers.go:192-214 | The jitter is the value of the first 16 hex digits modulo the capped jitter and below the jitter; each value before its reduction is below 2^60. |
| `Cooldown.DoublingIsBackoffIff` | internal/availability/breakers.go:175-182 | For every base and maximum below 2^63, the 64-bit loop computes min(base * 2^(failures-1), max) for all failure counts if and only if some doubling of the base reaches the maximum without leaving 63 bits. |
| `Cooldown.DoublingAtLimit` | internal/availability/breakers.go:175-182 | With a maximum of 2^62 a base of 2^61 is doubled right and a base of 2^62 gives -2^63. |
| `BreakerModel.NormalizePolicy` | internal/availability/normalize.go:176-202 | Gives positive thresholds and 0 < base <= max, and leaves such a policy alone. |
| `BreakerReplay.FoldAbsorbs` | internal/availability/breakers.go:265-276 | After folding a sorted feed every breaker an observation of it concerns has seen it. |
| `BreakerReplay.RefeedChangesNothing` | internal/availability/breakers.go:22-70 | Folding a sorted feed again, later and under any policy, changes no breaker. |
| `BreakerReplay.GrowingFeed` | internal/availability/breakers.go:22-64 | Folding A and then A++B equals folding A++B once. |
| `BreakerReplay.DeriveSettles` | internal/availability/breakers.go:22-64 | Deriving again at the same time is only a cooldown advance, and a fixed point from the second derivation on. |
| `BreakerReplay.UnsortedRefeedChanges` | internal/availability/helpers.go:56-63 | Without sorting, feeding twice can change a breaker. |
| `BreakerReplay.FoldChangesNothingIff` | internal/availability/breakers.go:265-276 | Folding any feed, sorted or not, into any table changes nothing if and only if every breaker an observation concerns exists and has seen it. |
| `BreakerEpisodes.HalfOpenEpisode` | internal/availability/persistence.go:226-263 | A half-open breaker entered its episode by a cooldown that had elapsed, has had no applied failure in it, counts its successes, and has granted at most the probe budget of leases. |
| `BreakerEpisodes.RecoveryPath` | internal/availability/breakers.go:81-116 | An open breaker closes only through an advance at or after OpenUntil followed, in that half-open episode, by the required number of applied successes and no applied failure. |
| `BreakerEpisodes.ClosedBelowThreshold` | internal/availability/breakers.go:81-116 | In every run a closed breaker has fewer failures than the threshold. |
| `BreakerEpisodes.OpenUntilNeverEarlier` | internal/availability/breakers.go:137-142 | Until the breaker closes, OpenUntil never moves earlier. |
| `BreakerEpisodes.CooldownWithinBounds` | internal/availability/breakers.go:168-190 | Without a provider hint the cooldown, jitter included, lies between base and max, and without jitter it is the capped power of two. |
| `BreakerEpisodes.LeaseGenerationCountsGrants` | internal/availability/persistence.go:247-256 | The lease generation grows by one with each grant over the whole run. |
| `BreakerEpisodes.LeaseIsExclusive` | internal/availability/persistence.go:277-283 | Within an episode a lease goes to another owner only after it has run out. |
| `BreakerEffects.FailureOpensIff` | internal/availability/breakers.go:100-116 | After any sequence of derivations and lease requests: a failure its breaker has not seen leaves the breaker open if and only if it is an outage, the breaker was open or half-open, or the failures applied since the last applied success reach the threshold. |
| `BreakerEffects.ClosedCounts` | internal/availability/breakers.go:81-99 | Over every run a closed breaker counts exactly the failures applied since the last applied success. |
| `BreakerEffects.SuccessesClose` | internal/availability/breakers.go:89-99 | A run of applied successes closes a half-open breaker exactly when there are enough of them. |
| `BreakerTable.DeriveIsRun` | internal/availability/breakers.go:22-64 | What a derivation does to each breaker is the run of its cooldown advance and exactly the observations that concern it, in order; a breaker appears exactly if a failure is filed under it. |
| `BreakerTable.StoredIsRun` | internal/availability/breakers.go:22-64 | Over any sequence of derivations and lease requests under one policy, each stored breaker is the run of its advances, the observations that concern it and its own acquisitions, in order. |
| `BreakerTable.StoredBelowThreshold` | internal/availability/breakers.go:81-116 | In the table after any such sequence every closed breaker has fewer failures than the threshold. |
| `BreakerTable.StoredProbeBudget` | internal/availability/persistence.go:226-263 | In the table after any such sequence every half-open breaker is in an episode begun by an elapsed cooldown, without an applied failure, with its successes counted and at most the probe budget of leases granted. |
| `BreakerTable.StoredRecovery` | internal/availability/breakers.go:81-116 | A stored breaker that was open and is closed has, in between, waited out its cooldown and then had the required successes in one half-open episode without a failure. |
| `BreakerTable.StoredLeaseGeneration` | internal/availability/persistence.go:247-256 | The lease generation of a stored breaker counts all its grants. |
| `BreakerStore.DedupeObservations` | internal/availability/helpers.go:42-54 | Keeps exactly one observation per identifier, the first. |
| `BreakerStore.SortObservations` | internal/availability/helpers.go:56-63 | A sorted permutation. |
| `BreakerStore.PreparedFeed` | internal/availability/helpers.go:42-63 | The feed that is folded is sorted, and holds of each identifier exactly the first observation. |
| `AdmissionSafety.RunStaysSafe` | internal/admission/service.go:86-233 | Over every run with non-negative requests, active plus attention-required totals stay within budget in all six dimensions, CPU up to one fixed tolerance that does not add up. |
| `AdmissionSafety.ClaimStaysSafe` | internal/admission/service.go:86-233 | One claim keeps the bound, overdue leases included. |
| `AdmissionSafety.CapacityFreedOnlyBy` | internal/admission/service.go:246-376 | A row is never dropped, changed in its amounts or counted again; it leaves the count only by Release, a resolution with known liveness, or an overdue lease whose process is known dead. |
| `AdmissionSafety.ReleasedIsForever` | internal/admission/service.go:289-321 | A released reservation never changes again in any run. |
| `AdmissionSafety.StaleGenerationChangesNothing` | internal/admission/service.go:246-321 | A renewal or release with a stale non-zero generation leaves the whole table as it was. |
| `AdmissionSafety.UnknownProbeFailsClosed` | internal/admission/service.go:444-488 | If liveness is never known, only Release takes a reservation out of the count, over any run. |
| `AdmissionSafety.UnknownProbeNeverExpires` | internal/admission/service.go:444-488 | If liveness is never known, no reservation ever expires. |
| `AdmissionSafety.ReleaseKeepsBoundIff` | internal/admission/service.go:289-321 | A counted reservation can be released under every budget that holds with it if and only if it asked for no negative memory and no negative CPU. |
| `AdmissionSafety.UnrolledResolveFitsIff` | internal/admission/service.go:345-364 | If the write before the error of ResolveAttention stayed, the bound would hold only if there was room for the row again. |
| `AdmissionSafety.EnforcedOnce` | internal/admission/store.go:169-195 | In any run at most one enforcement request per reservation and metric. |
| `AdmissionSafety.StepKeepsKeysUnique` | internal/admission/store.go:19-32 | Idempotency keys stay unique. |
| `AdmissionSafety.SumOfBoth` | internal/admission/store.go:106-167 | Active plus attention sums are the sum over counted rows. |
| `AdmissionRequests.RequestsStayWithin` | internal/admission/service.go:86-233 | Over every run with non-negative requests and budget, the requests of the admissions still counted, as they were sent, add up to no more than the budget in all six dimensions. |
| `AdmissionRequests.RunBacked` | internal/admission/service.go:196-219 | Over every run each reservation in the table weighs what its request asked for: its role, at least one process, its memory and its CPU. |
| `AdmissionRequests.AdmittedCharge` | internal/admission/service.go:196-219 | An admission raises the counted total by exactly the request. |
| `AdmissionRequests.AdmittedIff` | internal/admission/service.go:86-219 | A claim is admitted if and only if it is valid, no probe failed, its key holds nothing, the comparisons for its role, processes, memory and CPU leave room, and identifier and key are free. |
| `AdmissionExamples.NegativeClaimBreaksBound` | internal/admission/service.go:172-179 | For every negative memory request there is a run: it is admitted, a claim larger than the budget fits beside it, and releasing the first leaves the total above the budget. |
| `AdmissionExamples.UnrolledResolveBreaksBound` | internal/admission/service.go:345-364 | A run with one worker slot in which the write before the error of ResolveAttention, had it stayed, would count two workers. |
| `GrokSink.ChunkingDoesNotMatter` | internal/agent/grok.go:785-798 | However a stream is cut into chunks, the sink ends in the same state: records, metadata, summary, terminal flag, first fault. |
| `GrokSink.FeedSplit` | internal/agent/grok.go:785-798 | Feeding p and then q is feeding p++q. |
| `GrokSink.AppendTwice` | internal/agent/grok.go:800-812 | Cutting a partial line twice is cutting it once. |
| `GrokSink.FeedLine` | internal/agent/grok.go:785-844 | A whole line is its text and a flush, however it arrived. |
| `GrokSink.RunKeeps` | internal/agent/grok.go:699-920 | In every run over both streams: bytes written are the size of the log and at most the limit, line buffers at most the frame limit plus overlap, the summary within its limit, an overlong line was reported, and the first fault never changes. |
| `GrokSink.CappedBuffer.Write` | internal/agent/grok.go:648-668 | In whatever chunks a stream comes, the buffer holds its bounded prefix and tells whether it ran over. |
| `GrokSink.StreamSink.WriteAll` | internal/agent/grok.go:785-798 | However a stream is cut into chunks, the line by line loop leaves the sink where the whole stream takes it. |
| `GrokHistory.RunTells` | internal/agent/grok.go:785-920 | Over every run, from the lines that were flushed: terminal if and only if some output line parsed to a terminal frame; session, model and effort the last told, usage the first known; the summary the last structured output and the texts after it, redacted and cut; the log the records of the lines in order without those rejected; the fault the first there was. |
| `GrokHistory.LinesOfRun` | internal/agent/grok.go:785-844 | However two streams are cut and interleaved, the lines flushed of each are the complete lines of what was written to it, cut and trimmed, and its rest waits in the buffer. |
| `GrokHistory.SplitMeans` | internal/agent/grok.go:785-798 | The complete lines and the rest are the stream, split at its newlines. |
| `ForcedRestart.DeriveForcedRestart` | internal/artifactqual/emit.go:252-379 | Each flag of the evidence holds if and only if the log has the events that the flag means, quantified over the whole log and for any map order. |
| `ForcedRestart.EvidenceMeans` | internal/artifactqual/emit.go:252-379 | What the scans look for in the filled maps is what the flags mean about the log. |
| `ForcedRestart.AbortsMeans` | internal/artifactqual/emit.go:286-316 | An abort is a cancelled terminal whose identity is that of the latest earlier qualifying interrupt of the same item and attempt. |
| `ForcedRestart.TallyAborts` | internal/artifactqual/emit.go:286-316 | The abort maps hold exactly the aborts, and the last one of each work item. |
| `ForcedRestart.TallyCounts` | internal/artifactqual/emit.go:317-337 | The counters hold exactly the non-zero counts. |
| `ForcedRestart.IntegratedTwice` | internal/artifactqual/emit.go:350-359 | A log that integrates an item twice is not reported; with one success of the item added it is. |
| `AttentionSafety.RunKeepsStore` | internal/attention/lifecycle.go:212-462 | After any run the evidence of every item is a chain that ends in its state, and the index lists every item exactly once, under its project. |
| `AttentionSafety.EvidenceIsChain` | internal/attention/lifecycle.go:348-440 | Each record starts where the previous ended, the first from open, nothing follows a resolved one, and the chain ends in the item's state or in the unresolved one it was superseded from. |
| `AttentionSafety.FollowIffChain` | internal/attention/lifecycle.go:523-547 | Following the log succeeds exactly if the item's records are such a chain, and ends where it ends. |
| `AttentionSafety.StepKeepsIndex` | internal/attention/lifecycle.go:212-258 | Every operation keeps the index exact. |
| `AttentionSafety.RepeatedActionChangesNothing` | internal/attention/lifecycle.go:348-363 | After any further run a client's used key changes nothing and is answered with the original result. |
| `AttentionSafety.KeysCollideIff` | internal/attention/lifecycle.go:359-363 | Two client and key pairs share a stored key exactly if they are equal or the separator inside a name shifts the boundary. |
| `AttentionSafety.SharedKeyAnswersOther` | internal/attention/lifecycle.go:359-363 | A pair that shares a stored key with an applied one is answered with the result of the other, whoever asks and for what, and changes nothing. |
| `AttentionSafety.CollidingClients` | internal/attention/lifecycle.go:359-363 | Two clients whose pairs collide: the second cancels an item and is told that its action was the acknowledgement of the first. |
| `AttentionRecords.RunExplains` | internal/attention/lifecycle.go:348-547 | Over every run from the empty store each evidence record has the effect of its action, effect by effect, leaves the state the action leads to, and goes back to a request of the run that was complete, not forbidden, for the project, revision and offered actions of the item, and authorised. |
| `AttentionRecords.AppliedIff` | internal/attention/lifecycle.go:348-389 | A request is applied if and only if it is complete, not forbidden, under a new key, and vouched for by an item that is open or acknowledged: project, revision, offered action, authorization, input and recovery. |
| `AttentionStore.Attentions.ListOpen` | internal/attention/lifecycle.go:277-294 | Exactly the project's non-terminal items, each once, oldest first. |
| `AttentionStore.Attentions.EvidenceFor` | internal/attention/lifecycle.go:328-346 | The item's records in order, which form a chain; unknown and foreign items are told apart. |
| `CapacityWindows.PickWindow` | internal/capacityledger/ledger.go:846-908 | Finds a fresh window of known confidence that matches provider, account, install and kind, with the account that owns it; no such window has more left, or as much and a sooner reset; fails exactly if there is none. |
| `CapacityWindows.PickIsBest` | internal/capacityledger/ledger.go:846-908 | The same of the search as a function. |
| `CapacityWindows.RemainingFraction` | internal/capacitysnapshot/build.go:286-319 | What remains is a fraction between 0 and 1, if it is known. |
| `CapacityWindows.StoredKindEqualIff` | internal/capacityledger/ledger.go:933-977 | A window found under a kind is stored under a kind equal to it, except for the spelling rate-limit. |
| `CapacitySafety.OneHoldPerAttempt` | internal/capacityledger/ledger.go:379-392 | Over every run without a lossy restart an attempt key obtains at most one soft hold, and none if it was known. |
| `CapacitySafety.HoldAfterRestartIff` | internal/capacityledger/ledger.go:171-276 | After a restart an attempt obtains a hold exactly if its entry never reached the file. |
| `CapacitySafety.RunAdvances` | internal/capacityledger/ledger.go:568-664 | Over every such run an entry keeps its identity, capacity before and hold; a reconciled one its actual, source and state; an observed remainder is never replaced by a derived one; a hold given up is never taken up again. |
| `CapacitySafety.SavedRunIsLossless` | internal/capacityledger/ledger.go:294-310 | If every write succeeds no restart loses anything: file and memory are equal. |
| `CapacitySafety.NoRestartIsLossless` | internal/capacityledger/ledger.go:294-310 | Without a restart nothing is lost, whatever writes fail. |
| `CapacitySafety.RiseNeedsEvidence` | internal/capacityledger/ledger.go:765-777 | Over any run, in memory and in the file, an observed remainder above the one before by more than 0.001 was reported by an observation of that attempt with evidence of a reset. |
| `CapacitySafety.RunKeepsLedger` | internal/capacityledger/ledger.go:346-797 | After any run all fractions lie in [0,1], an entry is reconciled exactly if it has an actual, a derived remainder is before minus actual, and hold numbers are unique and given out. |
| `CapacitySafety.RunStaysReadable` | internal/capacityledger/ledger.go:171-276 | Whatever writes were lost, the ledger can read the file it left, and at no moment do two of its entries share a hold number. |
| `CapacitySafety.RepeatedReserve` | internal/capacityledger/ledger.go:379-392 | Repeating a reservation at any later time changes nothing; it is answered with the entry exactly while that is held and the kind is not spelled rate-limit. |
| `CapacitySafety.ChosenMatches` | internal/capacityledger/ledger.go:846-908 | The window chosen for a reservation is of the requested account and kind. |
| `CapacitySafety.DrawnAgainIff` | internal/capacityledger/ledger.go:266-269 | A number given out before a run is drawn again in the run only after a restart that found neither it nor a later one in the file, and if the counter is at it again, exactly then. |
| `CapacityEntries.PickMeans` | internal/capacityledger/ledger.go:846-908 | The chosen window in plain terms: it matches, comes with the account of its row, has the most left of all that match and among those the soonest reset; there is one if anything matches. |
| `CapacityEntries.FirstReportStays` | internal/capacityledger/ledger.go:568-629 | Over every lossless run an attempt is reconciled exactly if a Reconcile reached it, with the clamped fraction and the source of the first that did. |
| `CapacityEntries.SameKeyIff` | internal/capacityledger/ledger.go:1045-1047 | Attempts whose project and run do not contain the separator share an entry exactly if they are the same up to white space. |
| `CapacityExamples.LostWriteSharesNumber` | internal/capacityledger/ledger.go:266-269 | A run in which two attempts are given the hold number 1, because the write of the first was lost before a restart. |
| `CapacityExamples.LostWriteHoldsTwice` | internal/capacityledger/ledger.go:171-276 | A run in which one attempt obtains two holds, because the write of the first was lost before a restart. |
| `CapacityExamples.LostWriteWitness` | internal/capacityledger/ledger.go:350-378 | There are requests that get a hold. |
| `CapacityExamples.RateLimitConflictsWithItself` | internal/capacityledger/ledger.go:379-392 | A request with the kind rate-limit that obtains a hold and conflicts with itself when repeated at once. |
| `CapacityLedger.LoadFile` | internal/capacityledger/ledger.go:171-276 | Reading entry by entry, in any order, succeeds exactly on a readable file, releases exactly the lapsed holds and finds the highest hold number. |
| `BudgetFlows.TakesIff` | internal/budget/budget.go:613-680 | When a mutation takes effect, condition by condition. |
| `BudgetFlows.MutationOnRow` | internal/budget/budget.go:669-713 | Balances, lease, generation and final state of the row for each kind of mutation, when the balance reaches zero and when not. |
| `BudgetFlows.MutationAnswer` | internal/budget/budget.go:626-660 | When the caller is told done, replay or conflicting replay. |
| `BudgetFlows.MutationFaults` | internal/budget/budget.go:642-680 | Which faults are staleness and which are conflicts of state. |
| `BudgetFlows.MutationLogged` | internal/budget/budget.go:722-736 | What is remembered of a mutation. |
| `BudgetFlows.ExpiryOnRow` | internal/budget/budget.go:466-500 | Which rows expiry settles, and how. |
| `BudgetFlows.ReserveRecords` | internal/budget/budget.go:348-391 | The new row: active with the whole value if confidence suffices and every applicable policy has room or tolerates the breach, refused with nothing otherwise; lease, generation and policies. |
| `BudgetFlows.DeclinedAs` | internal/budget/budget.go:790-826 | What a refused request is told: confidence first, then the first intolerant policy by scope and identifier. |
| `BudgetFlows.MalformedAs` | internal/budget/budget.go:1262-1278 | What a malformed request is told. |
| `BudgetFlows.RepeatAnswer` | internal/budget/budget.go:333-342 | What a request with a known key is told. |
| `BudgetFlows.TakenAnswer` | internal/budget/budget.go:343-347 | A search that ends at a used identifier reserves nothing. |
| `BudgetFlows.SameFingerprintIff` | internal/budget/budget.go:1292-1323 | Two requests have one fingerprint exactly if they differ in nothing but the key. |
| `BudgetFlows.ReservedFingerprint` | internal/budget/budget.go:358-362 | A new row carries the fingerprint of its request. |
| `BudgetFlows.UpsertRecords` | internal/budget/budget.go:279-309 | What an accepted policy overwrites and what it keeps. |
| `BudgetFlows.UpsertRejects` | internal/budget/budget.go:1084-1102 | Which policies are rejected, and as what. |
| `Cooldown.DigitMeans` | internal/availability/breakers.go:203-211 | The digit of a hexadecimal character. |
| `BreakerEffects.FiledUnder` | internal/availability/breakers.go:216-259 | Under which kind and scope each kind of failure is filed, as an equivalence. |
| `BreakerEffects.HealsIff` | internal/availability/matching.go:81-95 | Which breakers a success concerns. |
| `BreakerEffects.SeenIff` | internal/availability/breakers.go:265-276 | After an observation was applied, exactly those not later are skipped. |
| `BreakerEffects.FreshSeesNothing` | internal/availability/breakers.go:265-276 | A breaker without a last observation skips nothing. |
| `BreakerEffects.OpensIff` | internal/availability/breakers.go:100-124 | When an event opens a breaker, and what it leaves otherwise. |
| `BreakerEffects.OpensUntil` | internal/availability/breakers.go:126-174 | Until when it opens: the later of what was known and what the provider said; counters and lease are cleared. |
| `BreakerEffects.OpensForBackoff` | internal/availability/breakers.go:175-189 | Without a hint it opens for the capped power of two plus the jitter of the digest, between base and max. |
| `BreakerEffects.TimeHalfOpens` | internal/availability/breakers.go:145-166 | A derivation makes an open breaker half-open exactly at or after OpenUntil, with its counters reset. |
| `BreakerEffects.SuccessDoes` | internal/availability/breakers.go:81-99 | What a success does to a closed, open and half-open breaker. |
| `BreakerEffects.LeaseGrantedIff` | internal/availability/persistence.go:226-283 | When a probe lease is granted and when it is told that the breaker is not half-open. |
| `BreakerEffects.LeaseRecords` | internal/availability/persistence.go:247-256 | Owner, expiry, generation and count written with a grant. |
| `BreakerEffects.RefusalKeepsLease` | internal/availability/persistence.go:232-246 | What a refusal stores. |
| `BreakerEffects.NormalizeMeans` | internal/availability/normalize.go:176-202 | The defaults of a policy. |
| `AdmissionRequests.AdmittedAnswer` | internal/admission/service.go:217-233 | The caller is told Admitted exactly if a new reservation was entered. |
| `AdmissionRequests.AdmittedRow` | internal/admission/service.go:196-216 | Every field of the new row, read from the request. |
| `AdmissionRequests.ReasonsMean` | internal/admission/service.go:141-179 | Which reasons a denial lists, each as an equivalence. |
| `AdmissionRequests.ClaimOtherwise` | internal/admission/service.go:92-194 | What a claim that is not admitted leaves in the table, answer by answer. |
| `AdmissionRequests.RefreshMeans` | internal/admission/service.go:445-488 | What becomes of an overdue reservation for each result of the probe. |
| `AdmissionRequests.RenewMeans` | internal/admission/service.go:246-287 | When a renewal succeeds and what it writes. |
| `AdmissionRequests.ReleaseMeans` | internal/admission/service.go:289-321 | When a release succeeds and what it writes. |
| `AdmissionRequests.ResolveMeans` | internal/admission/service.go:323-378 | When attention is resolved. |
| `AdmissionRequests.EmitsMeans` | internal/admission/service.go:396-420 | Which metrics are enforced. |
| `GrokHistory.AppendMeans` | internal/agent/grok.go:704-714 | Appending to the summary is appending the redacted text and cutting at 8192 bytes. |
| `GrokHistory.CapMeans` | internal/agent/grok.go:800-812 | How much of a line is kept. |
| `GrokHistory.RedactBoundedMeans` | internal/agent/grok.go:1379-1388 | What bounded redaction returns, and when it tells that it cut. |
| `ForcedRestart.InterruptIff` | internal/artifactqual/emit.go:276-296 | Which interrupts count, on the fields of the event: the two pairs of classes, and item, attempt and identifier present. |
| `ForcedRestart.TerminalIff` | internal/artifactqual/emit.go:297-322 | Which terminals are cancellations and successes. |
| `ForcedRestart.OtherEventsIff` | internal/artifactqual/emit.go:323-337 | Which integrations and launches count. |
| `ForcedRestart.SameInterruptionIff` | internal/artifactqual/emit.go:309-312 | When two events tell of the same interruption of the same attempt. |
| `AttentionRecords.AppliedRecords` | internal/attention/lifecycle.go:385-438 | What is written when a request is applied: record, state, stored result and counter. |
| `AttentionRecords.RejectedAs` | internal/attention/lifecycle.go:365-389 | Why a request is rejected by its item, each reason as an equivalence. |
| `AttentionRecords.OfferedIff` | internal/attention/lifecycle.go:558-572 | Which actions each kind of item offers by default. |
| `AttentionRecords.OpenRecords` | internal/attention/lifecycle.go:212-258 | What opening writes. |
| `AttentionRecords.OpenRejects` | internal/attention/lifecycle.go:212-226 | Which inputs are rejected. |
| `AttentionRecords.SupersedeRecords` | internal/attention/lifecycle.go:442-462 | Which items can be superseded, and what changes. |
| `CapacityEntries.KindEqualMeans` | internal/capacityledger/ledger.go:957-977 | When two window kinds are equal. |
| `CapacityEntries.StoredKindMeans` | internal/capacityledger/ledger.go:933-953 | The kind an entry is stored under. |
| `CapacityEntries.RemainingMeans` | internal/capacitysnapshot/build.go:286-319 | What remains of a window, case by case. |
| `CapacityEntries.RequestInvalidIff` | internal/capacityledger/ledger.go:350-376 | Which requests are invalid. |
| `CapacityEntries.ReserveRecords` | internal/capacityledger/ledger.go:393-484 | The identity a new entry has. |
| `CapacityEntries.HeldRecords` | internal/capacityledger/ledger.go:418-484 | When the entry is held, and the window, remainder, fraction and expiry it records. |
| `CapacityEntries.ChosenFor` | internal/capacityledger/ledger.go:403-405 | For what the window of a request is chosen. |
| `CapacityEntries.NumberDrawn` | internal/quotamode/types.go:309-365 | When a reservation number is drawn. |
| `CapacityEntries.ReserveTold` | internal/capacityledger/ledger.go:418-484 | What the caller is told of a new attempt. |
| `CapacityEntries.OthersTold` | internal/capacityledger/ledger.go:568-797 | What the callers of Reconcile, Release and Observe are told. |
| `CapacityEntries.UnknownTold` | internal/capacityledger/ledger.go:572-574 | An attempt that is not known changes nothing and is invalid. |
| `CapacityEntries.ReuseIff` | internal/capacityledger/ledger.go:379-392 | When a known attempt is handed out again: every part of the identity. |
| `CapacityEntries.ReconcileRecords` | internal/capacityledger/ledger.go:596-624 | What the first reconciliation writes: the clamped fraction of the call. |
| `CapacityEntries.ReconcileAgain` | internal/capacityledger/ledger.go:583-595 | A second one changes nothing, and agrees within 1e-9 and up to case or conflicts. |
| `CapacityEntries.ReleaseRecords` | internal/capacityledger/ledger.go:635-664 | What a release writes. |
| `CapacityEntries.ObserveIff` | internal/capacityledger/ledger.go:731-772 | When an observation counts. |
| `CapacityEntries.ObserveRecords` | internal/capacityledger/ledger.go:773-797 | What it writes. |
| `CapacityEntries.ObserveRejected` | internal/capacityledger/ledger.go:746-772 | What a rejected one leaves in memory, and that it is not written. |
| `CapacityEntries.ReadableIff` | internal/capacityledger/ledger.go:189-235 | Which files are readable. |
| `CapacityEntries.ReopensIff` | internal/capacityledger/ledger.go:171-276 | When opening succeeds. |
| `CapacityEntries.ReopenRecords` | internal/capacityledger/ledger.go:207-240 | Which holds are released on opening. |
| `Common.TrimMeans` | internal/capacityledger/ledger.go:1045-1047 | Trimming takes away exactly the white space at both ends. |
| `Common.SpaceMeans` | internal/capacityledger/ledger.go:1045-1047 | Which characters are white space, in ASCII. |
| `BudgetLedger.NextRow` | internal/budget/budget.go:676-713 | The field by field update is the mutation the model defines. |
| `BudgetLedger.Ledger.constructor` | internal/budget/budget.go:239-244 | An empty ledger is in order. |
| `BudgetLedger.Ledger.UpsertPolicy` | internal/budget/budget.go:239-309 | Refines the upsert step and its fault, malformed record or violated unique index; aggregates stay exact, a new policy starts with none in use. |
| `BudgetLedger.Ledger.LoadApplicable` | internal/budget/budget.go:741-788 | Collects exactly the policies of the scope chain with the quantity and window asked for. |
| `BudgetLedger.Ledger.AllocateReservationId` | internal/budget/budget.go:1381-1402 | The search loop ends with the identifier the model allocates. |
| `BudgetLedger.Ledger.FindByKey` | internal/budget/budget.go:1027-1042 | Finds a reservation with the key and first policy if and only if there is one. |
| `BudgetLedger.Ledger.Grant` | internal/budget/budget.go:384-391 | Never fails; the cache stays exact. |
| `BudgetLedger.Ledger.Refuse` | internal/budget/budget.go:828-874 | A refusal is recorded and charges nothing. |
| `BudgetLedger.Ledger.Reserve` | internal/budget/budget.go:311-416 | Refines the reserve step and gives the model's answer: malformed, replay, conflicting replay, refusal with its reason, or grant. |
| `BudgetLedger.Ledger.Rewrite` | internal/budget/budget.go:714-721 | Writing a mutated row and its aggregate changes never fails and keeps the cache exact. |
| `BudgetLedger.Ledger.CheckMutation` | internal/budget/budget.go:613-680 | Finds the first fault of a mutation in the order of the model. |
| `BudgetLedger.Ledger.Mutate` | internal/budget/budget.go:613-739 | Refines commit, release, cancel and renew, with the model's answer; the cache stays exact. |
| `BudgetLedger.Ledger.ExpireOne` | internal/budget/budget.go:466-500 | One expiry moves the whole balance out of every policy the row lists. |
| `BudgetLedger.Ledger.ExpireEach` | internal/budget/budget.go:462-503 | Expires each due reservation once, in any order, cache exact throughout. |
| `BudgetLedger.Ledger.ExpireStale` | internal/budget/budget.go:438-505 | Refines the expiry step: exactly the lapsed open reservations with balance. |
| `Cooldown.CooldownFor` | internal/availability/breakers.go:175-182 | The loop computes the 64-bit doubling. |
| `BreakerStore.ObservationCooldownUntil` | internal/availability/breakers.go:168-190 | Refines the instant of the model: provider hints first, then the two loops. |
| `BreakerStore.SpreadSuccess` | internal/availability/breakers.go:32-39 | A success reaches exactly the breakers whose scope it matches, in any order. |
| `BreakerStore.DeriveCircuitBreakers` | internal/availability/breakers.go:22-64 | The loop over the map computes the fold. |
| `BreakerStore.Store.Refresh` | internal/availability/breakers.go:22-64 | Derives from what is stored with the deduplicated, sorted feed; feeding it again only advances cooldowns. |
| `BreakerStore.Store.AcquireHalfOpenProbeLease` | internal/availability/persistence.go:212-263 | Refines the lease step and its answer: no breaker, not half-open, lease active, acquired. |
| `BreakerStore.ApplyBreakerEvent` | internal/availability/breakers.go:66-124 | Refines one event on one breaker. |
| `BreakerStore.OpenBreakerFor` | internal/availability/breakers.go:126-143 | Refines opening, with the cooldown loops. |
| `BreakerStore.Store.PerformAll` | internal/availability/persistence.go:212-263 | The store follows the table of the model over any sequence of derivations and lease requests. |
| `AdmissionService.Service.SumState` | internal/admission/store.go:106-167 | The accumulator loop computes the sum over all rows of a state, in any order. |
| `AdmissionService.Service.RefreshExpired` | internal/admission/service.go:444-488 | Moves exactly the overdue active rows to expired or attention-required; fails exactly if a probe fails. |
| `AdmissionService.Service.ClaimAgainst` | internal/admission/service.go:92-233 | The decision and table of the model, on refreshed rows. |
| `AdmissionService.Service.CheckBudget` | internal/admission/service.go:141-179 | All reasons of a denial, in order. |
| `AdmissionService.Service.Claim` | internal/admission/service.go:73-244 | Refines the claim step and its answer; keeps the budget bound. |
| `AdmissionService.Service.Renew` | internal/admission/service.go:246-287 | Refines the renew step and its fault; keeps the bound. |
| `AdmissionService.Service.Release` | internal/admission/service.go:289-321 | Refines the release step and its fault; keeps the bound. |
| `AdmissionService.Service.ResolveAttention` | internal/admission/service.go:323-378 | Refines the resolve step: what the error paths wrote is rolled back. |
| `AdmissionService.Service.Observe` | internal/admission/service.go:380-428 | Emits exactly the exceeded metrics not enforced before, changes no reservation, and reports an unknown one. |
| `AdmissionService.Service.PerformAll` | internal/admission/service.go:73-428 | The service follows the model over any run. |
| `GrokSink.StreamSink.Append` | internal/agent/grok.go:800-812 | Refines the append of a partial line. |
| `GrokSink.StreamSink.Log` | internal/agent/grok.go:895-911 | Refines the bounded write of a record. |
| `GrokSink.StreamSink.AppendToSummary` | internal/agent/grok.go:704-714 | Refines the bounded append. |
| `GrokSink.StreamSink.HandleJsonLine` | internal/agent/grok.go:846-887 | Refines the handling of a line: state and failure. |
| `GrokSink.StreamSink.FlushLine` | internal/agent/grok.go:814-844 | Refines the flush of a line. |
| `GrokSink.StreamSink.Write` | internal/agent/grok.go:785-798 | The line by line loop computes the byte by byte meaning of the stream. |
| `GrokSink.StreamSink.Finish` | internal/agent/grok.go:739-744 | Refines closing the sink. |
| `GrokSink.StreamSink.PerformAll` | internal/agent/grok.go:721-844 | The sink follows the model over any run. |
| `ForcedRestart.AbsorbEvent` | internal/artifactqual/emit.go:281-341 | One turn of the switch updates each map as the model says. |
| `ForcedRestart.AnyLater` | internal/artifactqual/emit.go:367-376 | Visiting the map in any order finds a later generation if and only if there is one. |
| `AttentionStore.Attentions.OpenAttention` | internal/attention/lifecycle.go:212-258 | Refines opening; conflict and invalid input as in the model. |
| `AttentionStore.Attentions.Submit` | internal/attention/lifecycle.go:348-440 | Refines submitting and its answer, effect included. |
| `AttentionStore.Attentions.Supersede` | internal/attention/lifecycle.go:442-462 | Refines superseding and its fault. |
| `AttentionStore.Attentions.CheckItem` | internal/attention/lifecycle.go:365-389 | The first fault of an action on its item, in order. |
| `AttentionStore.Attentions.PerformAll` | internal/attention/lifecycle.go:212-462 | The store follows the model over any run. |
| `CapacityLedger.Book.StoreReserve` | internal/quotamode/types.go:309-365 | A hold is the clamped demand under a new number; a refusal for want of headroom draws a number too. |
| `CapacityLedger.Book.Reserve` | internal/capacityledger/ledger.go:346-485 | Refines the reserve step and its answer. |
| `CapacityLedger.Book.Recheck` | internal/capacityledger/ledger.go:379-392 | A known attempt is handed out again exactly while held, complete and of the same identity. |
| `CapacityLedger.Book.OpenEntry` | internal/capacityledger/ledger.go:393-484 | A new attempt leaves an entry, held or refused. |
| `CapacityLedger.Book.Reconcile` | internal/capacityledger/ledger.go:568-629 | Refines the reconcile step and its answer, conflict included. |
| `CapacityLedger.Book.Release` | internal/capacityledger/ledger.go:635-664 | Refines the release step and its answer. |
| `CapacityLedger.Book.ObserveAfterBound` | internal/capacityledger/ledger.go:723-797 | Refines the observe step: a late rejection leaves what was already changed, unwritten. |
| `CapacityLedger.Book.Reopen` | internal/capacityledger/ledger.go:157-276 | Refines the reopen step; opens exactly if the file is readable and a release on load can be written. |
| `CapacityLedger.Book.PerformAll` | internal/capacityledger/ledger.go:346-797 | The ledger follows the model over any run. |

## Left out

- SQL, JSON, hashing, base32 and time formatting: tables are maps, hashes parameters, times integers.
- Busy-retry loops, contexts, mutexes and timers around the atomic steps.
- Other writers of the budget tables (internal/storage/nested_graph.go): the cache theorem is about the operations of internal/budget.
- Budget fields that no check reads: actors, hosts, timestamps, usage-record lists, gap reasons, authorization; `active`, which is always set; `Summaries`.
- BudgetLedger.Ledger.ExpireStale: the order of the returned reservations (by lease, then identifier) is not stated, because any order leaves the same tables; and its query compares leases as RFC 3339 text without trailing zeros, in which "…:00.5Z" sorts before "…:00Z", so that within one second text order is not time order: the model compares instants, as Commit, Release, Cancel and Renew do.
- Availability scoring, inventory-derived observations and the conditional upsert of breakers: deriving and storing are one step.
- BreakerStore.SortObservations: the stable library sort is modelled by insertion; only order and contents are stated.
- Admission: `Decision` views of remaining capacity, actors and the hash that names a reservation (a parameter).
- Attention: the machine-wide index, copying and sanitising of texts, evidence digests; the scan for forbidden control-plane text is a flag of the request.
- AttentionStore.Attentions.Submit: the copy of the last action, evidence identifier, input length and recovery in the item's own evidence map is not modelled, because no check reads it.
- Grok: decoding of frames, redaction, trimming and encoding are parameters; the reaction to a fault (cancelling the process) is not modelled.
- Forced restart: the text of event kinds is a datatype, the generation of an attempt a function; the `resumed` flag and the counters that are only copied are left out.
- Capacity ledger: the notes in the route reason, confidence and freshness labels and timestamps; the order of entries in the file and the recomputation of missing keys in files of older versions; canonical account references are taken as given (the hash is not modelled).
- CapacityLedger.Book.StoreReserve: whether there is headroom is a parameter, because the pressure in the soft-reservation store depends on clocks and other ledgers.
- Floating-point rounding of CPU shares and fractions: reals are used.
- Provider runners, authentication, environment scrubbing, artifact qualification, GitHub access, routing and snapshots: input and output, or flat checklists.
