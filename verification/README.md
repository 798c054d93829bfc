# Verified model of the Scalattice agent core

A Dafny model of the stateful protocols and planners at the centre of the agent, with proofs that hold for all inputs and all runs. Run `dafny verify dfyconfig.toml` to check it.

The modules follow the program:

- `SplitTransfer`, `SplitWaiter`: a KV state cut into chunks, reassembled by the session under a byte ceiling, and the waiter that polls with a lossy notifier (`src/agent.rs`).
- `JobProtocol`: job admission, the drop-guard lease, settling, stale-count healing and the supervisor restart, one step per critical section of the session lock (`src/agent.rs`).
- `Ladder`, `ModelCache`: the placement candidates for a model, the GPU and RAM residency cache, and the retry loop that cascades through freshly computed candidate lists (`src/llm/embedded.rs`, `src/llm/model_cache.rs`).
- `Generation`: prefill, sampling and streaming of one text attempt (`src/llm/embedded.rs`).
- `Occupancy`: the foreign-occupancy latch, proved equal to a predicate over its whole sample history (`src/gpu_occupancy.rs`).
- `Gguf`: the GGUF header reader against an encoder written from the GGUF specification, section "File Structure" (`src/models/gguf_arch.rs`).
- `Capacity`: hosting and reservation arithmetic (`src/models/capacity.rs`, `src/models/vram_plan.rs`).
- `SlotPlan`: the partition of devices into slots and the tensor-parallel card (`src/compute_pool.rs`).
- `ShardNames`, `Snapshot`: the two implementations of "is this image snapshot complete" (`src/image/mod.rs`, `src/image/worker.py`).
- `Framing`: the WebSocket writer and reader (`scripts/ci-update-smoke.py`).
- `Base`, `Numerals`: shared vocabulary.

Objects that the source updates in place are classes whose methods are tied to functions of the old state; the theorems are about those functions and about runs of them. Live memory readings, load results, callback outcomes, clocks and task interleavings are arbitrary at every step. Where a test or a constant of the source decides a theorem, the theorem writes it out on the fields.

Where the code departs from what its comments or a reader would expect, the model follows the code and states the exact extent:

- The cascade after VRAM pressure is documented as a walk down the tiers. On an unchanged list that offers `gpu-full` it alternates between the first two entries (`ModelCache.ReducedTierTriedIff`).
- Offload tiers of light layers are counted by free VRAM alone. With the file's own overhead they still fit, for every file up to 38 TB (`Ladder.FileTiersFit`; the exact condition is `Ladder.OffloadTierFitsIff`).
- A larger card can lose its placements: a budget of 999 layers or more drops the offload tiers, which for an unknown weight takes one device reporting 294 GB or more (`Ladder.LargerCardKeepsPlacementIff`; the budget of a tensor-parallel card comes from its largest member), and for a known one a file of more than 999 layers that does not fit whole (`Ladder.LargerCardKeepsKnownPlacementIff`).
- The waiter's completeness check and its deadline computation are separate steps, so a finished text is lost exactly when the computation comes at or after the deadline (`SplitWaiter.LateComputeLosesIff`).
- Restart exclusion holds in exactly the calm runs (`JobProtocol.ExclusionIffCalm`): a heal or clear under an unsettled job, or a second take inside an open window, can each be continued to a break. Split jobs clone their supervisor before admission and hold no lease; `SplitJobSafeIff` and `SplitLeakIff` say exactly when that is harmless.
- The tensor-parallel card resolves its indices over all rows, disabled ones included (`SlotPlan.GroupResolvesIff`).
- Without a hint the worker takes the first folder with an index (`Snapshot.ServedWithoutHintIff`).
- A placement that hosting accepts can reserve more RAM than is installed in exactly three situations (`Capacity.HostingCoversReservationIff`).
- The two snapshot checks read shard names differently exactly on irregular ones (`ShardNames.ShardNamesAgreeIff`): totals of 2^32 or more, empty prefixes, upper-case extensions and decorated numbers, with instances proved; and they take odd `weight_map` references differently (`Snapshot.BaseNamesAgreeIff`).

## Model

| member | source | states |
|---|---|---|
| SplitTransfer.ChunkRoundTrip | src/agent.rs:197-250 | For every text within the ceiling and every session history in which the id carries only that text's chunks (any order, duplicates, other ids' chunks, polls, expiries and ceilings not below the text in between): no chunk is rejected, and a poll yields exactly the text when and only when every index has arrived since the last assembly |
| SplitTransfer.RunKeepsOk | src/agent.rs:197-250 | In every run of pushes, polls, expiries and advertised ceilings `have` counts the filled parts, there are `total` slots, and no reassembly stores more than 2^30 bytes |
| SplitTransfer.StepKeepsOk | src/agent.rs:197-250 | Each critical section keeps that invariant, accepted or rejected |
| SplitTransfer.RunCarries | src/agent.rs:197-250 | After any conforming run the session holds exactly the chunks whose indices arrived since the last assembly |
| SplitTransfer.PushCarries | src/agent.rs:197-231 | A chunk of the text, new or repeated, is accepted below the ceiling and adds exactly its index |
| SplitTransfer.PushHolds | src/agent.rs:197-231 | Under any ceiling a chunk of the text is accepted and adds its index, or is refused over the ceiling and takes the pieces collected so far with it; below the ceiling it is always accepted |
| SplitTransfer.PollHolds | src/agent.rs:234-250 | A poll assembles the text and forgets the entry iff all indices are there; otherwise it leaves the pieces alone and waits |
| SplitTransfer.FitsBelowCeiling | src/agent.rs:216-226 | The bytes already stored plus a missing chunk never exceed the text, so the ceiling test cannot fire for a text below it |
| SplitTransfer.ChunksRebuild | src/agent.rs:3300-3335 | The sender's chunks concatenate to the text; each is non-empty, all but the last are full |
| SplitTransfer.SessionInbox.EntryOrInsert | src/agent.rs:204-212 | Finds the entry or creates an untouched one with a fresh notifier, and changes nothing else |
| SplitTransfer.SessionInbox.PushInboundSplitChunk | src/agent.rs:197-231 | Each verdict exactly under its own condition on the fields, the new state in every case, the rejections included, and the invariant kept |
| SplitTransfer.SessionInbox.TakeCompleteInboundSplitState | src/agent.rs:234-250 | A finished entry is removed and all its parts come back in index order; anything else is left untouched |
| SplitTransfer.SessionInbox.PollInboundSplitState | src/agent.rs:3249-3282 | One locked turn of the waiter: the text iff every part is there, a mismatch iff the totals differ, else an entry to be notified through |
| SplitTransfer.SessionInbox.ApplyCloudWsMaxBytes | src/agent.rs:504-519 | The ceiling follows the advertisement, capped at 2^30; absent or zero is ignored |
| SplitTransfer.SendInvokeSplitResult | src/agent.rs:3284-3335 | Too long is refused, up to 768 KiB travels inline, anything else as two or more chunks in index order, full but the last, that rebuild the state; answer and token counts ride on the last frame only |
| SplitWaiter.LostWakeupsAreHarmless | src/agent.rs:3249-3282 | In every run of the waiter among other tasks, entry removals by other waiters and over-ceiling drops with re-sent chunks included: with each check and its deadline computation at one instant, it never times out once all pieces are there before the deadline, on a live or an orphaned notifier |
| SplitWaiter.TimeoutStraddlesDeadline | src/agent.rs:3249-3282 | In every such run a returned text is the sender's, and a time-out with complete pieces means the last check came before the last piece and the deadline computation after the deadline |
| SplitWaiter.CompleteWaiterReturns | src/agent.rs:3254-3280 | Asleep on a live or an orphaned notifier, a waiter whose pieces are complete returns the text at the latest when its timeout fires |
| SplitWaiter.LateComputeLosesIff | src/agent.rs:3254-3280 | In any state where the waiter found the text incomplete and all pieces are here by now, no continuation returns the text iff its remaining time is computed at or after the deadline |
| SplitWaiter.OrphanStillReturns | src/agent.rs:3249-3282 | After any run that leaves the waiter asleep with complete pieces, the timeout alone leads to the text, whoever removed and recreated the entry |
| SplitWaiter.OrphanedSleeperReturns | src/agent.rs:204-231 | Such runs exist: the entry is removed under the sleeper, recreated with a new notifier by the completing chunk, and the sleeper still returns the text |
| SplitWaiter.EventHolds | src/agent.rs:197-250 | Any section of another task leaves exactly the pieces its history says |
| SplitWaiter.NewPieceWakesSleeper | src/agent.rs:227-229 | Storing a missing piece below the ceiling wakes a waiter asleep on the live notifier |
| SplitWaiter.SlowComputeLosesText | src/agent.rs:3254-3280 | An instance: a run checks at 0, gets its only piece at 5, computes at 12 and drops a text complete before the deadline 10 |
| SplitWaiter.RunKeeps | src/agent.rs:3249-3282 | Every run keeps the waiter's invariant between its phase, the session and the history of arrivals |
| SplitWaiter.ActKeeps | src/agent.rs:3249-3282 | Each single step keeps it |
| JobProtocol.EveryRunAccounts | src/agent.rs:48-85 | Under every interleaving of admit, finish, abort, lease, heal and cancel clear: a `respond_invoke` job never settles twice, has settled once its task is over and its lease ran, the count never exceeds the unsettled jobs, and zero, Idle and no active id coincide |
| JobProtocol.ActKeepsAccounted | src/agent.rs:48-85 | Each step keeps that accounting |
| JobProtocol.InvokeOnlyRunsCountExactly | src/agent.rs:2572-2643 | Without split jobs, heals and clears the count equals the unsettled jobs |
| JobProtocol.CountStaysExact | src/agent.rs:2975-2987 | Each step keeps an exact count exact, unless a heal or clear fires under an unsettled job |
| JobProtocol.TaskStepCounts | src/agent.rs:2975-2987 | A task step moves the count by one exactly when it makes a task owe a settlement or settles it |
| JobProtocol.RestartExcludesJobs | src/agent.rs:1617-1674 | In every calm run (no heal or clear fires under an unsettled job, no take overlaps an open window, the 32-bit count does not saturate; any number of claimed restarts): no unsettled job exists between taking the old supervisor and the end of that restart, and no admitted `respond_invoke` job's supervisor is shut down before it settles |
| JobProtocol.ExclusionIffCalm | src/agent.rs:1617-1674 | Exactly the calm runs: over a whole run exclusion is beyond breaking by any calm continuation iff the run is calm |
| JobProtocol.StepSafeIff | src/agent.rs:1631-1642 | From an exclusive state a step leaves exclusion beyond breaking iff it neither fires a heal or clear under an unsettled job nor takes at count zero inside another window |
| JobProtocol.WipeCanBreak | src/agent.rs:1732-1743 | From every exclusive state, after such a heal or clear one more restart opens its window over the job |
| JobProtocol.OverlapCanBreak | src/agent.rs:1631-1642 | From every exclusive state, after an overlapping take the end of the first restart admits a job inside the second window |
| JobProtocol.OneAtATimeIsCalm | src/agent.rs:1606-1674 | Runs with at most one restart in flight and nothing wiped are calm |
| JobProtocol.StepKeepsExclusive | src/agent.rs:1617-1674 | Every other step keeps the exclusion invariant |
| JobProtocol.TaskStepKeepsExclusive | src/agent.rs:2572-2643 | Job steps keep the exclusion invariant |
| JobProtocol.RestartStepKeepsExclusive | src/agent.rs:1617-1674 | Restart steps keep it |
| JobProtocol.StartIsExclusive | src/agent.rs:160-190 | The initial session satisfies it |
| JobProtocol.SecondRestartBreaksExclusion | src/agent.rs:1617-1674 | An instance: two overlapping restarts, and a job admitted inside the second window |
| JobProtocol.HealBreaksExclusion | src/agent.rs:1732-1743 | An instance: a heal under a live job, and a restart that shuts its supervisor down |
| JobProtocol.SplitJobMayUseShutSupervisor | src/agent.rs:3021-3116 | An instance: a calm run admits a split job onto a supervisor already shut down |
| JobProtocol.SplitJobSafeIff | src/agent.rs:3021-3119 | In every calm run, at any point where an admitted split job is unsettled, its supervisor is shut down iff the one it cloned was not the installed one at its admission section |
| JobProtocol.RunKeepsTraced | src/agent.rs:1631-1674 | In calm runs every cloned supervisor is installed, being replaced, or already shut down |
| JobProtocol.SplitLeakIff | src/agent.rs:3111-3246 | In every run where no heal or clear fires under an unsettled job and the count does not saturate, once every job is over and no lease is pending the count is zero iff no split job died between admission and settling |
| JobProtocol.AbandonedIff | src/agent.rs:3111-3246 | A split job is left unsettled for good exactly when such a death occurred |
| JobProtocol.CountedRunsCountExactly | src/agent.rs:2572-2643 | In those runs the count equals the unsettled jobs, split jobs included |
| JobProtocol.AbandonedSplitLeaksCount | src/agent.rs:3111-3246 | An instance: a split task that dies after admission leaves the machine Busy with no task left to settle |
| JobProtocol.SessionState.MarkBusy | src/agent.rs:2612-2620 | Count up by one up to the 32-bit maximum, Busy, this id active |
| JobProtocol.SessionState.AdmitInvoke | src/agent.rs:2574-2616 | Admits iff no restart is under way, no update drain, and the machine is idle or below its limit; then count, state and active id change, and otherwise nothing |
| JobProtocol.TaskExistsIff | src/agent.rs:2574-2616 | Over every run a new job exists iff some admission section met it with no restart under way, no drain and, for an invoke job, the machine idle or below its limit |
| JobProtocol.DrainTakesNothingIn | src/agent.rs:2588-2599 | While every admission sees the drain, no run takes in a job |
| JobProtocol.SessionState.Perform | src/agent.rs:1585-1674 | Every step of the job system is one of the session's critical sections, fields and answers alike |
| JobProtocol.BothWaysOutSettleOnce | src/agent.rs:48-85 | An aborted job settles through its lease and a finished one through its own section, each exactly once |
| JobProtocol.SessionState.AdmitSplit | src/agent.rs:3084-3119 | Admits iff neither restarting nor draining, whatever the ceiling |
| JobProtocol.SessionState.SettleJob | src/agent.rs:2975-2987 | Count down by one, Idle and no active id exactly when it reaches zero |
| JobProtocol.SessionState.SettleLease | src/agent.rs:69-83 | The spawned decrement settles unless the count is already zero |
| JobProtocol.SessionState.ClearJobs | src/agent.rs:2382-2393 | Cancel leaves zero jobs, Idle, no active id |
| JobProtocol.SessionState.HealStale | src/agent.rs:1732-1746 | Heals exactly when jobs are counted but nothing is in flight and no slot is busy |
| JobProtocol.SessionState.ClaimRestart | src/agent.rs:1585-1616 | The claim section of the restart theorem: a restart is claimed exactly when one is pending or due and no job is counted, and a request is never lost while jobs are counted; the session invariant is kept |
| JobProtocol.SessionState.TakeSupervisor | src/agent.rs:1631-1642 | The take section: the supervisor is taken only at zero jobs, and from then on nothing is admitted; otherwise the request is put back and the supervisor stays |
| JobProtocol.SessionState.FinishRestart | src/agent.rs:1652-1672 | The install section: admission reopens either way, with the new supervisor installed or the request kept; a closed admission never coexists with an installed supervisor |
| Ladder.LoadParamCandidates | src/llm/embedded.rs:1123-1271 | Returns the ladder the pool and the live reading determine, and fails exactly when it is empty |
| Ladder.EveryListIsALadder | src/llm/embedded.rs:1123-1271 | In every list the tiers are distinct and in fixed order, layer counts strictly fall, only CPU tiers have zero layers, and only Metal and CPU-only pools have CPU tiers |
| Ladder.OffloadLayersMonotone | src/llm/embedded.rs:1089-1121 | More free VRAM never means fewer offloaded layers |
| Ladder.OffloadTierFitsIff | src/llm/embedded.rs:1089-1121 | For a file's weight, layer count and extra: every layer count on offer at every reading fits live free VRAM minus the extra iff it does at one reading, the least useful one (always for layers above 0.01 GB) |
| Ladder.FileTiersFit | src/models/vram_plan.rs:46-112 | With the extra the memory plan computes for the file, the power law included, all offload tiers of every file up to 38 TB fit at all readings |
| Ladder.SmallExtraFits | src/llm/embedded.rs:1089-1121 | Extras up to 21.6 GB, and up to 57 GB for files of 8 GB and more, never overflow |
| Ladder.OffloadSliceFits | src/llm/embedded.rs:1089-1121 | The "if" direction, for one reading |
| Ladder.ScaleBelow | src/models/vram_plan.rs:53-55 | The layer scale of a weight is bounded through its defining power law |
| Ladder.HugeFileOverflows | src/llm/embedded.rs:1089-1121 | The condition is not empty: a 191 TB file of twenty million layers overflows |
| Ladder.ListedTiersFit | src/llm/embedded.rs:1123-1271 | In a list built from live VRAM every offload tier fits, for every file up to 38 TB with the memory plan's own extra and any number of layers |
| Ladder.FullTierHasRoom | src/llm/embedded.rs:1158-1212 | A full load is listed iff weights and extra fit live VRAM and, on a tensor-parallel pool, either the largest card takes them or every card has its share and 2 GB |
| Ladder.OffloadTiersExactly | src/llm/embedded.rs:1215-1248 | The offload tier is listed iff at least one and at most 998 layers fit and a device is there, with all of them; the reduced tier iff two or more, with half of them |
| Ladder.OffloadedLayersAreMost | src/llm/embedded.rs:1089-1121 | Nothing is offloaded below a quarter of the file within 0.75 and 2 GB; above, as many layers as fit and not one more, up to the backstop |
| Ladder.BackstopRounds | src/compute_pool.rs:837-845 | The backstop is free VRAM less 768 MiB in layers of 300 MiB, to the nearest one |
| Ladder.EstimatedLayersRound | src/llm/embedded.rs:1077-1083 | Without a layer count one layer per half gigabyte, to the nearest one and at least one |
| Ladder.AvailableMeans | src/llm/embedded.rs:867-918 | A list is built from the pool's own VRAM, cut to what is free now |
| Ladder.LargerCardKeepsPlacementIff | src/llm/embedded.rs:1214-1268 | For an unknown weight, off Metal and CPU, a larger card keeps a placement iff its free VRAM is below 294 GB or its layer budget below 999 |
| Ladder.LargerCardKeepsKnownPlacementIff | src/llm/embedded.rs:1089-1268 | For a known weight, off Metal and CPU, a larger card keeps a placement iff the whole file is on offer there or the layer budget is below 999 |
| Ladder.ManyLayersCanLosePlacement | src/llm/embedded.rs:1089-1268 | An instance: a 408 GB file of 4000 layers, with its own extra, is placed on a 100 GB card and not on a 300 GB one |
| Ladder.LargerCardKeepsKnownPlacement | src/llm/embedded.rs:1089-1268 | In particular a larger single, Vulkan or Metal card keeps a placement for every file with at most 999 layers above 0.01 GB |
| Ladder.BudgetCoversAllLayersIff | src/compute_pool.rs:837-845 | The layer estimate reaches 999 exactly at 294 GB |
| Ladder.AllLayersAreTheFile | src/llm/embedded.rs:1089-1121 | Room for all layers is room for the file and the extra |
| Ladder.LargerCardCanLosePlacement | src/llm/embedded.rs:1123-1271 | An instance: with an unknown weight a 300 GB card loses the placements a 24 GB card has |
| ModelCache.Cache.WithLoadedWeights | src/llm/model_cache.rs:479-595 | Given what the machine answers, the whole call is fixed: which placement the first callback sees; that each retried callback runs on the model reloaded from `next_cascade_index` or `next_cpu_cascade_index` of the fresh list; and that the call ends only with success, another error, five callbacks, the end of the cascade, an empty list, a reload that fails on every candidate, or a missing projector |
| ModelCache.Cache.RetryLoop | src/llm/model_cache.rs:508-594 | From a loaded model: at most five callbacks, each but the last followed by the one its failure leads to, the last one ending the call as the source does |
| ModelCache.Cache.Attempt | src/llm/model_cache.rs:508-594 | One turn: either the next callback sees a model reloaded from the next index of a fresh list, or the call ends for one of the listed reasons |
| ModelCache.Cache.RunCallback | src/llm/model_cache.rs:510-564 | A cascading failure drops every resident, and a Metal decode failure raises the sticky flag in the same section |
| ModelCache.Cache.Reload | src/llm/model_cache.rs:540-590 | Stops with the callback's error only when the next index is past the fresh list, with a list error only for an empty one, with a load error only when nothing loads from that index on; otherwise the model is loaded from there |
| ModelCache.RunsAgain | src/llm/model_cache.rs:540-590 | As long as a later tier is listed and loads, the callback runs again, up to five times |
| ModelCache.FailsOnlyAtTheEnd | src/llm/model_cache.rs:553-582 | A cascading error is returned only after five callbacks or when the fresh list has no tier to go on to |
| ModelCache.NextCascadeIndexMeans | src/llm/model_cache.rs:676-690 | After a failed full load the first other label; else the full load where it is listed first; else the label behind the failed one, or the end |
| ModelCache.NextCpuCascadeIndexMeans | src/llm/model_cache.rs:694-700 | The first candidate of a fresh list that loads no GPU layers; only Metal and CPU lists have one |
| ModelCache.Cache.Turn | src/llm/model_cache.rs:508-594 | One more turn keeps the history of the call |
| ModelCache.CallAppends | src/llm/embedded.rs:255-264 | One more callback keeps the history property: discrete pools never saw zero GPU layers, and after a Metal decode failure every later Metal callback ran with none |
| ModelCache.Cache.Prepare | src/llm/model_cache.rs:485-506 | Before the first callback: the resident found or one loaded from the top with its one retry, the labels of a fresh list or none, and the projector where it is needed |
| ModelCache.Cache.MakeResident | src/llm/model_cache.rs:485-497 | Finds the key or loads it from the top; it is then alone in the GPU map and off the RAM shelf |
| ModelCache.Cache.MakeGpuRoom | src/llm/model_cache.rs:283-334 | A hit changes no other entry; a cold load empties the GPU map, keeps of the shelf only the path itself, and shelves the dropped file unless the pool is Metal |
| ModelCache.Cache.DropResident | src/llm/model_cache.rs:305-317 | The one resident goes; off Metal its file is shelved as `try_shelve_cpu` decides |
| ModelCache.Cache.TryShelveCpu | src/llm/model_cache.rs:161-207 | A shelved path is only touched; otherwise the shelf is trimmed and the path joins it iff the file is not empty, fits the RAM budget and free RAM, and maps |
| ModelCache.Cache.CanShelve | src/llm/model_cache.rs:110-127 | Allows exactly the non-empty files that fit the budget together with the shelf and the free RAM, where both readings are known |
| ModelCache.RamBudgetMeans | src/llm/model_cache.rs:98-104 | The shelf budget is installed RAM less 4 GB, or from 36 GB on less an eighth rounded half up |
| ModelCache.Cache.DropOtherRamShelves | src/llm/model_cache.rs:144-159 | Keeps the one path, shelved bytes do not grow |
| ModelCache.TrimLru | src/llm/model_cache.rs:129-142 | Removes the least recently used entries, stops as soon as the request fits, and the last removal was necessary |
| ModelCache.Cache.EnsureLoaded | src/llm/model_cache.rs:414-450 | Loads iff some candidate loads, from the start tier on or, after VRAM pressure from the top, in a second list; the resident has that candidate's tier and layers |
| ModelCache.LoadStartingAt | src/llm/embedded.rs:780-825 | The first candidate at or after the start that loads, GPU tiers skipped after a GPU allocation failure; otherwise none, and the last tried failure decides the error class |
| ModelCache.LoadsAtIff | src/llm/embedded.rs:794-822 | In plain terms: the candidate taken is the first that would load and has no GPU layers or no GPU tier before it that ran out of memory |
| ModelCache.Cache.Load | src/llm/embedded.rs:780-825 | The tier and layers are those of the list read; a failure is VRAM pressure iff the list was empty or the last tried failure was; a discrete model has GPU layers, an unreliable Metal one has none |
| ModelCache.Cache.CandidateTiers | src/llm/embedded.rs:850-859 | The labels of the fresh list, and an error exactly when it is empty |
| ModelCache.Cache.EvictAll | src/llm/model_cache.rs:655-660 | Empties GPU map and shelf |
| ModelCache.Cache.EvictAllForPath | src/llm/model_cache.rs:662-671 | Afterwards the path is neither resident nor shelved; other keys go only when their text extends the path |
| ModelCache.ReducedTierTriedIff | src/llm/model_cache.rs:673-690 | On an unchanged list the reduced offload tier is reached by VRAM-pressure hops iff `gpu-full` is not offered, however many attempts are made |
| ModelCache.FullFrontAlternates | src/llm/model_cache.rs:673-690 | With `gpu-full` in front the hops alternate between index 0 and 1 |
| ModelCache.OffloadFrontDescends | src/llm/model_cache.rs:673-690 | Without it the hops walk down the list one by one |
| Generation.GenerateText | src/llm/embedded.rs:355-480 | Prefill decodes each prompt token once, in order, logits on the last only; all positions stay below the window; a completed attempt streamed exactly its content; a collapsed one streamed nothing of the final eight-token run |
| Generation.Prefill | src/llm/embedded.rs:386-407 | Batches of the chunk size, the last one shorter, concatenate to the prompt at its positions with logits on the last token only, or to a prefix where a decode failed |
| Generation.Sampling | src/llm/embedded.rs:416-480 | The loop ends by limit, end of text, collapse or error; each accepted piece is sent back once at the next position |
| Generation.TakeSample | src/llm/embedded.rs:436-473 | One sample: held back, streamed, or the collapse that ends the attempt |
| Generation.Absorb | src/llm/embedded.rs:436-459 | The streamed text is always everything before the current run of vocab-zero pieces |
| Generation.Flush | src/llm/embedded.rs:476-479 | A run still pending at the end is streamed, so the content is the whole text |
| Generation.RunExtends | src/llm/embedded.rs:266-274 | The counter is the length of the vocab-zero run the samples end in |
| Generation.NotYet | src/llm/embedded.rs:266-274 | A run below eight means no prefix collapsed either |
| Generation.NeverEight | src/llm/embedded.rs:266-274 | Without a collapse no eight samples in a row are the first token or bangs only |
| Generation.BumpMeans | src/llm/embedded.rs:266-274 | The counter grows on exactly those samples and reports at eight |
| Occupancy.LatchRefinesHistory | src/gpu_occupancy.rs:57-101 | For every run with non-decreasing times a slot is latched iff its history of views says so: 12 s of foreign use outside every 15 s window after our own activity, in every update since, and never free 8 s apart without foreign use in between; foreign use is written out on the view fields |
| Occupancy.LatchedWasForeign | src/gpu_occupancy.rs:62-126 | A latched slot had in its run updates 12 s apart, the first 15 s after our own activity, with views of an idle discrete card that holds none of our models and is short of the smallest need by more than the OS slack, and nothing else was seen of it between them |
| Occupancy.ForeignSeriesLatches | src/gpu_occupancy.rs:62-126 | Conversely every such series latches the slot at its 12 s |
| Occupancy.ForeignIff | src/gpu_occupancy.rs:106-126 | The raw test on the view fields, the `cpu` kind in any letter case |
| Occupancy.EntersAndLeavesExactly | src/gpu_occupancy.rs:62-101 | Event by event: a slot enters iff such a series ends there, leaves iff free samples EXIT_HOLD apart bracket no counting one, and is dropped when not sampled |
| Occupancy.WatchProjects | src/gpu_occupancy.rs:57-101 | Slots do not interact: seen from one slot the watch runs on that slot's own events |
| Occupancy.FoldFollows | src/gpu_occupancy.rs:57-101 | The three times of a slot name the events of its history they stand for |
| Occupancy.ClearKeysInsideLatched | src/gpu_occupancy.rs:62-101 | In every run `clear_since` keys are latched and disjoint from `candidate_since` |
| Occupancy.UnlatchedStep | src/gpu_occupancy.rs:70-83 | A slot outside the latch enters exactly on a series that spans ENTER_HOLD |
| Occupancy.LatchedFreeStep | src/gpu_occupancy.rs:84-96 | A latched slot leaves on a free sample iff a bracket closes there |
| Occupancy.LatchedNotFreeStep | src/gpu_occupancy.rs:70-101 | Any other event keeps a latched slot in, absence excepted |
| Occupancy.OccupancyWatch.NoteOurVram | src/gpu_occupancy.rs:57-60 | Opens the ignore window and forgets the candidates |
| Occupancy.OccupancyWatch.LookAt | src/gpu_occupancy.rs:67-96 | One view changes only its own slot's entries, as the slot automaton says |
| Occupancy.OccupancyWatch.Update | src/gpu_occupancy.rs:62-101 | One update is the step that the theorems about runs speak of, and returns the latched ids |
| Gguf.GgufFile.GgufShapeUncached | src/models/gguf_arch.rs:80-131 | For every well-formed header: the shape it describes, by the lookups of its entries, and every byte consumed; other magics and versions give none and truncated headers an error |
| Gguf.ExactKeysDetermineShape | src/models/gguf_arch.rs:107-131 | A header that stores its architecture's own counts has one described shape: there is one iff all four counts are non-zero modulo 2^32, and block count, embedding length, head count and KV head count are each the stored integer modulo 2^32, the head count where no KV count is stored |
| Gguf.EncodedCount | src/models/gguf_arch.rs:142-165 | Reference bytes of an entry with a 32-bit count |
| Gguf.EncodedNegative | src/models/gguf_arch.rs:167-175 | Reference bytes of a negative count in two's complement |
| Gguf.EncodedArray | src/models/gguf_arch.rs:214-221 | Reference bytes of an array |
| Gguf.OrderDoesNotMatter | src/models/gguf_arch.rs:94-109 | Entries with distinct keys give the same scalars and architecture in any order |
| Gguf.ScalarsMean | src/models/gguf_arch.rs:94-109 | The scalar map holds exactly the integer-valued entries |
| Gguf.ArchMeans | src/models/gguf_arch.rs:94-113 | The architecture is the string entry of its key, or empty |
| Gguf.GgufFile.SkipValue | src/models/gguf_arch.rs:185-212 | Stepping over any encoded value, nested arrays included, stops exactly at its end |
| Gguf.GgufFile.SkipArray | src/models/gguf_arch.rs:214-221 | The same for an array of up to ten million elements |
| Gguf.GgufFile.ReadUnsigned | src/models/gguf_arch.rs:167-183 | Reads the four kept integer types, negatives as zero, and leaves the cursor alone for the rest |
| Gguf.GgufFile.ReadString | src/models/gguf_arch.rs:154-165 | Returns the encoded string of up to 1 MiB and stops after it |
| Gguf.GgufFile.ReadUint | src/models/gguf_arch.rs:142-152 | Reads back a little-endian number |
| Gguf.GgufFile.ReadExact | src/models/gguf_arch.rs:142-152 | All the bytes asked for, or an error |
| Gguf.GgufFile.SeekCurrent | src/models/gguf_arch.rs:185-200 | Moves by the length read as a signed number; a position before the start is an error |
| Gguf.GgufFile.ReadEntry | src/models/gguf_arch.rs:97-109 | One key-value pair updates scalars and architecture as its meaning says and stops at its end |
| Gguf.GgufFile.ReadEntries | src/models/gguf_arch.rs:94-109 | All pairs are consumed and scalars and architecture are those of the whole list |
| Gguf.GgufFile.ReadBody | src/models/gguf_arch.rs:87-131 | Behind the version everything is consumed and the shape is one the entries describe |
| Gguf.GgufFile.ReadShape | src/models/gguf_arch.rs:107-131 | Looks the four counts up and returns each in its own field, truncated to 32 bits, or nothing when one is missing or zero |
| Gguf.GgufFile.Scalar | src/models/gguf_arch.rs:133-140 | The exact key wins; otherwise any dotted key with the suffix; none only when there is none |
| Gguf.LittleEndianInverts | src/models/gguf_arch.rs:142-152 | Decoding a k-byte little-endian number gives the number back |
| Capacity.HostingIsMonotone | src/models/capacity.rs:428-531 | Acceptance survives a larger card, more RAM, less headroom and a shorter job window, also where the decision moves from layer offload to the earlier weights-on-GPU return |
| Capacity.HostedIffHasRoom | src/models/capacity.rs:428-531 | A text job is accepted iff its memory is there, roundings included: on a discrete card everything, or the weights with KV and headroom in RAM, or 65% of the file with the rest of the weights, KV and headroom in RAM; on a CPU slot and in unified memory likewise; and the minimum RAM on top |
| Capacity.OffloadFitsIff | src/models/capacity.rs:489-531 | Layer offload is accepted iff the card carries 65% of the file and RAM the rest, the KV cache and the headroom |
| Capacity.ImageHostedIff | src/models/capacity.rs:396-412 | A picture job is accepted iff one eligible accelerator has the catalog's VRAM, whatever the RAM |
| Capacity.NeedsMean | src/models/capacity.rs:82-131 | Server numbers stand as they are; without them the full need is the weights' need plus the window's KV, with the VRAM floor at the catalog window only |
| Capacity.WindowMeans | src/models/capacity.rs:57-64 | The catalog window or 4096 and 8192 tokens; a job's own window is cut to it and never below 512 |
| Capacity.PlanByTheBook | src/models/vram_plan.rs:40-91 | Reference values of KV cache and scratch, with and without a shape |
| Capacity.LadderUsesThisPlan | src/models/vram_plan.rs:98-111 | The ladder's extra is this plan at 4096 tokens |
| Capacity.OtherReservations | src/models/capacity.rs:224-256 | A CPU slot reserves weights, KV and headroom or the minimum RAM; pictures and unified memory reserve nothing |
| Capacity.ReservationIsOverflow | src/models/capacity.rs:224-256 | An accelerator placement reserves what overflows the card plus headroom, rounded up to a gigabyte, and nothing only for at most 0.05 GB |
| Capacity.OffloadRamCoversKvRam | src/models/capacity.rs:151-158 | RAM that satisfied layer offload satisfies the KV-in-RAM test of the earlier branch |
| Capacity.OffloadIsMonotone | src/models/capacity.rs:507-531 | An accepted layer offload stays accepted on a larger card |
| Capacity.ShorterWindowNeedsLess | src/models/capacity.rs:57-117 | Both needs grow with the job window |
| Capacity.HostingCoversReservationIff | src/models/capacity.rs:224-256 | For every row and card: every accepted machine covers the placement's RAM reservation iff the row asks for the 32-bit maximum of RAM or the card is in none of three guard-checkable situations: CPU-only accepted as full-size, a catalog full need understated against the weights, or a shortfall within the 5 MB slop that rounds KV up a gigabyte |
| Capacity.CoveredReservation | src/models/capacity.rs:224-256 | The covering direction, for one machine |
| Capacity.UncoveredReservation | src/models/capacity.rs:224-256 | For every other card, an accepted machine whose reservation exceeds its RAM |
| Capacity.AtMostOneOver | src/models/capacity.rs:224-256 | With weights need at most full need an accelerator's reservation is at most one gigabyte over, and only when the card misses the weights by at most 0.005 GB |
| Capacity.UncoveredCardsExist | src/models/capacity.rs:224-256 | Both kinds of exception occur |
| Capacity.DerivedNeedsAreOrdered | src/models/capacity.rs:82-117 | A row without server numbers always has weights need at most full need |
| Capacity.GbCeilMonotone | src/models/capacity.rs:10-16 | Rounding up is monotone, and 5 MB more costs at most one gigabyte |
| Capacity.GbCeil | src/models/capacity.rs:10-16 | The least whole number of gigabytes, zero for nothing, capped at 32 bits |
| Capacity.PlanGrows | src/models/vram_plan.rs:40-91 | KV and scratch are non-negative and grow with the window |
| SlotPlan.BuildComputeSlots | src/compute_pool.rs:262-483 | Fails without enabled devices or without any slot; otherwise the plan's slots and tensor-parallel group |
| SlotPlan.SlotsPartitionIff | src/compute_pool.rs:262-483 | The plan is a partition (each slot drives exactly one enabled device or the invented CPU, no device backs two slots, no slot id occurs twice) iff no two enabled CUDA cards share an index |
| SlotPlan.SlotsPartition | src/compute_pool.rs:262-483 | The "if" direction |
| SlotPlan.EveryServedDeviceBacks | src/compute_pool.rs:274-437 | No enabled accelerator with a runtime is left without a slot |
| SlotPlan.InventedCpuOnlyWithoutRow | src/compute_pool.rs:443-478 | A CPU is invented only on a machine that lists none, enabled or not |
| SlotPlan.CudaSlotsOrderedAndGrouped | src/compute_pool.rs:315-345 | CUDA slots come first, by VRAM descending then index, all in the group or none; nothing else is grouped |
| SlotPlan.HomogeneousIff | src/compute_pool.rs:71-82 | Homogeneous iff at least two cards, one non-empty product, sizes pairwise within a gigabyte |
| SlotPlan.TpGroupIff | src/compute_pool.rs:301-313 | The plan has the group exactly when there are at least two CUDA cards, of one named product and pairwise within a gigabyte, and then it lists all their indices in device order |
| SlotPlan.SortCudaSorts | src/compute_pool.rs:315-317 | The sort orders by VRAM then index |
| SlotPlan.PickedMeans | src/compute_pool.rs:263-296 | Each list holds exactly the enabled devices of its role, in device order |
| SlotPlan.Classify | src/compute_pool.rs:263-296 | The loop fills the five lists; the last enabled CPU row wins |
| SlotPlan.RoleMeans | src/compute_pool.rs:275-298 | Which list a device goes on, from its kind, its id and its name alone |
| SlotPlan.VramMeans | src/compute_pool.rs:763-773 | The reported VRAM, or 2, 1 or 0 gigabytes by kind where none is reported |
| SlotPlan.CudaSlotMeans | src/compute_pool.rs:320-348 | Every field of a CUDA slot |
| SlotPlan.GpuSlotMeans | src/compute_pool.rs:350-434 | Every field of a Metal, Vulkan or integrated slot |
| SlotPlan.CpuSlotIff | src/compute_pool.rs:443-444 | There is a CPU slot iff no CPU row is turned off and no enabled Metal device meets a Metal build |
| SlotPlan.CpuSlotMeans | src/compute_pool.rs:444-478 | It stands for the last enabled CPU row or the invented one, and loads no layers |
| SlotPlan.PrefixTellsFamily | src/compute_pool.rs:338-470 | A slot id determines its family and number |
| SlotPlan.BuildTpCardForGroup | src/compute_pool.rs:486-525 | Fails iff an index is missing; else lists the first match of each index in worker-local numbering, with their total, their shares and the layer budget of the largest |
| SlotPlan.TpCardIsTheGroup | src/compute_pool.rs:486-525 | When no enabled CUDA card is shadowed by an earlier row with its index, the group card drives exactly the enabled CUDA cards in device order, and its split sums to one |
| SlotPlan.GroupResolvesIff | src/compute_pool.rs:493-497 | Every index of the group leads back to its own enabled row iff no row before an enabled CUDA card, enabled or not and of any kind, parses to its index |
| SlotPlan.DistinctIdsAreUnshadowed | src/compute_pool.rs:493-497 | CUDA indices distinct over the whole list are enough |
| SlotPlan.ProportionsSumToOneIff | src/compute_pool.rs:917-920 | The fractions sum to one iff some card has memory |
| SlotPlan.DisabledTwinIsClaimed | src/compute_pool.rs:493-497 | An instance: a disabled twin listed first is claimed in place of the enabled card |
| Numerals.ParseInvertsPrinting | src/compute_pool.rs:905-908 | `parse::<u32>` gives back a printed number exactly when it fits 32 bits |
| Numerals.ParseU32Means | src/compute_pool.rs:905-908 | Digits with one optional plus sign, up to 4294967295 |
| Numerals.ParseU32Refuses | src/compute_pool.rs:905-908 | Any other character refuses the number |
| ShardNames.ParseInvertsPrint | src/image/mod.rs:168-182 | Parsing a printed shard name gives it back for every prefix, `-of-` included: in Rust iff the total fits 32 bits, in Python iff the prefix is not empty |
| ShardNames.ShardNamesAgreeIff | src/image/worker.py:177-206 | Both programs read the same shard, or none, out of a name iff the name is regular: a numbered stem has a non-empty prefix exactly when its numbers are plain 32-bit digits and its extension lower-case |
| ShardNames.PartsAgreeIff | src/image/worker.py:193-203 | The same for the three parts of a stem |
| ShardNames.BothReadAlike | src/image/worker.py:193-203 | When both programs read a shard out of a name they read the same |
| ShardNames.NumbersAgreeIff | src/image/worker.py:196-200 | `parse::<u32>` and `int` read a text alike iff Python takes it for no number or it is plain digits, at most a plus sign before them, below 2^32 |
| ShardNames.SignMeans | src/image/worker.py:196-200 | A minus sign negates, a plus sign does nothing |
| ShardNames.PyUnsignedRefuses | src/image/worker.py:196-200 | Underscores stand only between two digits |
| ShardNames.UnderscoreSplitsReaders | src/image/worker.py:196-200 | Digits with an underscore between them are a number to Python alone |
| ShardNames.BlankSplitsReaders | src/image/worker.py:196-200 | So are digits after a blank |
| ShardNames.UpperCaseSplitsReaders | src/image/mod.rs:168-182 | Every printed shard with an upper-case extension is one to Python alone |
| ShardNames.CutStem | src/image/mod.rs:173-176 | The last `-of-` and the last dash before it cut a stem into prefix, index and total, whatever the prefix |
| Snapshot.ChecksAgree | src/image/mod.rs:273-302 | For every finite tree with regular names the Rust and the Python readiness checks give the same answer |
| Snapshot.CompleteAgree | src/image/worker.py:209-227 | So do the two folder checks, at every depth |
| Snapshot.ReadyIff | src/image/mod.rs:262-302 | Ready iff every one of the eight weight components the index lists has a complete folder, or none is listed and the snapshot itself is complete; for either program |
| Snapshot.CompleteHoldsBytes | src/image/mod.rs:148-259 | A complete folder holds a file with content, at some depth |
| Snapshot.ListedCompleteIff | src/image/mod.rs:184-222 | A folder whose index maps plain names is complete iff every mapped file is there with content |
| Snapshot.ShardedCompleteIff | src/image/mod.rs:227-252 | A sharded folder is complete iff each shard's whole group is there with content |
| Snapshot.PlainCompleteIff | src/image/mod.rs:155-166 | Any other folder is complete iff it holds a non-empty file with one of the five weight endings, or a complete folder |
| Snapshot.BaseNamesAgreeIff | src/image/worker.py:169-172 | One `weight_map` value adds the same name on both sides iff it is a regular reference |
| Snapshot.NameBehindSlash | src/image/mod.rs:203-207 | Behind any folder the file name is what is listed |
| Snapshot.TrailingSlash | src/image/mod.rs:203-207 | A trailing slash does not count |
| Snapshot.ReadyHintIsServed | src/image/worker.py:262-269 | A ready snapshot with regular names, handed over as the hint, is accepted as the hint and by the worker's check |
| Snapshot.ServedWithoutHintIff | src/image/worker.py:262-288 | Without the hint the worker serves the job iff the agent's own check accepts what the ref names or, without one, the first folder with an index; a complete snapshot further on does not help |
| Snapshot.HasIndexIff | src/image/worker.py:262-288 | A folder is taken for a snapshot iff it holds a file `model_index.json`, whether or not that parses |
| Snapshot.RefMeans | src/image/mod.rs:304-320 | A ref names the folder of its trimmed hash below `snapshots` |
| Snapshot.UnfinishedFolderHidesReadySnapshot | src/image/worker.py:279-288 | So a machine that advertises a ready snapshot refuses the hintless job when an unfinished folder is listed before it |
| Snapshot.UpperCaseShardSplitsChecks | src/image/worker.py:209-227 | Irregular names do split the checks: one upper-case shard of several is complete to the agent and unfinished to the worker |
| Snapshot.LoneFileAgreeIff | src/image/worker.py:177-227 | On a folder of one weight file the checks agree iff its name is regular or the shard that one program reads is the only one of its group |
| Snapshot.ComponentWeightsComplete | src/image/mod.rs:213-260 | The agent's loop computes completeness: listed files there, else closed shard groups, else a weight file or a complete subfolder |
| Snapshot.ScanFolder | src/image/mod.rs:224-250 | One pass yields groups that hold exactly the parsed shards, whether a weight is there, and the subfolders |
| Snapshot.GroupsCompleteIff | src/image/mod.rs:251-255 | The per-group test says that with one shard of a group all are there |
| Snapshot.PyComponentWeightsComplete | src/image/worker.py:209-227 | The worker's loop computes the same notion over its own name parser |
| Snapshot.ShardGroupComplete | src/image/worker.py:177-206 | None iff nothing is sharded, else whether the groups are closed |
| Snapshot.IndexListedShards | src/image/mod.rs:184-211 | Exactly the base names of the `weight_map` values of all index files |
| Snapshot.SnapshotReady | src/image/mod.rs:273-302 | Ready iff the model index parses and its weight components are complete, or, without any, the folder is |
| Snapshot.SnapshotFromRefs | src/image/mod.rs:304-320 | Finds a ready snapshot iff some ref names one |
| Snapshot.HfReadySnapshotPathIn | src/image/mod.rs:323-339 | Finds a ready snapshot iff a ref names one or the folder holds one |
| Snapshot.LocalSnapshotDir | src/image/worker.py:262-288 | Returns only a folder with a model index: the hint if it has one, else what the ref names, else the first such folder of the listing, none only when there is none |
| Framing.StreamRoundTrip | scripts/ci-update-smoke.py:199-242 | The bytes of all frames sent parse to the same opcodes and payloads in order |
| Framing.ReadFrames | scripts/ci-update-smoke.py:293-297 | The client loop's reads, however the stream is fragmented: always a prefix of the frames sent, and exactly those up to the first close when the stream does not break |
| Framing.ParseEncoded | scripts/ci-update-smoke.py:199-242 | A frame reads back at the head of any stream, in all three length classes of section 5.2 of RFC 6455 |
| Framing.ParseMasked | scripts/ci-update-smoke.py:229-242 | So does a masked frame, unmasked |
| Framing.MaskingTwiceIsIdentity | scripts/ci-update-smoke.py:240-241 | Masking with the same octets twice is the identity (section 5.3 of RFC 6455) |
| Framing.ShortestHeader | scripts/ci-update-smoke.py:199-211 | No unmasked frame that reads as the payload has a shorter header than the writer's |
| Framing.FrameLayout | scripts/ci-update-smoke.py:199-211 | The octets of a frame as section 5.2 of RFC 6455 lays them out |
| Framing.XorByteMeans | scripts/ci-update-smoke.py:236-237 | Octets combine as exclusive or |
| Framing.Sender.WsSend | scripts/ci-update-smoke.py:199-211 | Appends exactly the encoded frame |
| Framing.Peer.WsReadFrame | scripts/ci-update-smoke.py:214-242 | However the stream is cut into pieces, an unbroken read returns its first frame and leaves the rest |
| Framing.Peer.RecvExact | scripts/ci-update-smoke.py:245-256 | Returns the first n bytes however they arrive, or nothing at a break or a short stream |
| Framing.Peer.ReadFramePrefix | scripts/ci-update-smoke.py:214-237 | Reads opcode, length and mask exactly as the stream states them |

## Left out

- Tokio, TLS, the WebSocket transport, serde, reconnect timing and tokens: only the lock-delimited steps on session fields are modelled; lock poisoning is not.
- Parameter builders that can fail (`single_gpu_full_params` and the like) are taken to succeed.
- llama.cpp, sampling, tokenising and vision prefill: loads, decodes and callbacks have arbitrary outcomes, and error classes are taken as given instead of being derived from message text.
- GPU, RAM and disk probing, environment variables and process control are inputs. Live free VRAM, RAM readings and file sizes are arbitrary at each use.
- Floating point: f32 and f64 are reals, so rounding at the thresholds is not modelled. In `Capacity` the power law of the memory plan is an arbitrary positive number per model; `Ladder` pins it to the weight.
- Sums of u64 byte counts and of VRAM gigabytes are unbounded; `u32` job counts saturate as in the source, and exact counting is stated for fewer than 2^32 jobs.
- SplitTransfer.SessionInbox.TakeCompleteInboundSplitState: its `part?` early return is unreachable under the invariant, so the invariant is required instead of modelling the loss of a partial assembly.
- Strings in the split transfer are bytes: the state is ASCII base64, so bytes and characters coincide. The JSON envelope is not part of the model, and notifiers are numbers.
- The session is one record in the source and two classes here, one for the reassembly fields and one for the job fields; no critical section touches both.
- JobProtocol: model ids, VRAM lifecycle hooks and the cached slot list are not modelled, and of each job only its lock sections and abort points are.
- ModelCache: the last measured GPU occupancy, the wait for CUDA to reclaim memory, and load timing are not modelled. The key text is assumed to separate path and pool, so two pools never share a key.
- ModelCache.TrimLru: which of several entries with the same time stamp goes first depends on the hash map, so the trim is stated as a relation.
- What the machine does during one `with_loaded_weights` (readings, load outcomes, callback results, whether the projector comes up) is an input of the method and arbitrary.
- The budget invariant uses the largest installed-RAM reading so far, since each shelving decision reads it again.
- Generation: the returned content is cleaned up after the attempt, and a retry after a collapse streams again; the equality of streamed text and content is for one attempt.
- Gguf: malformed files (backward seeks, arrays above the cap, truncated metadata) are outside the contract. Keys are bytes, so the lossy UTF-8 conversion is not modelled; counts are kept modulo 2^32 as in the source; which dotted key a suffix lookup finds depends on the hash map and is arbitrary. The shape cache in front of the reader is left out.
- Capacity: the vision variants of the needs, the warm KV cap, the CPU capability gate and the machine-wide any-slot test are left out as easy members. Whether an image card is eligible is an input.
- SlotPlan: product-name normalisation and the vendor test on the device name are inputs; display names are left out.
- Snapshot: names are ASCII, JSON parsing is given and equal on both sides, hashes in refs are single path segments, symbolic links are followed, and Windows separators are not modelled. The worker's sorted listing is an input.
- Framing: a payload of 2^64 bytes or more, which the length field cannot carry, is outside the contract.
- `src/vram_lifecycle.rs`, `src/cloud_log.rs`, `src/settings.rs`, `src/logging.rs`, `src/state.rs`, the tray, updater, installer, Python environment and image generation: they would only add easy members or are I/O.
- `src/supervisor/host.rs`, `src/supervisor/placement.rs` and `src/models/health.rs` are not part of this model.
