# Verified model of an LLM inference runtime

A Dafny model of the logic around the numeric kernels of the runtime: how rows are scheduled through
the decoder layers, how K/V caches are appended to, shared, truncated and reused, how drafts are
verified and committed, how device buffers are laid out, and how the tensor graph is simplified and
fused. Per-row kernels (norms, projections, rotary embedding, attention over a range of cached rows,
MLP, LM head) are deterministic functions about which nothing is assumed, and they may reject a row.
Every theorem therefore holds for all weights, all layer stacks mixing full, sliding, owning and
shared-K/V layers, and all inputs the stated preconditions admit.

Everything is measured against two reference definitions: the grid of hidden rows and cache rows in
`Transformer`, which mentions no schedule, and `Decoding.Greedy`, greedy decoding as a function of the
token sequence alone.

| module | part of the runtime |
|---|---|
| Transformer, Schedules, PerLayerInputs | layer-major against token-major execution; prompt batches |
| BranchBatch | depth-major scoring of independent branches |
| Decoding, TokenStates, PromptCaches, SessionSpec, Sessions | the resumable session and its prompt cache |
| DecodeStates, Acceptance, Speculative | plain generation and speculative decoding |
| MtpGraph, MtpSteps, MtpGeneration | multi-token prediction: graph, cycle, loop and its validator |
| KVArena, PackedTree, DeviceWork, RopeTables | device K/V arena, packed layout, scratch allocator, rotary tables |
| UOps, Patterns, RuleMatchers, GraphRewrites, StandardRules, Fusion | the tensor graph compiler |
| Half, ChunkPlan | half-precision rounding, prompt chunk planning |

Results where the code does less than its documentation or name suggests, each with its exact
condition and an input on which it shows:

- The batched prompt pass drops per-layer inputs, although the eligibility comment says quantized
  per-layer inputs are supported by both paths; the two passes agree for all weights exactly when no
  layer uses them (`PerLayerInputs.PassesAgreeIffNoInputs`, `PerLayerInputs.BatchDropsInputs`).
- The batch validator accepts a shared layer whose source is a later layer; the layer-major pass then
  rejects every batch (`Schedules.ForwardSourceRejected`, `Schedules.ForwardStackRejected`).
- A restore checks lengths only; it recovers the checkpointed state exactly when output and caches
  still start with it (`SessionSpec.RestoreRecovers`, `SessionSpec.RestoreTrunk`). Two tokens tried from
  one trunk break this (`SessionSpec.StaleCheckpoint`, `Sessions.TryTwoTokens`); returning to
  checkpoints in stack order never does (`SessionSpec.ForcedInvariant`).
- A rejected forced token restores output and caches but not pending boundary logits
  (`Sessions.DecodeSession.AppendToken`).
- Branch scoring refuses every session that has taken a plain decode step, unless the model has no
  layer, because the newest token's row is not cached yet (`Sessions.DecodeSession.FullRows`).
- The draft capacity check leaves the verified counter unchecked: every verdict can be recorded exactly
  when that counter has room for all drafts (`MtpGraph.CapacityForAll`, `MtpGraph.CapacityGap`).
- A write into a compacted arena is accepted without its attention window exactly when the base has
  passed the window start of its first row (`KVArena.WindowOfWrite`, `KVArena.RewindLosesWindow`).
- Five operations are fused without code and yield zero (`Fusion.FusionExact`).
- The guard-bit half conversion turns NaN into infinity (`Half.DisagreeOnNaN`).
- One overflowing estimate ends the chunk search although a smaller size fits; without one the search
  succeeds (`ChunkPlan.ChosenExists`, `ChunkPlan.OverflowHidesFit`).
- A request for an attention kind without a rotary table shortens the other kind's table exactly when it
  asks for less than that one covers (`RopeTables.RopeCache.ShrinksIff`, `RopeTables.ShrinkingRequest`).

## Model

| member | source | states |
|---|---|---|
| Transformer.AttnFrom | model/mtp_verifier_mask.go:41-49 | A row's attention is fixed by the cache rows up to its own position: appending any number of later rows to the source cache first does not change it, for full, sliding and shared layers |
| Transformer.AttendsSource | model/forward_layer.go:183-207 | An owning layer attends to its own rows, a sharing layer to those of the layer its configuration names, in either case to the window that ends at the row's own position |
| Transformer.Causal | model/mtp_verifier_mask.go:23-53 | Dropping later rows of a run changes no hidden row of the earlier ones, at any layer |
| Transformer.SplitRun | model/gemma4_session.go:240-324 | Stopping a run after any number of rows and resuming from its caches gives the same caches, the same final rows and the same rejections as one uninterrupted run |
| Transformer.CachePrefix | model/forward_layer.go:183-207 | Rows are only appended: the cache after fewer rows is a prefix of the cache after more |
| Schedules.NewAttentionPlan | model/mtp_verifier_mask.go:23-53 | Row r of a batch starting at position s sees exactly the positions up to s + r, cut to the sliding window on sliding layers |
| Schedules.BatchBuffers.AttendRows | model/cpu_prefill.go:496-533 | In whatever order the workers visit their rows, the stage fails exactly when some row's range exceeds the cache, and otherwise every output row is the attention over that row's own range |
| Schedules.RowHasOneWorker | model/cpu_prefill.go:496-533 | With strided work distribution no row is visited by two workers or twice by one, so concurrent workers write disjoint rows |
| Schedules.BatchBuffers.MixRows | model/mtp_verifier_batch_forward.go:258-358 | Everything after attention, done stage by stage over the whole batch in reused buffers, is the per-row function of that row alone |
| Schedules.RunLayers | model/mtp_verifier_batch_forward.go:162-372 | Layer-major execution leaves the same final hidden rows and the same K/V rows as the schedule-independent definition, and fails exactly when some shared layer has no earlier owner or some kernel rejects a row; rows are only ever appended |
| Schedules.ForwardSourceRejected | model/mtp_verifier_batch_forward.go:509-524 | The validator only asks that a shared layer's source owns K/V; a source that is not an earlier layer makes every non-empty batch fail |
| Schedules.ForwardStackRejected | model/mtp_verifier_batch_forward.go:509-524 | A two-layer stack the validator accepts and on which every non-empty batch fails, whatever the kernels |
| Schedules.ForwardLayer | model/forward_layer.go:12-328 | One layer for one row: appends that row's key and value to an owning layer's cache, attends over the window of positions up to its own in its own cache or in that of the configured source, fails exactly when a kernel rejects the row, and touches no other layer |
| Schedules.RunRowsSequential | model/mtp_verifier_batch_forward.go:44-79 | Token-major execution leaves the same rows and caches as the schedule-independent definition, hence as the layer-major one, and fails for the same inputs |
| Schedules.BatchForward | model/mtp_verifier_batch_forward.go:23-42 | Whether a batch is lowered layer by layer or run row by row cannot be seen in hidden rows, caches or success |
| PerLayerInputs.BatchedIsSequential | model/gemma4_prefill.go:25-43 | For a stack without per-layer inputs a batched prompt chunk is rejected in the same cases and leaves the same caches and logits as token-at-a-time prefill |
| PerLayerInputs.PassesAgreeIffNoInputs | model/gemma4_prefill.go:14-22 | The batched prompt pass carries no per-layer inputs although quantized per-layer-input gates are let through: the two passes agree for all weights if and only if no layer uses per-layer inputs |
| PerLayerInputs.BatchDropsInputs | model/gemma4_prefill.go:68-76 | Counterexample family: for every stack with a per-layer-input layer, weights for which the batched pass picks another boundary token after any prompt, although neither pass rejects it |
| BranchBatch.Gather | model/gemma4_branch_batch.go:312-334 | The visible rows are the requested range of trunk followed by the branch's own suffix; a range outside both, or a trunk of another length, is refused |
| BranchBatch.AttendBranch | model/gemma4_branch_batch.go:201-218 | A branch appends to its own suffix of its own layer only and attends to the trunk plus that suffix, as if it ran alone |
| BranchBatch.RunBranchBatch | model/gemma4_branch_batch.go:66-125 | Depth-major scoring of ragged branches gives each branch the logits it would get alone, token by token, after the trunk; it fails exactly when the trunk is unusable or some branch would be rejected alone; the trunk is not written |
| BranchBatch.ScoreAlone | model/gemma4_session.go:400-440 | The reference a branch is compared with: one branch alone, token-major, on a copy of the trunk |
| BranchBatch.BranchContinues | model/gemma4_branch_batch.go:22-59 | On the true caches of a token sequence a branch is scored as if the whole sequence had been decoded from the start |
| Decoding.Extend | model/gemma4_session.go:240-324 | Running further tokens on top of the true caches of a prefix gives the true caches and rows of the whole sequence, and is rejected exactly when the whole sequence would be |
| Decoding.TokenRows | model/llama.go:899-1010 | Running tokens row by row: each enters at its position as its embedding, every layer adds that token's own per-layer inputs, and an owning layer caches the key and value projected at that position behind those it already holds |
| TokenStates.TokenState.RunToken | model/llama.go:899-1010 | One token at its position on the true caches of its prefix leaves the true caches of the longer prefix; logits and the greedy token come out only at or after the last known output position |
| TokenStates.TokenState.RunChunk | model/gemma4_prefill.go:45-89 | A prompt chunk run layer by layer leaves the caches and last logits of the stack without per-layer inputs |
| PromptCaches.PromptCache.Put | runtime/promptcache/cache.go:133-212 | A snapshot is stored exactly when its key is a non-empty whole number of blocks, its end is the key's length and it fits the budget; it becomes the most recent entry; equal keys are replaced; of the other entries exactly the most recently used ones that still fit survive; a refused store changes nothing |
| PromptCaches.FittingIsLongest | runtime/promptcache/cache.go:343-362 | Eviction keeps a most-recently-used prefix within the budget, and drops an entry only when keeping it would exceed the budget |
| PromptCaches.PromptCache.FindLongest | runtime/promptcache/cache.go:214-277 | Returns the hit of the specification and moves exactly that entry to the front; a miss changes nothing; the re-check of the returned snapshot's size never fails |
| PromptCaches.HitIsLongest | runtime/promptcache/cache.go:236-273 | A hit is a cached prefix of the query, some number of whole blocks long, and no longer one is cached; a miss means no block prefix is cached |
| PromptCaches.HitTruthful | model/gemma4_session.go:187-226 | What a truthful cache returns for a prompt is the true K/V, and if present the true logits and token, of a prefix of that prompt |
| PromptCaches.PutTruthful | model/gemma4_session.go:297-310 | Storing a true snapshot keeps the cache truthful, whatever was evicted |
| SessionSpec.TraceInvariant | model/gemma4_session.go:364-518 | In every run of decode steps, verified drafts, checkpoints and restores after prefill, every state is the one plain greedy decoding would be in: the prompt is a prefix of the output, generated is the number of new tokens and at most MaxTokens, the K/V rows are those of the output while boundary logits are pending and of all but the last token afterwards, and the output is the greedy continuation |
| SessionSpec.StepsFinish | model/gemma4_session.go:455-467 | After any number of plain steps the session is finished exactly when the budget is used up or the last generated token is a stop token, and it then reports a stop token if that is what ended it and the length otherwise |
| SessionSpec.RestoreRecovers | model/gemma4_session.go:497-518 | A length-only restore returns the checkpointed state if and only if its output and caches are still prefixes of the current ones, nil pending logits stay nil, and empty ones stay non-nil |
| SessionSpec.RestoreOwnCheckpoint | model/gemma4_session.go:487-518 | In runs of plain steps and verified drafts, restoring an own checkpoint no longer than the current output is always accepted and returns the checkpointed state |
| SessionSpec.RestoreTrunk | model/gemma4_session.go:394-440 | In forced-token runs a trunk checkpoint recovers the trunk if and only if the trunk's tokens are still a prefix of the output; the restore is accepted either way |
| SessionSpec.StaleCheckpoint | model/gemma4_session.go:394-440 | Two tokens tried from one trunk: the checkpoint behind the first is restorable behind the second and does not give the first back |
| Sessions.TryTwoTokens | model/gemma4_session.go:400-518 | The same on a live session: the restore is accepted and the session is not where the checkpoint was taken |
| SessionSpec.ForcedInvariant | model/gemma4_session.go:400-518 | In every run of forced tokens, rejections, checkpoints and restores that returns to its checkpoints in stack order, every state has exactly the true row of every output token cached, and every return gives back exactly the marked state |
| SessionSpec.ForcedFinish | model/gemma4_session.go:400-518 | The same reason is reported in every state of such a run of forced tokens, checkpoints and restores |
| SessionSpec.MarkRecovered | model/gemma4_session.go:497-518 | Restoring a checkpoint the session has only grown from is accepted and gives back exactly the checkpointed state |
| SessionSpec.StepsReplay | model/gemma4_session_verify.go:58-78 | After rewinding, every step of a staged run can be taken again and emits the staged token, so the replay mismatch branch is unreachable |
| SessionSpec.TrackInvariant | model/gemma4_session.go:364-392 | Every state plain steps reach from the prefilled prompt satisfies the length, pending and cache facts |
| Sessions.TruthfulRestores | model/gemma4_prompt_snapshot.go:144-196 | A true snapshot passes every check made when it is restored |
| Sessions.DecodeSession.TakeSnapshot | model/gemma4_prompt_snapshot.go:92-142 | A snapshot is made exactly when logits, if any, have vocabulary length with a token in range and every owning layer holds the recorded number of rows; it copies those rows and nothing else |
| Sessions.DecodeSession.RestoreSnapshot | model/gemma4_prompt_snapshot.go:144-196 | A snapshot is accepted exactly when its logits are absent or of vocabulary length and every layer has the recorded rows, none on shared layers; accepted, the caches are the snapshot's |
| Sessions.DecodeSession.BeginPrefill | model/gemma4_session.go:154-228 | Prefill starts from the longest cached prefix with its true caches; beyond a closed or started session, an empty prompt and unknown tokens, the only failure is a whole-prompt hit without boundary logits; a whole-prompt hit with logits ends prefill at once |
| Sessions.DecodeSession.PrefillTokens | model/gemma4_session.go:283-312 | Token-at-a-time prefill of a range ends in the true caches, finds the true boundary logits at the end of the prompt, keeps the cache truthful, and leaves the true snapshot of the last whole block before the end of the range as the most recent entry if it fits |
| Sessions.DecodeSession.PrefillBatch | model/gemma4_prefill.go:30-43 | A batched range leaves the batched caches and boundary logits, and the true ones when the stack uses no per-layer inputs |
| Sessions.DecodeSession.CompletePrefill | model/gemma4_session.go:326-348 | With MaxTokens > 0 the prompt completes exactly when boundary logits of vocabulary length are known; true caches and logits give the one prefilled state with one pending boundary token |
| Sessions.DecodeSession.PrefillNext | model/gemma4_session.go:240-324 | On either path, unless the batch drops per-layer inputs, a chunk succeeds exactly when no row is rejected and leaves the true caches of the longer prefix, and the last chunk leaves the one prefilled state; an error leaves the cursor and everything but appended K/V rows as it was; the state after a batch that does drop the inputs is stated too |
| Sessions.DecodeSession.PrefillInChunks | model/gemma4_session.go:240-324 | Every list of positive limits reaches the same prefilled state, with one pending boundary token when MaxTokens > 0, or the same partial state when the limits do not cover the prompt, and fails exactly when a row within them is rejected |
| Sessions.DecodeSession.PrefillChunk | model/gemma4_session.go:352-362 | A whole-prompt prefill, warm or cold, succeeds exactly when it can begin and no row is rejected, and ends in the one prefilled state of the prompt |
| Sessions.DecodeSession.DecodeStep | model/gemma4_session.go:364-392 | A step emits the greedy token after the output with its true logits, moves to the specified next state and reports a stop token before a used-up budget as the reason for finishing; a finished session does not move; an error leaves everything but possibly appended K/V rows as it was |
| Sessions.DecodeSession.Checkpoint | model/gemma4_session.go:487-495 | Records lengths, counters and pending values of the current state |
| Sessions.DecodeSession.Restore | model/gemma4_session.go:497-518 | Accepted exactly for an own checkpoint whose lengths fit; it truncates to those lengths; a refusal leaves everything but possibly truncated K/V rows as it was |
| Sessions.DecodeSession.Verify | model/gemma4_session_verify.go:14-80 | Atomic: on success the session is the pre-state advanced by as many plain steps as tokens were returned, and these are the longest matching draft prefix plus the next greedy token; it succeeds exactly when the guards hold and the plain steps can be taken; on any error nothing has changed |
| Sessions.DecodeSession.AppendToken | model/gemma4_session.go:400-440 | A forced token is appended and counted with its own row cached and the true logits after it returned, with the finish reason a decode step would give; a rejected one leaves output and caches but loses pending boundary logits |
| Sessions.DecodeSession.ScoreIndependentBranches | model/gemma4_branch_batch.go:22-59 | Succeeds exactly when every output token's row is cached, the branch list is within its limits and no branch is rejected; each branch gets the logits of decoding the whole sequence; the session is not changed |
| Sessions.DecodeSession.FullRows | model/gemma4_branch_batch.go:336-357 | The trunk check passes exactly when every output token's row is cached; a session that is ready to decode passes it only before its first decode step, or without any layer |
| Sessions.DecodeSession.Close | model/gemma4_session.go:532-540 | A closed session drops prompt, output and pending values and is usable by no call |
| DecodeStates.GeneratePrepared | model/llama.go:834-897 | Generation from a prepared prompt returns the greedy continuation, stopping where the model rejects a row, whether or not the prompt was run layer by layer, the restart on half-filled caches after a rejected prompt pass included |
| DecodeStates.RerunPrompt | model/llama.go:843-897 | On caches that a rejected prompt pass has extended in some layers, the token loop meets the rejected row before it emits anything |
| Schedules.RerunRow | model/forward_layer.go:183-328 | A row run again on caches that hold the first rows of the run, and possibly some later ones behind them, is rejected exactly when it was, because attention reads positions up to its own |
| DecodeStates.CPUDecodeState.DecodeOneGreedy | model/speculative_state.go:99-110 | Appends the greedy token, or fails unchanged exactly when the output is rejected |
| DecodeStates.CPUDecodeState.GenerateGreedy | model/speculative_state.go:87-97 | Appends the greedy continuation; fails exactly for a negative count or a continuation that stops short |
| DecodeStates.CPUDecodeState.VerifyGreedyBlock | model/speculative_state.go:269-285 | Accepts the longest draft prefix that greedy decoding reproduces, plus the next greedy token, without changing the state |
| DecodeStates.CPUDecodeState.CommitAcceptedOutputOnly | model/speculative_state.go:252-262 | Replaces everything after the checkpoint by the accepted tokens, for valid acceptances only |
| DecodeStates.CPUDecodeState.KeepAppended | runtime/kv/staging.go:35-68 | Keeps the checkpointed rows plus the given number on every owning layer; fails exactly when some layer is too short; each layer is either untouched or truncated |
| DecodeStates.CPUDecodeState.Restore | model/speculative_state.go:238-250 | What was only appended to since the checkpoint is recovered exactly |
| Acceptance.AcceptDraft | model/mtp_accept.go:140-183 | Fails exactly on a negative token or a verifier list that is not one longer than the draft; otherwise accepts the longest common prefix and emits it with the verifier's next token, and the acceptance passes its own check |
| Acceptance.LongestMatchUnique | model/mtp_accept.go:156-168 | Acceptance is determined by the two token lists |
| Acceptance.ValidMeans | model/mtp_accept.go:26-91 | An acceptance passes its own check exactly when all its fields are the ones determined by the number of drafts and the tokens it emits |
| Speculative.LatestOccurrence | model/speculative.go:198-212 | The scan finds the latest earlier occurrence of a suffix, or none exists |
| Speculative.PromptLookupProposal | model/speculative.go:191-227 | For the longest suffix within the n-gram cap that occurs earlier, and its latest occurrence, that window with the proposal behind it reads on in the context; the proposal is as long as the limit or reaches the end of the context, and it is empty only when no suffix occurs |
| Speculative.LookupUnique | model/speculative.go:191-227 | A lookup has one possible answer |
| Speculative.GenerateSpeculativeWithStats | model/speculative.go:238-310 | For every prompt, proposer, block size and minimum proposal the result is exactly the greedy continuation, reached by iterations one after another; for proposers within their limit accepted, bonus and fallback tokens add up to MaxTokens on a run without rejections, and the counters agree with each other |
| Speculative.SpeculativeStep | model/speculative.go:263-308 | One iteration asks for at most the block size and one less than what remains; a long enough proposal that can be verified is emitted as far as greedy decoding reproduces it, with one more greedy token and cut to the budget, and counted as that; anything else is one greedy token, counted as a fallback |
| MtpGraph.NewVerifierPlan | model/mtp_verifier_plan.go:18-49 | A plan exists exactly for in-vocabulary tokens at a position range that does not overflow, and lists input and drafts at consecutive positions |
| MtpGraph.NewExecutionGraph | model/mtp_execution_graph.go:33-95 | A graph is built exactly for consistent inputs, including a full-length external view where the drafter needs one; every graph built passes its own check and its steps carry that view |
| MtpGraph.GraphMeans | model/mtp_execution_graph.go:97-179 | A graph passes its own check exactly when its plan and steps are the ones determined by input, drafts, start position and one width and view: step i reads the token before draft i |
| MtpGraph.NewCommitPlan | model/mtp_execution_graph.go:181-210 | A commit plan exists exactly for an acceptance of this graph's draft; it keeps the accepted prefix and the bonus position and never more than the graph allows |
| MtpGraph.RecordMeans | model/mtp_stats.go:51-86 | A verdict is recorded exactly when it is valid and no counter is negative or would overflow; what is added is one step, its drafts, its accepted drafts, one bonus token and all it emits |
| MtpGraph.CapacityMeans | model/mtp_stats.go:27-48 | The capacity check passes exactly for a draft count within limits for which the verdict accepting every draft could be recorded, the verified counter aside |
| MtpGraph.CapacityCovers | model/mtp_stats.go:27-48 | After the capacity check only the verified counter can still overflow when a verdict is recorded; the record adds exactly one step's counts |
| MtpGraph.CapacityForAll | model/mtp_stats.go:27-48 | What a caller can check beforehand: after the capacity check every verdict on that many drafts can be recorded if and only if the verified counter has room for all of them |
| MtpGraph.CapacityGap | model/mtp_stats.go:27-48 | Without that room the verdict accepting every draft passes the capacity check and cannot be recorded |
| MtpGraph.AdaptivePolicy.NextDraftCount | model/mtp_generation_step.go:52-81 | Nothing is drafted with at most one token left; otherwise at least one and strictly fewer than remain, never above the policy maximum, even when a counter wraps around |
| MtpGraph.AdaptivePolicy.Normalize | model/mtp_generation_step.go:16-45 | Every policy becomes an ordered one within limits, with the defaults where a field is missing, and an ordered one is left alone |
| MtpGraph.Adapts | model/mtp_generation_step.go:60-80 | The next count is the average draft length so far, rounded up, moved by one according to the share of drafts that was accepted, as far as bounds allow |
| MtpGraph.CutToBudget | model/mtp_generation_step.go:52-81 | Before any step has been counted the initial count is used, and few remaining tokens cut every count to one less than what remains |
| MtpSteps.AcceptanceUnique | model/mtp_verify.go:316-336 | Checking a draft verdict against the verifier's logits has one possible answer: it is determined by draft and argmax tokens |
| MtpSteps.VerifierRows | model/mtp_verifier_batch_forward.go:463-540 | A verifier pass runs the input token and then the drafts at consecutive positions on the existing caches, each with its own embedding and per-layer inputs |
| MtpSteps.VerifierForward | model/mtp_verifier_batch_forward.go:463-540 | A verifier pass succeeds exactly when every owning layer holds one row per position before its start and no row is rejected; it stages every row and accepts against the true argmax of each row |
| MtpSteps.KeptRows | model/mtp_verify.go:174-189 | The rows kept of a staged pass are the rows a pass over the kept tokens alone would have staged |
| MtpSteps.CommitGraphAccepted | model/speculative_state.go:316-350 | Succeeds exactly when the checkpoint is the graph's start, the verdict is consistent and belongs to the graph, and the rows to keep are staged; then the accepted tokens and the bonus token are appended, the matching rows stay and the rest go; a refused verdict changes nothing, and no refusal changes the output |
| MtpSteps.CommitVerified | model/mtp_generation_step.go:100-149 | What a verifier pass stages for its own graph is always committable, and the rows kept are those of a run over the kept tokens alone |
| MtpSteps.RunMTPGraphDecodeStep | model/mtp_generation_step.go:100-149 | One cycle either happens completely or changes neither output nor caches, and it happens exactly when the draft leaves room for its bonus token, can be drafted, graphed and verified, and every counter has room; the next token and activation are those of the bonus row |
| MtpSteps.SteppedRows | model/mtp_generation_step.go:100-149 | After a cycle every owning layer holds exactly one row per output token again, on top of the rows that were there |
| MtpGeneration.Validate | model/mtp_generation_api.go:48-239 | The executable check accepts exactly the results whose header, steps, stream, counters and final state agree |
| MtpGeneration.SummaryMeans | model/mtp_generation_api.go:48-239 | A step passes exactly when, for its draft and verifier output, its input, verifier tokens, positions, accepted prefix, bonus, emitted tokens and flag are the only consistent ones |
| MtpGeneration.ValidatedStream | model/mtp_generation_api.go:48-239 | In a result that passes, every committed token sits at its recorded position and is the verifier's own token for that row |
| MtpGeneration.SteppedIsAfter | model/mtp_generation_step.go:100-149 | A cycle that happened is the cycle as a function of its state: longest reproduced draft prefix, the verifier's next token, their rows, the bonus row's activation, and one step's counts |
| MtpGeneration.StuckNeverCompletes | model/mtp_generation_api.go:382-411 | A generation stuck after some cycles completes after no number of cycles |
| MtpGeneration.SummaryPasses | model/mtp_generation_api.go:421-442 | The summary of every successful cycle passes the step checks at its cursor |
| MtpGeneration.ViewRows | model/mtp_generation_api.go:487-525 | Before every cycle the drafter's view of a layer has one row per output token, and they are the rows the layer's own attention reads: its own, or those of the layer its configuration names |
| MtpGeneration.ViewGiven | model/mtp_generation_api.go:487-525 | Without a base view the drafter gets none; with one it gets the layers that names and that view of every cache at the length of the output |
| MtpGeneration.RunCycles | model/mtp_generation_api.go:382-411 | The loop is the cycle function iterated: before each cycle every owning layer holds exactly one row per output token, cycles stop with at most one token left, and a failing loop is stuck at a reachable cycle that cannot be taken |
| MtpGeneration.GenerateMTPGraph | model/mtp_generation_api.go:352-419 | Succeeds exactly when the context is consistent, every cycle can be taken until at most one token is missing, that token can be decoded, and prompt tokens and initial counters are ones the check accepts; the result then holds exactly MaxTokens new tokens, passes its own check, and is what the cycles plus at most one plain greedy token produce, verdict by verdict |
| KVArena.TrunkLayer.PrepareTrunkWrite | model/gemma4_nvidia_sliding.go:10-46 | Compaction keeps the retained rows in place relative to the new base; a refused write changes nothing; the check that kept and new rows fit never fails |
| KVArena.TrunkLayer.MoveToFront | model/gemma4_nvidia_sliding.go:26-44 | Copying through a scratch buffer is a correct move even when source and destination overlap |
| KVArena.TrunkLayer.AppendTrunkRows | model/gemma4_nvidia_kv.go:178-195 | The bounded buffer represents the unbounded row sequence, the rows before the write followed by the rows written: physical row j - base holds logical row j for every retained j, before and after every accepted or refused write |
| KVArena.TrunkLayer.constructor | model/gemma4_nvidia_kv.go:75-125 | A windowed layer has room for its window and one chunk, any other for the whole trunk |
| KVArena.TrunkLayer.CloneTrunk | model/gemma4_nvidia_kv.go:127-156 | A clone with room for a longer trunk represents the same logical rows at the same base |
| KVArena.ContiguousAccepted | model/gemma4_nvidia_sliding.go:10-46 | A contiguous append of at most 512 rows within the trunk length is never refused while scratch memory lasts |
| KVArena.AppendRun | model/gemma4_nvidia_kv.go:178-195 | Every run of such appends is accepted in full and every row an attention at a new row reads is still stored |
| KVArena.WindowOfWrite | model/gemma4_nvidia_sliding.go:10-46 | After an accepted write at any position, a rewind included, every written row finds its whole attention window if and only if the base before the call did not exceed the window start of the first one |
| KVArena.RewindLosesWindow | model/gemma4_nvidia_sliding.go:10-46 | A layer on which a rewinding write is accepted although a row it attends to is gone: two contiguous chunks of 512 rows, then one row at 511 under a window of two |
| KVArena.CompactionRaises | model/gemma4_nvidia_sliding.go:21-25 | An accepted write never lowers the base and raises it exactly when it had to compact, then to the window start of its first row |
| KVArena.WriteRun | model/gemma4_nvidia_sliding.go:50-60 | However the layers of an arena are written at or after a prefix, in any order, contiguous or rewinding, accepted or refused: each layer stands for what its own writes make of it in turn, the reuse test holds exactly when no layer has been compacted, and then the prefix rows of every layer are intact |
| KVArena.PrefixStored | model/gemma4_nvidia_sliding.go:50-60 | While the base of a layer is zero, a prefix it has kept logically is what its buffers hold physically |
| KVArena.SlotsApart | model/gemma4_nvidia_kv.go:201-224 | Different branches or depths never share a suffix slot and every slot is inside the buffer |
| KVArena.SuffixLayer.AppendRows | model/gemma4_nvidia_kv.go:201-224 | Each active branch's row lands in its own slot and no other slot changes |
| Patterns.Match | tensor/pattern.go:44-100 | A match succeeds if and only if some assignment of nodes to names explains the pattern, repeated names included; it captures exactly the pattern's names and agrees with every explanation |
| Patterns.CapturesUnique | tensor/pattern.go:55-100 | The captures of a match are determined by pattern and node |
| RuleMatchers.DispatchComplete | tensor/rewrite.go:39-58 | Dispatch by operation never hides an applicable rule, and whatever it does is what one of the rules does |
| RuleMatchers.PatternMatcher.Rewrite | tensor/rewrite.go:39-73 | The indexed matcher applies the first applicable rule in the specified order |
| GraphRewrites.GraphRewriter.RewriteNode | tensor/rewrite.go:85-122 | With sharing, memo and rebuilt nodes, the replacement means the same, weighs no more and is in normal form; a node already in normal form stands |
| GraphRewrites.GraphRewrite | tensor/rewrite.go:77-83 | For rules that keep meaning and lower a monotone weight: terminates, keeps the root's meaning, returns an acyclic graph no rule applies to, and returns a graph already in normal form as it is |
| GraphRewrites.NormalEverywhere | tensor/rewrite.go:77-122 | Normal form means that no rule applies at any reachable node |
| StandardRules.StandardRulesSound | tensor/rules.go:6-98 | In any arithmetic with the folding, unit, zero and involution laws every default rule keeps meanings, shrinks the expression and keeps applying as the graph grows |
| StandardRules.NormalMeans | tensor/rules.go:6-98 | Normal form under the default rules, on the graph: no reachable node is an arithmetic operation on two constants, an elementwise function the rules fold of one, a sum, difference, product or quotient with the unit or zero the rules name on the sides they name, a double negation or a reshape of a reshape |
| StandardRules.Simplify | tensor/rules.go:6-98 | Hence rewriting with the default rules terminates in an equivalent graph without any such node, and leaves a graph without one as it is |
| Fusion.FusedKernel.Walk | tensor/fuse.go:24-64 | Linearisation lists every node of the expression after its sources, each shared node once |
| Fusion.FusedKernel.OrderedOnce | tensor/fuse.go:24-64 | Operations read only earlier operations, and no node is listed twice |
| Fusion.FusedKernel.Execute | tensor/fuse.go:66-123 | Each output element is the recursive evaluation of the expression in which operations without code count as zero |
| Fusion.ArithmeticElements | tensor/fuse.go:87-118 | In real arithmetic an element is the sum, difference, product or quotient of its first source's element and its second's, in this order, a maximum that keeps the first unless the second is greater, or the negative or reciprocal of its one source's |
| Fusion.FuseAndExecute | tensor/fuse.go:24-123 | An expression is fused exactly when its root is elementwise and no broadcast |
| Fusion.FusionExact | tensor/fuse.go:66-139 | Fusing computes the expression for every arithmetic if and only if no fused operation is one of those admitted without code (sine, cast, modulo, the two comparisons) |
| Half.GgmlRounds | model/ggml_flash_ref.go:87-122 | The guard-bit conversion is roundTiesToEven of section 4.3.1 of IEEE 754-2019 on every magnitude that is not NaN, subnormals, carries and overflow included |
| Half.RoundingUnique | half/half.go:50-72 | roundTiesToEven has exactly one result |
| Half.F32ToF16Even | half/half.go:50-72 | The neighbour search is roundTiesToEven under the same sign for everything but NaN, and has the bits of the guard-bit conversion, although its subtractions are rounded to float32 |
| Half.SearchCompares | half/half.go:60-70 | Rounded in any direction, the subtractions never make a neighbour look nearer than the starting half, nor as near when it is not |
| Half.AwayRounds | half/half.go:19-48 | The default conversion rounds to the nearest half with ties away from zero |
| Half.DisagreeOnNaN | model/ggml_flash_ref.go:87-122 | NaN is the one disagreement: the guard-bit conversion makes it an infinity |
| Half.F16ToF32 | half/half.go:75-96 | Widening is exact on every finite half, subnormals included, and keeps sign, infinities and NaN payloads |
| Half.Bf16Rounds | half/half.go:101-107 | The bfloat16 conversion picks the nearer of the two patterns around a finite value, the even one on a tie |
| Half.SignKept | half/half.go:19-107 | Every conversion to sixteen bits treats a negated pattern as the positive one with the sign bit set |
| Half.NaNKept | half/half.go:19-107 | The default half and bfloat16 conversions keep a NaN one, with the payload bits there is room for and the quiet bit set, and make no other pattern a NaN |
| ChunkPlan.CheckedProductExact | model/checked.go:3-12 | The division guard detects overflow exactly |
| ChunkPlan.EstimateExact | model/prefill_chunk_plan.go:112-166 | The estimate exists exactly for positive dimensions whose CPU row, the larger of the two, does not overflow, and is those row sizes |
| ChunkPlan.TotalExact | model/prefill_chunk_plan.go:50-66 | Scratch is the fixed part plus a row size per row, nothing for no rows, and refused exactly for a negative count or size or an overflow |
| ChunkPlan.TotalMono | model/prefill_chunk_plan.go:50-66 | More rows never need less scratch |
| ChunkPlan.NormalizeSizes | model/prefill_chunk_plan.go:277-299 | The allowed sizes sorted without repeats, refused exactly when one is not positive, the defaults when none are given |
| ChunkPlan.BuildSpans | model/prefill_chunk_plan.go:301-324 | Spans tile the prompt in order; it fails exactly for bad arguments or an overflow at the end of the last chunk |
| ChunkPlan.TilesOnce | model/prefill_chunk_plan.go:301-324 | Tiling means that every token is in exactly one span |
| ChunkPlan.ChooseSize | model/prefill_chunk_plan.go:212-240 | The result is the largest allowed size not longer than the prompt that fits, with no overflow above it, or the prompt itself when shorter than every size; an error means that there is no such size |
| ChunkPlan.ChosenExists | model/prefill_chunk_plan.go:212-240 | When some allowed size fits, the search finds one if and only if the estimate of no allowed size up to the prompt length overflows |
| ChunkPlan.OverflowHidesFit | model/prefill_chunk_plan.go:212-240 | An estimate, two sizes and a budget for which the smaller size fits and the search fails, because the larger one overflows |
| ChunkPlan.NewPlan | model/prefill_chunk_plan.go:172-256 | The plan of a non-empty prompt tiles it, the peak chunk's scratch is within a finite budget and the chunk is as large as the budget allows; every refusal is accounted for |
| PackedTree.BuildTree | model/gemma4_nvidia_packed.go:175-228 | A group is refused exactly when a limit is broken; accepted, segments tile at most 512 rows and every branch hangs under its own context's segment with its candidates and its terminal row in the cell of the pair |
| PackedTree.TiledOnce | model/gemma4_nvidia_packed.go:190-228 | Every flat row belongs to exactly one segment |
| PackedTree.CellUnique | model/gemma4_nvidia_packed.go:229-236 | Cells are in one-to-one correspondence with context/branch pairs |
| PackedTree.ScoreCells | model/gemma4_nvidia.go:440-458 | The k-th score is the k-th terminal row on the k-th candidate list |
| PackedTree.ScoreTree | model/gemma4_nvidia_packed.go:175-237 | Cell [c][b] of the result is the last row of branch b of context c, projected on that branch's candidates |
| DeviceWork.Work.Alloc | model/gemma4_nvidia_packed.go:30-52 | A buffer at least as large as asked for, different from every buffer handed out since begin, none of which is released or resized; a kept buffer that is large enough is reused without a driver call; after a failure nothing more is handed out until begin |
| DeviceWork.Work.Free | model/gemma4_nvidia_packed.go:54-62 | Releases every kept buffer once and retains none |
| DeviceWork.RunCalls | model/gemma4_nvidia_packed.go:22-62 | In any sequence of begin, alloc (failed ones included) and free, no two allocations of one pass get the same buffer and none goes without while the driver refuses nothing; a final free leaves live exactly the buffers of other owners, each of its own released once |
| RopeTables.NextSeqLen | model/rope.go:51-69 | The next length covers the position and is the least doubling, cut to the configured context, or the bare need when doubling overflows |
| RopeTables.GrowthIsGeometric | model/rope.go:51-69 | A growing table at least doubles, or is final, so rebuilds are few |
| RopeTables.Rotation.Build | model/rope.go:298-323 | The incremental angle progression fills exactly the table of the given length, or none when a dimension is not positive or the length overflows |
| RopeTables.Rotation.EntryAt | model/rope.go:298-323 | What a reader finds at the offset of a pair and position does not depend on the table's length |
| RopeTables.AngleIsGeometric | model/rope.go:298-323 | Where multiplying by the step is exact, the running angle of pair i is the position times the step to the power i |
| RopeTables.RopeCache.Ensure | model/rope.go:148-183 | Whatever other decoders do between the read and the write lock, the result is a whole table of the layer's kind (the full one exactly for layers known not to be sliding) that covers the position, unless a table of the length grown to cannot be built; nothing is rebuilt when it is covered already, and otherwise the length is what all the requests in turn grow it to |
| RopeTables.RopeCache.ShrinksIff | model/rope.go:172-181 | A request shortens the shared tables exactly when its kind has no table and it asks for less than the other kind already covers |
| RopeTables.ShrinkingRequest | model/rope.go:172-181 | A cache without sliding tables whose full table covers 2048 positions until one request for a layer of unknown kind leaves it with one |

## Left out

- Sessions.DecodeSession.PrefillNext: for a batched chunk that drops per-layer inputs only the caches and the pending logits are stated, and later calls on such a session are not followed further; nor is another call after an error, which may have left K/V rows behind.
- Sessions.DecodeSession.DecodeStep: on an error the extra cache rows are only said to be appended ones; the code leaves them too.
- DecodeStates.GeneratePrepared: the stop token and multimodal prompt embeddings are not modelled.
- MtpGeneration.GenerateMTPGraph: no equality with greedy decoding is claimed, because each cycle runs the previous token again at the position after the output; activation widths, a base view with another layer count, capability flags, blocker lists and the compressed-K/V fields of the result are not modelled.
- KVArena.TrunkLayer.AppendTrunkRows: one layer at a time (an arena is a list of layers), positions leave no gap after the rows already written, and of the device failures only a refused scratch allocation is modelled, not a failed copy.
- RopeTables.RopeCache.Ensure: positions below the largest machine integer; the single-table variant for other models has the same shape and is not repeated.
- PromptCaches.PromptCache.FindLongest: hash buckets and collisions, statistics and token interning are not modelled; the size of a snapshot under its key is a parameter that cloning keeps.
- StandardRules.StandardRulesSound: the laws are those of exact arithmetic; IEEE signed zeros and NaN do not satisfy them. A fold of a non-numeric constant, a panic in the code, is a rule that does not apply. Node interning of constants is not modelled.
- Speculative.GenerateSpeculativeWithStats: debug output and external verifier backends are not modelled.
- One K/V cache per layer holds key and value rows together and a row is one opaque vector: flat float offsets, widths and slice capacities are not modelled.
- The chat template is a parameter (the prepared prompt); cancellation and timing are not modelled.
- The diagnostic `position` counter of a session, which a restore sets and a decode step does not advance, is not part of the observable state.
- Known per-row differences between the prompt pass and the single-row pass (value norm, zero layer scalar, bfloat16 after the activation) and between numeric backends: both sides share one function per role.
- Compressed and layered K/V, experts, state-space layers and weight formats inside a layer.
- The one-level packed layout (`ScorePrefixedPacked`), a special case of the tree layout with one context.
- Device kernels, SIMD assembly, model loaders, configuration, tracing, the browser code and the HTTP service.
