# vllm-rbln: models and proofs

A Dafny model of the parts of the vllm-rbln plugin whose claims hold for every input, every run or every
interleaving, with those claims proved. `dafny verify dfyconfig.toml` checks the whole project.

Arithmetic is exact: tensors hold reals or opaque values, and sigmoid, softmax, RMSNorm and decoder layers are
parameters. Code that changes state is a method or a class proved against a function of its inputs or its old
state; the main results are lemmas about that function. Concurrent code is a transition system.

| file | what it models |
|---|---|
| `EaglePipeline` | EAGLE3 auxiliary hidden states handed from pipeline stage to pipeline stage |
| `MlaPadding` | zero-padding of multi-head latent attention to a fixed kernel layout |
| `GatedNorm`, `PowersOfTwo` | the fused gated RMSNorm kernel on flat memory with masked lanes, and its wrapper |
| `Dispatch` | the direct-dispatch table that replaces Dynamo's guarded lookup, and the key it uses |
| `Lora` | multi-adapter LoRA by one masked product |
| `Shutdown`, `QueueSizing` | re-entrant executor shutdown in real time; response-queue depth in a pipeline |
| `Rope` | rotary embedding with duplicated cos and sin caches |
| `AllGather` | all-gather on the last dimension by reshape and permute |
| `Registry`, `Ordering`, `Sorting` | the patch registry, its (priority, key) order, and sorted() |
| `Metrics` | the measured-pass state machine and the wrappers that drive it |
| `TiedLoader`, `PlainLoading` | the recursive weight loader that replays embed_tokens into lm_head, and what it does to each weight |
| `DraftPadding` | padding draft tokens by scattering to computed indices |
| `KvCache` | one cache block per request |
| `SubBlocks` | sub-block prefix caching: chained hashes, the index of blocks, partial matches, and the events sent |
| `ConfigMerge` | command line, additional_config and environment merged into one config |
| `RoundRobin` | multimodal items dealt to encoders in turn |
| `Sums`, `Vectors`, `Arith`, `Options` | finite sums, vectors and matrices, row-major index arithmetic, Option and Result |

Where a claim turned out to hold only under a condition, the condition is proved exact:

- Every pipeline run returns the promised pair or an error, and returns it exactly when the request is in range, repeats
  nothing in the last stage's band, and only the largest index in any other band (`RunServesIff`). So a split can be told
  from a single stage only when an in-range request repeats an index (`SplitInvisibleIff`). The comments speak of a
  requested set; the code takes any tuple.
- Direct dispatch serves only correct code exactly when sharing a key carries correctness over, as long as the head of
  Dynamo's list is the call's own: under fullgraph, with no entry dying between the lookup and the registration. Where
  Dynamo may bail out, or an entry may die there, every graph would have to be right for every call
  (`AlwaysCorrectIff`). Either way a run of at most three events exposes a world that fails (`FailingRun`,
  `FailingHead`).
- As long as the workers have not ended, a waiting shutdown caller can still leave before they do: a termination ladder
  that raises sets the event too (`RaisingLadderLeavesWorkers`). If no ladder raises from then on, it can exactly when
  the ladder has not begun, because the first caller faulted or is held up, began 5 seconds or more after the caller's
  wait, or has raised already (`CanLeaveUnendedIff`, with the faulting run in `FaultLeavesWorkers`): the join timeout
  covers the ladder, not what comes before it.
- The tied-embedding loader succeeds exactly when the loader without the patch does and every capture can be replayed,
  which a weight loader that raises also prevents (`RoutesEverythingElse`). The capture tests a prefix without a dot, so a
  weight such as embed_tokens_per_layer makes it fail (`PerLayerEmbeddingBreaks`).
- Every patched target ends bound exactly when no target is a prefix of one applied before it (`AlwaysBindsIff`).
- Every block in the sub-block index holds consecutive sub-blocks exactly as long as each update continues what the block
  holds (`StoreFitsIff`); a stale list makes the longest match name a block that shares nothing with the query
  (`StaleListMisleads`). Copied sub-blocks land right after the computed tokens exactly when those fill whole blocks
  (`LandsAtComputedIff`).
- A response queue never blocks the pipeline exactly when it holds two answers per concurrent batch (`SafeDepthIff`).
- `skip_prefixes` is left without lm_head exactly when the load breaks in the middle of a replay, at some node before
  anything else fails (`Breaks`, in the contract of `AutoWeightsLoader.LoadModule`).

## Model

| member | source | states |
|---|---|---|
| EaglePipeline.PipelineReturnsExpected | vllm_rbln/patches/minimax_m2.py:132-191 | for every layer count, every contiguous split and every duplicate-free request within 0..N, the last stage returns the one-stage hidden state and the inputs of the requested layers in layer order |
| EaglePipeline.SplitInvisibleIff | vllm_rbln/patches/minimax_m2.py:154-190 | every split agrees with the one-stage run if and only if the request is duplicate-free or names an index out of range |
| EaglePipeline.RunServesIff | vllm_rbln/patches/minimax_m2.py:139-191 | for every split and every request the run fails or returns the promised pair, and which of the two is decided by where the request repeats an index |
| EaglePipeline.RunServesTrace | vllm_rbln/patches/minimax_m2.py:139-191 | for any hidden states and residuals that follow the layers one by one, a run fails or returns norm of the last pair and, in ascending order of the request, the embedding for index 0 and hidden state plus residual for every other index; which of the two is decided by the request |
| EaglePipeline.HandoffsFollowTrace | vllm_rbln/patches/minimax_m2.py:172-177 | each hand-off holds that trace's hidden state and residual at its boundary, and exactly the requested inputs up to there |
| EaglePipeline.WhichError | vllm_rbln/patches/minimax_m2.py:147-153 | a stage raises a key error exactly when a requested slot up to its start was not sent, and asserts on missing tensors or a wrong count |
| EaglePipeline.AlignedIff | vllm_rbln/patches/minimax_m2.py:172-177 | a stage's slot names match its appends exactly when only its largest index repeats |
| EaglePipeline.SingleStageSucceedsIff | vllm_rbln/patches/minimax_m2.py:165-191 | one stage owning all layers returns exactly on a duplicate-free request within 0..N; otherwise its length assertion fails |
| EaglePipeline.OutOfRangeFails | vllm_rbln/patches/minimax_m2.py:184-190 | an index outside 0..N fails under every split, never returns a short list |
| EaglePipeline.UnitSplitAcceptsDuplicates | vllm_rbln/patches/minimax_m2.py:172-177 | one layer per stage, and a last stage with none, serves even a request with repeated indices |
| EaglePipeline.HandoffsCarry | vllm_rbln/patches/minimax_m2.py:172-177 | every hand-off of a run carries exactly the requested indices up to its boundary, each once and with the right tensor |
| EaglePipeline.StageCarries | vllm_rbln/patches/minimax_m2.py:139-177 | one stage turns a good hand-off at its start into a good one at its end; no boundary layer is lost or taken twice |
| EaglePipeline.LastStageReturns | vllm_rbln/patches/minimax_m2.py:179-191 | a last stage that holds every requested index returns them in ascending order |
| EaglePipeline.AppendsWithinSlots | vllm_rbln/v1/spec_decode/eagle3_pp.py:98-119 | a stage never appends more tensors than aux_slots_captured names, and when the counts agree the names are those of the appends in order |
| EaglePipeline.ReceivedSlotsNamed | vllm_rbln/v1/spec_decode/eagle3_pp.py:83-95 | the slots a later stage asks for are what the stages before it name |
| EaglePipeline.SeenElements | vllm_rbln/v1/spec_decode/eagle3_pp.py:83-119 | received then captured slots are exactly the requested indices up to the stage's end |
| EaglePipeline.Forward | vllm_rbln/patches/minimax_m2.py:132-191 | the stage's loop, appends and dictionary writes produce the outcome the specification gives, errors included |
| MlaPadding.PaddingIsInvisible | vllm_rbln/patches/axk2/_skt_model.py:1306-1411 | with padded weights and caches and the native scale, what a head feeds o_proj is the native vector, gate fused or not |
| MlaPadding.PaddedHeadIsNative | vllm_rbln/patches/axk2/_skt_model.py:1306-1411 | a head on padded weights is softmax(scale q K^T) V over the native weights, keys being the up-projected latent beside the rotated shared key, gated by the sigmoid of its gate rows when fused |
| MlaPadding.HeadIsNative | vllm_rbln/patches/axk2/_skt_model.py:1306-1411 | the same of the wrapper on native weights |
| MlaPadding.PaddedAttention | vllm_rbln/patches/axk2/_skt_model.py:1342-1406 | attention in the padded layout agrees on native lanes and is zero on added ones |
| MlaPadding.PaddedLogit | vllm_rbln/patches/axk2/_skt_model.py:1311-1335 | every query-key logit is unchanged by the padding |
| MlaPadding.PaddedValue | vllm_rbln/patches/axk2/_skt_model.py:302-329 | value lanes are unchanged and added value lanes are zero |
| MlaPadding.PaddedQuery | vllm_rbln/patches/axk2/_skt_model.py:243-264 | the padded query is the native one on its two native slices and zero elsewhere, after rotation and scaling |
| MlaPadding.PaddedGate | vllm_rbln/patches/axk2/_skt_model.py:267-299 | the fused gate block is read unchanged |
| MlaPadding.PaddedLatent | vllm_rbln/patches/axk2/_skt_model.py:138-190 | PartialRMSNorm of the padded latent is the native norm followed by zeros |
| MlaPadding.PaddedKvRow | vllm_rbln/patches/axk2/_skt_model.py:302-329 | each native row of the padded kv projection gives the native value on the padded latent, each added row gives zero |
| MlaPadding.PadQ | vllm_rbln/patches/axk2/_skt_model.py:243-299 | filling the zeroed buffer yields every entry where the larger per-head layout wants it, with and without a gate block |
| MlaPadding.PadKv | vllm_rbln/patches/axk2/_skt_model.py:302-329 | the same for kv_b, whose latent columns grow too |
| MlaPadding.LoadingTwice | vllm_rbln/patches/axk2/_skt_model.py:373-383 | the padded query loader applied to what it stored stores it again, so start-up and later updates agree |
| MlaPadding.LoadingTwiceKv | vllm_rbln/patches/axk2/_skt_model.py:1681-1694 | the same for the kv_b loader |
| GatedNorm.GatedRmsNorm | vllm_rbln/patches/axk2/_skt_model.py:540-664 | accepted exactly for non-empty rows, shaped weights, a power-of-two rank and rows of at most 8192; then out is the plain formula per row, residual is x + residual in place, x is untouched |
| GatedNorm.GatedIsSteps | vllm_rbln/patches/axk2/_skt_model.py:564-570 | the plain formula is the layer's steps on whole vectors: RMSNorm by the mean over H, W_down, SiLU, W_up, and the sigmoid gate |
| GatedNorm.AcceptedIff | vllm_rbln/patches/axk2/_skt_model.py:593-616 | the wrapper's bit test and block limit accept exactly powers of two and widths up to 8192, and which refusal any other weights get |
| GatedNorm.Launch | vllm_rbln/patches/axk2/_skt_model.py:641-661 | the grid gives the same memory in any program order: each row filled, everything outside the rows unchanged |
| GatedNorm.Program | vllm_rbln/patches/axk2/_skt_model.py:424-526 | one program writes its row of out, and with a residual its row of that, and nothing else |
| GatedNorm.Normalize | vllm_rbln/patches/axk2/_skt_model.py:470-477 | masked lanes neither reach the mean over H nor survive normalisation |
| GatedNorm.Shrink | vllm_rbln/patches/axk2/_skt_model.py:479-502 | the BLOCK_H-wide down product is the H-wide one, through silu |
| GatedNorm.Gate | vllm_rbln/patches/axk2/_skt_model.py:504-526 | the gated output on the first H lanes is the plain formula's |
| GatedNorm.MaskedDot | vllm_rbln/patches/axk2/_skt_model.py:451-497 | a block-wide sum of products with masked lanes is a sum of H terms |
| GatedNorm.GatedCongruent | vllm_rbln/patches/axk2/_skt_model.py:564-570 | the formula depends on H lanes of the row only |
| PowersOfTwo.NextPowerOfTwoIsLeast | vllm_rbln/patches/axk2/_skt_model.py:529-537 | the result is a power of two, at least n, and no smaller power of two is |
| PowersOfTwo.PowerOfTwoTest | vllm_rbln/patches/axk2/_skt_model.py:603-604 | for R > 0, R & (R - 1) is zero if and only if R is a power of two |
| Dispatch.AlwaysCorrectIff | vllm_rbln/compilation/dispatch.py:98-185 | over all runs of calls, compiles, bail-outs and invalidations, also between a lookup and its registration, no call runs wrong code if and only if sharing a key carries correctness over (fullgraph and no entry dying there), or every graph is right for every call (otherwise) |
| Dispatch.FailingRun | vllm_rbln/compilation/dispatch.py:114-117 | a key coarser than correctness allows is exposed by a run of at most three calls |
| Dispatch.GuardsFromKeySuffice | vllm_rbln/compilation/dispatch.py:112-117 | under fullgraph, with no entry dying before it is registered, sound guards that are functions of the key are enough |
| Dispatch.BindingsLast | vllm_rbln/compilation/dispatch.py:139-185 | a bound key keeps its code through any later events |
| Dispatch.RunKeepsInv | vllm_rbln/compilation/dispatch.py:153-185 | through any run every table entry was compiled by some call and, where the head is the call's own, stays bound to code Dynamo selected for that key |
| Dispatch.FailingHead | vllm_rbln/compilation/dispatch.py:153-160 | where Dynamo may bail out or the call's entry may die before it is registered, a graph wrong for any keyed call is served to it within three events |
| Dispatch.Dispatcher.InvokeBailingOut | vllm_rbln/compilation/compiler.py:90-96 | a call Dynamo runs eagerly still records the head of its list |
| Dispatch.StepDispatches | vllm_rbln/compilation/dispatch.py:139-185 | a hit and a refusal change nothing; a miss moves the first accepting entry, or new code, to the front, runs it, and records whatever heads the list once the dying entries are gone |
| Dispatch.Dispatcher.Invoke | vllm_rbln/compilation/dispatch.py:139-151 | a hit runs the recorded code, a miss goes through Dynamo and records what is left of its list after any deaths, an unkeyable call is refused |
| Dispatch.Dispatcher.Register | vllm_rbln/compilation/dispatch.py:153-185 | binds the head of Dynamo's list, or nothing when the list is empty |
| Dispatch.Dynamo.Call | vllm_rbln/compilation/dispatch.py:168-172 | the contract relied on: first accepting entry, or a new one, moved to the head of an MRU list |
| DispatchKey.KeyPartExact | vllm_rbln/compilation/dispatch.py:43-61 | two keyable arguments share a key part, a bare tuple, exactly when no guard tells them apart |
| DispatchKey.FormsNeverCollide | vllm_rbln/compilation/dispatch.py:49-56 | the untagged tuples of a tensor, a typed scalar and a tensor dictionary are never equal |
| DispatchKey.CallKeyExact | vllm_rbln/compilation/dispatch.py:64-95 | two keyable calls share a key exactly when arguments, keywords and forward context all match |
| DispatchKey.DispatchIsCorrect | vllm_rbln/compilation/dispatch.py:139-145 | with this key, fullgraph and no entry dying before it is registered, sound guards that read only what Dynamo compares never misdispatch |
| Lora.LinearAddsAdapter | vllm_rbln/lora/punica_wrapper/punica_rbln.py:104-143 | a column of slice s gains exactly scale times x A B of the token's own adapter |
| Lora.LinearAddsNothing | vllm_rbln/lora/punica_wrapper/punica_rbln.py:119-143 | an all-zero mask row leaves the token's outputs alone |
| Lora.MaskIsForced | vllm_rbln/lora/punica_wrapper/punica_rbln.py:119-143 | for all weights the masked product is adapter d's if and only if the mask row is one on d's block and zero elsewhere |
| Lora.MaskedIsAdapter | vllm_rbln/lora/punica_wrapper/punica_rbln.py:130-141 | the flattened masked product equals the single adapter's product |
| Lora.MaskedEmbeddingIsAdapter | vllm_rbln/lora/punica_wrapper/punica_rbln.py:75-102 | the same for the embedding's repeated input |
| Lora.UpdatedColumn | vllm_rbln/lora/punica_wrapper/punica_rbln.py:124-143 | slices do not overlap: a column receives its own slice's term once |
| Lora.UpdatedOutside | vllm_rbln/lora/punica_wrapper/punica_rbln.py:124-143 | columns outside every slice keep their value |
| Lora.AddLoraLinear | vllm_rbln/lora/punica_wrapper/punica_rbln.py:104-143 | the loop advancing slice_offset adds every slice's masked product in place |
| Lora.AddLoraEmbedding | vllm_rbln/lora/punica_wrapper/punica_rbln.py:75-102 | y gains the masked embedding product in place |
| Lora.AddLoraLogits | vllm_rbln/lora/punica_wrapper/punica_rbln.py:145-172 | the factor's columns gain the scaled masked product, the others stay |
| Shutdown.ShutdownIsSafe | vllm_rbln/patches/multiproc_executor.py:102-160 | in every interleaving: one shared event, at most one caller on the termination path, queues marked before the ladder, cleanup by others only after the event or a wait longer than the ladder, at most one callback |
| Shutdown.RunKeepsInv | vllm_rbln/patches/multiproc_executor.py:102-160 | the invariant behind it holds after any run of any number of threads |
| Shutdown.StepKeepsInv | vllm_rbln/patches/multiproc_executor.py:102-160 | every move of every thread, and time passing, keeps what the threads share and what each relies on |
| Shutdown.NoOutrunWithinSlack | vllm_rbln/patches/multiproc_executor.py:44-53 | a waiter cannot time out during a ladder that began within 5 seconds of its wait |
| Shutdown.CanOutrunIff | vllm_rbln/patches/multiproc_executor.py:141-152 | it can time out during a running ladder if and only if that began 5 seconds or more after |
| Shutdown.CanLeaveUnendedIff | vllm_rbln/patches/multiproc_executor.py:135-152 | from any reachable state, a waiter can leave with the workers not ended if and only if they have not ended yet; without a ladder that raises, if and only if the ladder has not begun, began 5 seconds or more after the wait, or raised already |
| Shutdown.LeftUnendedBecause | vllm_rbln/patches/multiproc_executor.py:114-152 | whenever a later caller is through with the workers not ended, the first caller faulted before the ladder, the ladder raised, or the first is at it or short of it 5 seconds late |
| Shutdown.FaultLeavesWorkers | vllm_rbln/patches/multiproc_executor.py:118-139 | the run in which the first caller faults while closing queues: the second times out and the workers are never ended |
| Shutdown.RaisingLadderLeavesWorkers | vllm_rbln/patches/multiproc_executor.py:135-139 | the run in which the ladder raises at once: the event wakes the second caller, which leaves with no worker ended |
| Shutdown.MonitorShutdownAfterCallback | vllm_rbln/patches/multiproc_executor.py:181-199 | a monitor that has entered shutdown has cleared the callback and run it once, or not at all if none was given |
| Shutdown.CallbackBeforeMonitorShutdown | vllm_rbln/patches/multiproc_executor.py:181-199 | when the callback is about to run it has been cleared, never ran before, and the monitor has not entered shutdown |
| Shutdown.AnyoneCanFinish | vllm_rbln/patches/multiproc_executor.py:102-160 | from any reachable state, any thread can get to its end within its own moves, the ladder's end and the passing of time |
| Shutdown.MonitorReacts | vllm_rbln/patches/multiproc_executor.py:181-199 | a worker's death before any shutdown leads the monitor to run the callback, if there is one, and to shut down as the first caller; during one it leaves everything alone |
| QueueSizing.SafeDepthIff | vllm_rbln/patches/multiproc_executor.py:16-22 | no stage of a pipeline of any length ever blocks on its response queue if and only if the queue holds max_concurrent_batches * 2 answers |
| QueueSizing.UnreadAnswersBounded | vllm_rbln/patches/multiproc_executor.py:60-62 | unread answers never exceed the calls of the batches in flight |
| QueueSizing.WorkerProc.InitMessageQueues | vllm_rbln/patches/multiproc_executor.py:77-87 | the queue never shrinks, is replaced only when too shallow and then by the least safe depth, and stays upstream's across nodes |
| Rope.ForwardTurns | vllm_rbln/patches/rotary_embedding.py:91-133 | for query and key alike, every pair of every head of every token is turned by the angle of its position plus offset, places past rotary_dim stay, and the call fails exactly when such a position has no cache row |
| Rope.OffsetsLeaveScores | vllm_rbln/patches/rotary_embedding.py:91-133 | with angle-additive unit caches, shifting all positions leaves every query-key product: only position differences count |
| Rope.ForwardKeepsNorms | vllm_rbln/patches/rotary_embedding.py:91-133 | every head keeps its norm, and dimensions past rotary_dim pass through |
| Rope.PairRotates | vllm_rbln/patches/rotary_embedding.py:53-62 | duplicated caches with rotate_neox or rotate_gptj rotate each pair by its own angle |
| Rope.LayoutsConjugate | vllm_rbln/patches/rotary_embedding.py:53-62 | neox and gptj are one map, conjugated by the half-split permutation |
| Rope.HeadsAreRelative | vllm_rbln/patches/rotary_embedding.py:111-121 | the relative-position law for one query head and one key head |
| AllGather.AllGatherConcatenates | vllm_rbln/distributed/rbln_communicator.py:24-68 | succeeds exactly for dim 0 and, on 2-D and 3-D inputs, dim -1; the result is concatenation along that dimension for every world size and shape |
| AllGather.MergeSecondAt | vllm_rbln/distributed/rbln_communicator.py:41-56 | rank r's [i][j] ends at [i][r * b + j] |
| AllGather.MergeThirdAt | vllm_rbln/distributed/rbln_communicator.py:41-56 | rank r's [i][c][j] ends at [i][c][r * b + j] |
| AllGather.DestinationHolds | vllm_rbln/distributed/rbln_communicator.py:36-56 | each rank's k-th element is found at its destination |
| AllGather.DestinationIsBijective | vllm_rbln/distributed/rbln_communicator.py:36-56 | destinations are distinct and leave no output position over |
| AllGather.ConcatIsUnique | vllm_rbln/distributed/rbln_communicator.py:24-68 | concatenation along a dimension is a single tensor, so AllGatherConcatenates fixes every element of the result |
| AllGather.PermuteAt | vllm_rbln/distributed/rbln_communicator.py:42-48 | permuting dimensions renumbers elements by the inverse permutation |
| Registry.RunKeepsConsistent | vllm_rbln/patches/registry.py:137-173 | over any registrations and applies, failing ones included, keys stay unique and what counts as applied stays bound, for prefix-free targets |
| Registry.RunBindsFirst | vllm_rbln/patches/registry.py:137-173 | after any registrations and applies with prefix-free targets, an apply that succeeds leaves the first accepted registration for every key bound, if it is active |
| Registry.RunListsFirst | vllm_rbln/patches/registry.py:143-160 | what is listed after a run is exactly the first accepted registration for each key |
| Registry.RegisteredRegisters | vllm_rbln/patches/registry.py:130-173 | a new key is appended; an immediate active patch rebinds its target and what lies below, and nothing else, or fails unresolved; a refused or repeated one changes nothing |
| Registry.ApplyStopsAt | vllm_rbln/patches/registry.py:270-292 | the loop marks exactly the active patches before the point where it stops, stops early only at one that does not resolve or verify, and leaves every name no due target covers |
| Registry.AlwaysBindsIff | vllm_rbln/patches/registry.py:270-292 | every successful apply leaves every active target bound, in every environment, if and only if no target is a prefix of one applied before it |
| Registry.ApplyInOrder | vllm_rbln/patches/registry.py:270-292 | with prefix-free targets, applied patches are bound after an apply, successful or not, and all active ones after a successful one |
| Registry.SecondApplyIsIdle | vllm_rbln/patches/registry.py:273-275 | a second apply changes nothing |
| Registry.RegistrationOrderIrrelevant | vllm_rbln/patches/registry.py:207-210 | the same descriptors registered in another order are applied the same way |
| Registry.SortedKeeps | vllm_rbln/patches/registry.py:207-210 | in application order the priority grows, or stays while the key grows at its first differing character, and no descriptor is lost |
| Registry.PatchRegistry.Register | vllm_rbln/patches/registry.py:130-173 | appends one descriptor per key; an immediate patch is bound at registration, or fails after being listed; in all other cases no name changes |
| Registry.PatchRegistry.Validate | vllm_rbln/patches/registry.py:241-262 | passes exactly when active descriptors have priorities in range and distinct targets; a duplicate key is never what it reports |
| Registry.PatchRegistry.ApplyRegistered | vllm_rbln/patches/registry.py:265-292 | a bad layout changes nothing; otherwise the sorted descriptors are applied up to the first failure |
| Ordering.SortedSorts | vllm_rbln/patches/registry.py:207-210 | sorting permutes, and orders strictly when ranks differ |
| Ordering.StrictOrderIsUnique | vllm_rbln/patches/registry.py:207-210 | a collection has one strictly ordered listing |
| Metrics.TablesAreRecords | vllm_rbln/patches/metrics.py:122-145 | the per-phase lists are, in order, the records of the trace's own start-to-end passes |
| Metrics.ListsHaveOneLength | vllm_rbln/patches/metrics.py:127-137 | graph and end-to-end lists of a phase have one length after any events |
| Metrics.StartsAfresh | vllm_rbln/patches/metrics.py:122-125 | nothing from before a start reaches the passes after it |
| Metrics.GraphWithinEndToEnd | vllm_rbln/patches/metrics.py:127-145 | with disjoint timed intervals inside each pass, no graph entry exceeds its end-to-end entry |
| Metrics.StepsLeaveTheirRecords | vllm_rbln/patches/metrics.py:279-376 | over engine steps that finish, hand off or raise, one entry per step that ended, marked a phase and timed something |
| Metrics.PerformanceContext.Start | vllm_rbln/patches/metrics.py:122-125 | opens a pass and forgets an unfinished one |
| Metrics.PerformanceContext.End | vllm_rbln/patches/metrics.py:127-137 | closes the pass and records both latencies or neither |
| Metrics.PerformanceContext.Mark | vllm_rbln/patches/metrics.py:139-141 | marks the phase only inside a pass |
| Metrics.PerformanceContext.AddGraphTime | vllm_rbln/patches/metrics.py:143-145 | adds graph time only inside a pass |
| TiedLoader.LmHeadGetsEmbedding | vllm_rbln/patches/models_utils.py:71-156 | with tying and more than one rank, a node with an lm_head child loads exactly when the rest loads cleanly, no second weight is captured and lm_head's weight loader takes the tensor, and then delivers, after everything else, the embedding's tensor to lm_head, and nothing more |
| TiedLoader.RoutesEverythingElse | vllm_rbln/patches/models_utils.py:91-139 | for every module tree, the load succeeds exactly when the recursion without the patch does and every capture can be replayed, and then delivers what that recursion delivers, in order, plus the replays |
| PlainLoading.PlainLoadDelivers | vllm_rbln/patches/models_utils.py:91-139 | without the patch a load either delivers, once each and in checkpoint order, exactly the weights whose own names lead through present, unskipped children to a parameter or a self-loading module, or fails as the first refused weight does |
| PlainLoading.PatchedLoadDelivers | vllm_rbln/patches/models_utils.py:91-156 | with the patch the same holds of all that is not a replay, whenever every capture can be replayed |
| PlainLoading.PlainLoadsEach | vllm_rbln/patches/models_utils.py:91-139 | grouping by prefix and recursing with whole groups is following each weight's name on its own, outcome for outcome |
| PlainLoading.DeliveredUnderItsName | vllm_rbln/patches/models_utils.py:91-113 | a delivered weight arrives under its own full dotted name, at a loader that takes it |
| TiedLoader.CapturedAreDrawn | vllm_rbln/patches/models_utils.py:84-95 | what is captured is, in order, the weights that pass into a loading child under a name that begins like embed_tokens, renamed |
| TiedLoader.UnskippedAre | vllm_rbln/patches/models_utils.py:144-145 | during a replay exactly the prefixes that begin with lm_head are off the list |
| TiedLoader.LoadSucceedsIff | vllm_rbln/patches/models_utils.py:141-156 | the success half of it, also for a load that is itself a replay |
| TiedLoader.PerLayerEmbeddingBreaks | vllm_rbln/patches/models_utils.py:84-89 | a concrete checkpoint the plain loader takes, the patched one refuses, with lm_head left unskipped |
| TiedLoader.UntiedIsPlain | vllm_rbln/patches/models_utils.py:73-94 | without tying or on one rank the patch changes nothing, errors included |
| TiedLoader.AutoWeightsLoader.LoadModule | vllm_rbln/patches/models_utils.py:41-156 | the recursive walk terminates with the specified outcome, whichever weight loaders raise; skip_prefixes loses lm_head exactly when the load breaks in the middle of a replay, and is as before otherwise |
| TiedLoader.AutoWeightsLoader.LoadChildren | vllm_rbln/patches/models_utils.py:84-139 | the loop over weight groups, with the embeddings seen on the way, and exactly when it leaves lm_head unskipped |
| TiedLoader.AutoWeightsLoader.ReplayEmbeddings | vllm_rbln/patches/models_utils.py:141-156 | at most one embedding is replayed, with lm_head unskipped meanwhile, and left so exactly when the one cannot be replayed, a raising weight loader included |
| DraftPadding.Pad | vllm_rbln/utils/__init__.py:36-95 | row r is request r's tokens followed only by zeros; refused exactly for no requests or max_len below the largest count |
| DraftPadding.UnpadRecovers | vllm_rbln/utils/__init__.py:41-60 | cutting the rows back to their counts gives the input |
| DraftPadding.ZerosFollow | vllm_rbln/utils/__init__.py:79-93 | past a row's tokens there are only zeros |
| DraftPadding.DestinationsClimb | vllm_rbln/utils/__init__.py:79-87 | destination indices are strictly increasing and inside the output |
| DraftPadding.DestinationOf | vllm_rbln/utils/__init__.py:79-87 | the repeat_interleave and cumsum arithmetic sends token j of request r to slot j of row r |
| DraftPadding.IndexCopy | vllm_rbln/utils/__init__.py:89-93 | the scatter writes each token and leaves the rest zero |
| KvCache.RunKeepsInv | vllm_rbln/v1/kv_cache.py:39-104 | over any operations each request owns at most one block, blocks are not shared, and free plus owned is the pool |
| KvCache.AdmittedNeverNeedsMore | vllm_rbln/v1/kv_cache.py:48-70 | once a request has its block it keeps it and needs no other until it is freed |
| KvCache.StepDoes | vllm_rbln/v1/kv_cache.py:60-104 | what each operation does: no external tokens change nothing, a request that owns no block gains one from the pool or finds it empty, nobody else's blocks change |
| KvCache.StartsWhole | vllm_rbln/v1/kv_cache.py:39-46 | a new manager satisfies the invariant |
| KvCache.SlidingWindowManager.AllocateNewBlocks | vllm_rbln/v1/kv_cache.py:60-70 | takes the predicted number, or fails exactly when the pool has fewer |
| KvCache.SlidingWindowManager.AllocateExternalComputedBlocks | vllm_rbln/v1/kv_cache.py:86-104 | one block when tokens arrive from outside, none otherwise, an assertion when one is owned |
| KvCache.SlidingWindowManager.AddLocalComputedBlocks | vllm_rbln/v1/kv_cache.py:72-84 | asserts no hits and no blocks, and records zero cached blocks |
| SubBlocks.PartialMatchLaw | vllm_rbln/v1/core/rbln_kv_cache_manager.py:386-474 | on the request's contents: something is found exactly when every group has a block holding the request's next sub-block after the request's own tokens and a token is left to compute; n is the most of which that is true, less than a block per group, and each group's source holds them |
| SubBlocks.DepthIffServes | vllm_rbln/v1/core/rbln_kv_cache_manager.py:408-431 | a group matches n sub-blocks exactly when n is less than a block and one of its blocks holds the request's next n |
| SubBlocks.StartIsLastBoundary | vllm_rbln/v1/core/rbln_kv_cache_manager.py:410-413 | a group's query starts at the last whole block not past the computed tokens |
| SubBlocks.PartialMatch | vllm_rbln/v1/core/rbln_kv_cache_manager.py:386-474 | the loop over groups finds a match exactly when one exists, and then the deepest with its sources, which PartialMatchLaw puts in terms of contents |
| SubBlocks.LandsAtComputedIff | vllm_rbln/v1/core/rbln_kv_cache_manager.py:410-417 | the copied sub-blocks follow the computed tokens exactly when those fill whole blocks of the group |
| SubBlocks.LongestMatchLaw | vllm_rbln/v1/core/rbln_kv_cache_manager.py:214-232 | the block named agrees with the query for the whole depth, and no indexed block agrees with it further |
| SubBlocks.RunMirrors | vllm_rbln/v1/core/rbln_kv_cache_manager.py:802-857 | through any updates, evictions and resets, a reader of the stored and removed events holds exactly the indexed hashes |
| SubBlocks.RunTellsNews | vllm_rbln/v1/core/rbln_kv_cache_manager.py:802-857 | while updates continue what blocks hold, every hash is announced only when new and removed only when held, once each, and every block holds consecutive sub-blocks |
| SubBlocks.StoreFitsIff | vllm_rbln/v1/core/rbln_kv_cache_manager.py:167-184 | an update keeps every block's list consecutive if and only if it continues what the block holds |
| SubBlocks.StaleListMisleads | vllm_rbln/v1/core/rbln_kv_cache_manager.py:174-184 | three updates after which the longest match leads to a block that shares nothing with the query |
| SubBlocks.SliceFits | vllm_rbln/v1/core/rbln_kv_cache_manager.py:704-743 | every slice of a request's hashes that the manager indexes for a block is consecutive from that block's start |
| SubBlocks.HashesTellContents | vllm_rbln/v1/core/rbln_kv_cache_manager.py:82-154 | two chained hashes are equal exactly when they stand at one place and cover the same sub-blocks from the first token on |
| SubBlocks.RequestHashes.Refresh | vllm_rbln/v1/core/rbln_kv_cache_manager.py:659-681 | hashing from the last hash of a request that has grown gives what hashing all its tokens gives |
| SubBlocks.CutAt | vllm_rbln/v1/core/rbln_kv_cache_manager.py:139-154 | sub-block i covers the i-th run of sub_block_size tokens with the extra keys of its first token, and less than a sub-block is left over |
| SubBlocks.SubBlockIndex.Update | vllm_rbln/v1/core/rbln_kv_cache_manager.py:167-184 | lengthens the block's list, keeps the two maps inverse, and returns the first index whose hash no block held |
| SubBlocks.SubBlockIndex.Pop | vllm_rbln/v1/core/rbln_kv_cache_manager.py:186-204 | drops the block from both maps and returns, once each, the hashes that no other block holds |
| SubBlocks.SubBlockIndex.LongestMatch | vllm_rbln/v1/core/rbln_kv_cache_manager.py:214-232 | the longest run of leading hashes that are all held, and a block that holds the last of them |
| ConfigMerge.Precedence | vllm_rbln/config.py:199-251 | each field is the last command-line write, else the parser's default, else the environment, else the field's default; resolving again changes nothing |
| ConfigMerge.RefusedIff | vllm_rbln/config.py:208-228 | whatever the parser's default, refused exactly when the parsed value is a bare string or a surviving key names no field, and with which error and which names |
| ConfigMerge.MergeIsLastWrite | vllm_rbln/config.py:297-324 | for every order of flags the dictionary is the per-key last write since the last bare string |
| ConfigMerge.LastWriteIsLast | vllm_rbln/config.py:297-324 | the last write is the value of the last flag or object that names the key, with or without the rbln_ prefix, off exactly for a --no- option, with no later one and no later bare string |
| ConfigMerge.ParseArgs | vllm_rbln/config.py:283-324 | the left-to-right merge, in a dictionary of the namespace's own; the parser's shared default is never changed |
| ConfigMerge.Namespace.OwnDict | vllm_rbln/config.py:283-294 | copies the default once, then keeps writing to the copy |
| ConfigMerge.Namespace.Act | vllm_rbln/config.py:297-324 | each argparse action performs one merge step |
| RoundRobin.LoadsBalance | examples/optimum/ec_disagg/client_ec_disaggregated.py:122-133 | over any requests the k-th item goes to encoder k mod n, and totals differ by at most one |
| RoundRobin.SendsAreRoundRobin | examples/optimum/ec_disagg/client_ec_disaggregated.py:128-131 | the counter chains requests into one round-robin over all items, from any starting value |
| RoundRobin.Proxy.Fanout | examples/optimum/ec_disagg/client_ec_disaggregated.py:114-133 | targets and the next counter; no items leave it alone, no encoders reset it and fail |
| RoundRobin.ExtractItems | examples/optimum/ec_disagg/client_ec_disaggregated.py:85-101 | exactly the image and audio items of list-valued contents, each once, in order of message and position |

## Left out

- Floating point: rounding, dtype casts and the bf16 stores are not modelled anywhere; sums are exact reals.
- EaglePipeline: the names of the hand-off's tensors are integers, and inputs_embeds or embed_input_ids is one given embedding.
- MlaPadding: the tables of target sizes (any layout that covers the native one is allowed), the sparse indexer with its top-k and its own padding, quantised weights, and joining heads for o_proj. One head and one query token against a context of cached tokens are modelled.
- GatedNorm: the CUDA, dtype and contiguity assertions, the warp count, and buffers that overlap; x and the residual are separate arrays.
- Dispatch: copying function slots onto the clone, profiler scopes, bound methods, and concurrent callers, which the source excludes too. Frames Dynamo skips appear as an empty entry list.
- DispatchKey: keyword arguments are a map, which is what sorting them by name achieves. Floats are reals, so NaN and negative zero are not covered.
- Lora: the choice of mask by the caller, and add_shrink and add_expand, which only raise.
- Shutdown: closing the queues of a list is one move, and a fault there skips the event as in the source. The bound on the termination ladder (grace period, then 4 seconds) is upstream's and is assumed. The weak reference and the log messages are left out.
- QueueSizing: the engine's scheduling and upstream's collective_rpc appear only as the order in which answers may be given and read.
- Rope: view, reshape and transpose of the head dimension are nested sequences, and positions are already flattened.
- AllGather: the unimplemented branch rearranges before it raises; only the error is modelled. Ranks are assumed to pass equal shapes.
- Registry: names are paths in a tree, so one object reachable under two paths is not modelled, and a condition answers the same each time. Import errors and attribute errors are one failure. Registration callbacks (apply_registrations) would only repeat the key argument.
- Registry.PatchRegistry.Validate: does not say which of several layout errors is reported first.
- Metrics: reports, percentiles and the JSON file. Clock values are part of the events.
- TiedLoader: _groupby_prefix, _load_param, _can_skip and _get_qualname belong to vLLM and are written from how they are used here; skip_substrs and non-parameter tensors are not part of this model. A module with its own load_weights takes every weight it is given, or raises.
- TiedLoader.LmHeadGetsEmbedding: covers an lm_head with a parameter and no child of the replayed name, as ParallelLMHead is.
- DraftPadding: inputs that are not one-dimensional, and counts that do not add up to the input length, which the documentation rules out.
- KvCache: reference counts and the null block of the pool; releasing a request is upstream's free.
- SubBlocks: hashes that collide, the multimodal position that extra keys are computed from (they are a function of the token position), reference counts and copy operations on blocks, the requests whose indexing is deferred, and the other fields of events. That a block is evicted before it is given other contents, which every law from StoreFitsIff on rests on, is upstream's pool together with the eviction hook.
- ConfigMerge: field validation by pydantic, the field list itself (a parameter) and logging.
- RoundRobin: building and sending the HTTP requests.
- Not modelled at all: the MoE and attention kernels, bucketing, the schedulers, the workers, the prefix cache of the optimum path, connectors, environment parsing and the compiler. Some of this would add claims of its own, the optimum prefix cache and bucketing above all.
