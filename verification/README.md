# Hyper-Parallel: verified models of its protocols, generation loop and accounting

Dafny models of the parts of the repository whose correctness rests on an argument over whole
runs, with proofs of what they promise. Nothing here runs the original program. Check everything
with `dafny verify dfyconfig.toml`.

- **Codegen** — `Rendezvous.dfy`: any number of ranks over one artifact directory, one filesystem
  operation a step, with the reuse, wait and generate paths and the barrier. `BundleSwap.dfy`: the
  staged write of a bundle, where any of the operations may fail, the cleanup's too, and another
  rank's `mkdir` may land between the two renames; the recorded hashes.
- **Generation** — `LanguageModel.dfy`: an abstract causal model, whose K/V entry and logits are
  uninterpreted functions of what a query sees, and the reference without padding. `Generation.dfy`,
  `GenerationLoop.dfy`, `FinalRows.dfy`, `Generate.dfy`: masks, positions, one decode step, the loop,
  the final rows, the entry point, and what each row generates by itself. `GenerationContext.dfy`:
  the same loop as code that updates the context step by step. `CachedDecoding.dfy`,
  `GenerateLaws.dfy`, `Sampling.dfy`: caching, batching, padding, prefix reuse, repetition penalty.
- **Sharded caches** — `SequenceShards.dfy`, `KvCache.dfy`: the balanced split of a sequence and the
  two cache containers. `ContextParallel.dfy`: ranks that gather, append and reshard one cache.
- **Accounting** — `LiveBytes.dfy` (storage lifetimes, peak and saved bytes), `StackCensus.dfy`
  (per-kind means of a measured stack), `OpRecords.dfy` (lazily read record expressions),
  `CensusCache.dfy` (memory and disk cache of censuses).
- **In-place rewiring** — `AttentionSwap.dfy` (search of a shared or cyclic module graph, rewiring,
  rollback), `RecomputeRegions.dfy` (regions and exclusions over dotted names).
- **Layout and gradients** — `MeshLayout.dfy` (row-major views of one rank list),
  `GradAccumulation.dfy` (gradients of tied weights).

Where code and documentation disagree the models follow the code. The disagreements found, with
the members that state them:

- `write_bundle_atomic` says a reader sees the old or the new complete bundle. Between the renames a
  reader may see no directory or an empty one (`Rendezvous.ReadersMaySeeNothing`); over a non-empty
  old bundle that is so exactly while rank 0 is between them (`Rendezvous.MissingExactlyInTheGap`).
- The cleanup of a failed write means to put the old bundle back. If the last rename is what failed,
  a `mkdir` in the gap loses the old bundle, and a failing rename back leaves it under the backup's
  name (`BundleSwap.Parent.WriteBundle`, by the operations that fail).
- `_stage_bundle` says an emitted file always wins over the preserved copy; without a fresh meta, an
  emitted `codegen_meta.json` loses to the existing one (`BundleSwap.EmittedFilesWin`).
- Left padding is meant to be invisible; with a repetition penalty the sampler counts padding as seen
  (`Sampling.GreedyIsPaddingBlindIff`).
- Gathering context-parallel shards orders them by start, which needs at most one empty shard
  (`ContextParallel.GatheringRestores`).
- Attention swap means to replace every `self_attn`; one whose module has an earlier name in the same
  parent is not found (`AttentionSwap.AllReplacedIffNoAlias`).
- An op element that names `total` is priced from a name its slot does not say it reads. What a slot
  says is all it looks up exactly when no element does (`OpRecords.PriceDependsOnReads`); that such an
  element changes the price is shown for one slot, since `total * 0` would not.

## Model

| member | source | states |
|---|---|---|
| Rendezvous.VisibleIsNeverAMix | hyper_parallel/codegen/manager.py:86-122 | In every state of every run, for any number of ranks and any interleaving, the visible directory is absent, empty, the whole old bundle or the whole new one; a meta that reads as the current signature means a whole matching bundle; no rank raises. |
| Rendezvous.MissingExactlyInTheGap | hyper_parallel/codegen/artifact.py:221-232 | Over a non-empty old bundle, in every state of every run, the visible directory is missing or empty exactly while rank 0 is between its two renames, and otherwise is the whole old or the whole new bundle. |
| Rendezvous.ReadersMaySeeNothing | hyper_parallel/codegen/artifact.py:221-232 | Whenever rank 0 regenerates, some run shows no directory at all, and with a second rank some run shows an empty one between the renames. |
| Rendezvous.NextInv | hyper_parallel/codegen/manager.py:86-122 | Every operation of every rank keeps the protocol's invariant: what rank 0's position says of the three directories, who may be where, and how often each has arrived at the barrier. |
| Rendezvous.MatchingIsStable | hyper_parallel/codegen/manager.py:181-202 | Once the meta on disk matches, no operation of any rank, a late `mkdir` among them, changes the directory. |
| Rendezvous.MatchingStaysVisible | hyper_parallel/codegen/manager.py:181-202 | ... so over the rest of any run it stays as it is. |
| Rendezvous.ReturnedMeansReady | hyper_parallel/codegen/manager.py:74-122 | When any rank has returned, the bundle of the current signature is visible and stays so, and every rank has arrived at the barrier exactly once. |
| Rendezvous.StepsLowerTheMeasure | hyper_parallel/codegen/manager.py:191-202 | Every operation but a failed poll lowers a well-founded measure; a failed poll changes nothing. |
| Rendezvous.NeverStuck | hyper_parallel/codegen/manager.py:74-80 | In every reachable state with a rank still inside, some rank has an operation that lowers the measure, whatever the ranks decided on reuse. |
| Rendezvous.ProductiveStepsAreBounded | hyper_parallel/codegen/manager.py:74-80 | All but a bounded number of a run's operations are failed polls. |
| Rendezvous.EveryRunCanComplete | hyper_parallel/codegen/manager.py:74-122 | Every run, whatever state it has reached, can go on until every rank has returned, each after exactly one barrier, with a matching bundle visible. |
| Rendezvous.StaysProductive | hyper_parallel/codegen/manager.py:191-202 | An operation a rank can take, or a poll that would succeed, is still there after any other rank's operation. |
| Rendezvous.FairRunsReturn | hyper_parallel/codegen/manager.py:74-122 | However the ranks interleave, a run cut into more rounds than the ranks have operations, in each of which every rank moves or has nothing to do, has returned every rank. |
| Rendezvous.SkippingTheBarrierAbandonsRank0 | hyper_parallel/codegen/manager.py:95-105 | If the reuse path skipped the barrier, a run exists in which rank 0 waits inside it for a rank that has left without it. |
| Rendezvous.AbandonedForGood | hyper_parallel/codegen/manager.py:208-218 | ... and however the run goes on, rank 0 stays inside and nothing releases it. |
| BundleSwap.Parent.WriteBundle | hyper_parallel/codegen/artifact.py:200-244 | Whichever operations fail: success, a bad name, a failed last rename and a failed rename back are each told by the operations that fail. On success the artifact directory is exactly the staged bundle; on failure it is what it was once made sure to exist, but empty where a late `mkdir` met a failing last rename and missing, kept under the backup's name, where putting it back failed too. Nothing else of the parent changes, and a sibling stays only if the cleanup had a fault of its own. |
| BundleSwap.Parent.WriteOver | hyper_parallel/codegen/artifact.py:221-244 | The same from an existing directory: the first operation that fails decides, and every outcome fixes the whole parent. |
| BundleSwap.Parent.Stage | hyper_parallel/codegen/artifact.py:223-227 | Staging fills only the temporary directory, meta last, one operation a file, and leaves the visible bundle alone whatever fails. |
| BundleSwap.Parent.StageBundle | hyper_parallel/codegen/artifact.py:247-303 | What is staged is the emitted files over the preserved ones with an initialiser; it fails exactly for a bad name or a failing one of as many operations as files. |
| BundleSwap.Parent.CopyPreserved | hyper_parallel/codegen/artifact.py:271-284 | The copy loop stages exactly the regular old files that are not temporary, not the meta and not emitted. |
| BundleSwap.Parent.WriteEmitted | hyper_parallel/codegen/artifact.py:289-298 | The write loop puts every emitted file over what is staged. |
| BundleSwap.Parent.CopyMeta | hyper_parallel/codegen/artifact.py:300-303 | Without a fresh meta the old one is carried over last, over an emitted one. |
| BundleSwap.Parent.StageMeta | hyper_parallel/codegen/artifact.py:319-328 | The meta is written last, with digests of exactly what was staged before it. |
| BundleSwap.Parent.Swap | hyper_parallel/codegen/artifact.py:228-244 | Each outcome of the renames and the cleanup, by the operations that fail, and the whole parent after it. |
| BundleSwap.Parent.MoveAside | hyper_parallel/codegen/artifact.py:228-231 | Moving aside either renames the old bundle whole or leaves at most an empty backup. |
| BundleSwap.Parent.Restore | hyper_parallel/codegen/artifact.py:236-244 | The cleanup puts the old bundle back if nothing is in its place and drops both siblings; only a failing rename back makes it raise, and then nothing is touched. |
| BundleSwap.SwapUndoneTooLate | hyper_parallel/codegen/artifact.py:238-242 | With a directory made in the gap the cleanup drops the old bundle. |
| BundleSwap.FreshMetaDropsTheRest | hyper_parallel/codegen/artifact.py:266-298 | With a fresh meta the bundle holds the emitted files and an initialiser, nothing old. |
| BundleSwap.PartialUpdateKeepsTheRest | hyper_parallel/codegen/artifact.py:256-303 | Without one, no regular old file is dropped and none that was not emitted changes. |
| BundleSwap.EmittedFilesWin | hyper_parallel/codegen/artifact.py:256-303 | An emitted file is what is staged, exactly unless it is an emitted meta over a different existing meta. |
| BundleSwap.CodegenMeta.RecordOutputHashes | hyper_parallel/codegen/meta.py:222-238 | The loop records a digest for the key of every regular file but the meta, and nothing else. |
| BundleSwap.HashesHoldUnlessKeysClash | hyper_parallel/codegen/meta.py:222-238 | The recorded digests hold for every file exactly when no two files of different digest share a key. |
| LanguageModel.KeysAreTheHistorys | hyper_parallel/infer/generation.py:273-327 | Whatever padding a row holds and wherever, the K/V entries of its valid keys are those of its history without padding. |
| LanguageModel.LastLogitsAreTheHistorys | hyper_parallel/infer/generation.py:273-327 | ... and so are the logits of its last query, unless that is padding. |
| Generation.PrefillInputIsCausal | hyper_parallel/infer/generation.py:273-327 | The mask and position builders let each valid query see exactly the valid keys before it, prefix first, at the position that counts them. |
| Generation.PositionCountsValid | hyper_parallel/infer/utils.py:122-137 | A valid token's position is the number of valid tokens before it. |
| Generation.PrefillQuery | hyper_parallel/infer/utils.py:241-265 | The causal mask hides padding keys and later keys from a valid query, and nothing else. |
| Generation.DecodeInputIsCausal | hyper_parallel/infer/generation.py:240-259 | The one-token mask shows the new query exactly the valid cached keys and itself. |
| Generation.PrefillRow | hyper_parallel/infer/generation.py:452-479 | A prefill pass gives a row the logits and entries of its prefix and prompt without padding. |
| Generation.DecodeRow | hyper_parallel/infer/generation.py:554-572 | A cached decode step gives a row the logits and entries of its history and the new token. |
| GenerationLoop.AppendKeepsText | hyper_parallel/infer/generation.py:505-525 | Appending keeps a row's input, counts and masks right, and what it has generated is a part, or once finished all, of what it generates alone. |
| GenerationLoop.CombinedMaskGrows | hyper_parallel/infer/generation.py:262-270 | The mask handed to a cached step is the old key mask and one valid key, prefix included. |
| GenerationLoop.CachedDecodeKeepsModel | hyper_parallel/infer/generation.py:554-572 | The position by counts and the cached keys give an unfinished row the logits of its own history. |
| GenerationLoop.UncachedDecodeKeepsModel | hyper_parallel/infer/generation.py:573-593 | A full pass over the padded row gives it the same. |
| GenerationLoop.IterationKeepsRow | hyper_parallel/infer/generation.py:623-638 | One iteration of the loop keeps every row's invariants. |
| GenerationLoop.RunIsPerRow | hyper_parallel/infer/generation.py:623-638 | Whatever the other rows do, each row ends a run with what it generates by itself up to its first EOS or the limit. |
| GenerationLoop.BlindSamplerContinues | hyper_parallel/infer/generation.py:630-630 | A row generates the same with nothing on its left if the sampler does not look there. |
| FinalRows.FinalizeSequences | hyper_parallel/infer/generation.py:342-369 | The row and fill loops return each row from its first valid column, as long as its prompt and generated tokens, padded on the right. |
| FinalRows.FirstValid | hyper_parallel/infer/generation.py:356-361 | The start is the first valid column of a row that has one. |
| FinalRows.SliceIsValidTokensIffContiguous | hyper_parallel/infer/generation.py:363-364 | The returned slice is the row's valid tokens, whatever it holds, exactly when its valid columns are contiguous. |
| FinalRows.ContiguousOnceGenerated | hyper_parallel/infer/generation.py:363-364 | Once a token is appended that is so exactly for left-padded prompts. |
| Generate.GenerationIsPerRow | hyper_parallel/infer/generation.py:596-646 | For any batch, padding, prefix and kind of decoding, each output row is its own prompt and what it generates by itself, then padding only. |
| Generate.RefusedInputs | hyper_parallel/infer/generation.py:372-381 | Refused are exactly a mask of another shape than the ids' and one with a row that holds no valid token. |
| Generate.PrefixError | hyper_parallel/infer/generation.py:160-184 | Accepted are exactly no prefix, and one whose cache and mask fit the batch and each other, with the cache in use and returned; of an empty cache only the mask's length is looked at. |
| GenerationContext.Context.Prepare | hyper_parallel/infer/generation.py:405-449 | The context starts with the request's rows, masks, lengths and prefix cache. |
| GenerationContext.Context.AppendNextToken | hyper_parallel/infer/generation.py:505-525 | The whole new context after an append, padding for finished rows, and the tokens it returns. |
| GenerationContext.Iterate | hyper_parallel/infer/generation.py:623-638 | One iteration in place: whether it is the last, the context and cache it leaves, and the next logits. |
| GenerationContext.DecodeLoop | hyper_parallel/infer/generation.py:623-638 | The loop ends with exactly the context of the run that the per-row theorem is about. |
| GenerationContext.GenerateTokens | hyper_parallel/infer/generation.py:596-646 | The entry point returns exactly the rows, or the error, that the theorems are about, zero new tokens included. |
| CachedDecoding.CachingChangesNothing | hyper_parallel/infer/generation.py:542-593 | Without a prefix, generation with and without the K/V cache returns the same rows or error, for every batch and any mask, left-padded or not. |
| CachedDecoding.RunsAgree | hyper_parallel/infer/generation.py:623-638 | Two loops that hold the same rows and, for unfinished rows, the same logits end with the same context. |
| CachedDecoding.CachedPass | hyper_parallel/infer/generation.py:554-572 | A cached step gives a row the logits of its history and leaves the cache holding it, with counts that say its length. |
| CachedDecoding.FullPass | hyper_parallel/infer/generation.py:573-593 | A full pass gives a row whose last token is valid the logits of its history. |
| GenerateLaws.BatchedEqualsAlone | hyper_parallel/infer/generation.py:596-646 | A row of a left-padded batch is what its prompt generates in a request of its own, then padding only, if the sampler does not look at its padding. |
| GenerateLaws.PrefixReuseEqualsWholePrompt | hyper_parallel/infer/generation.py:187-203 | Prompts on a cached prefix generate what prefix and prompt generate together, less the prefix, if the sampler does not look at the prefix. |
| GenerateLaws.PenaltyOnPaddingChangesARow | hyper_parallel/infer/sampler.py:72-104 | For every penalty but one, and padding that holds a token's id, some model and prompt generate a different row when padded. |
| Sampling.GreedyIsPaddingBlindIff | hyper_parallel/infer/sampler.py:72-104 | Greedy sampling does not depend on what stands left of a row exactly when the penalty is one or nothing there is a token's id. |
| Sampling.ArgMax | hyper_parallel/infer/sampler.py:30-34 | The chosen token has the largest logit, the first of them. |
| SequenceShards.ShardsMeet | hyper_parallel/infer/kv_cache.py:74-84 | The shards are consecutive, start at 0 and end at the sequence's length. |
| SequenceShards.EveryPositionHasOneOwner | hyper_parallel/infer/kv_cache.py:74-84 | Every position is in exactly one rank's shard. |
| SequenceShards.ShardsAreBalanced | hyper_parallel/infer/kv_cache.py:74-84 | Shard lengths differ by at most one, the longer first. |
| SequenceShards.EmptyShards | hyper_parallel/infer/kv_cache.py:74-84 | A rank holds nothing exactly when the sequence is no longer than its rank. |
| SequenceShards.AppendingMovesLaterShards | hyper_parallel/infer/kv_cache.py:74-84 | After one more token a rank's shard starts where it did exactly if its rank is at most the old remainder. |
| SequenceShards.FlattenShards | hyper_parallel/infer/kv_cache.py:87-111 | The ranks' shards in rank order are the whole sequence. |
| KvCache.KVCache.Update | hyper_parallel/infer/kv_cache.py:131-139 | Replaces the cache exactly when the shapes fit; a rejected or missing value changes nothing. |
| KvCache.KVCache.Merge | hyper_parallel/infer/kv_cache.py:141-168 | Appends layer by layer, accepted exactly when every pair fits and counts and outer shapes agree; a rejected call changes nothing. |
| KvCache.ContextParallelKVCache.UpdateFull | hyper_parallel/infer/kv_cache.py:198-208 | Accepted exactly when every pair fits and the first layer's shard lies within every layer; then keeps this rank's shard of every layer, with its shard info. |
| KvCache.ContextParallelKVCache.UpdateLocal | hyper_parallel/infer/kv_cache.py:210-222 | Accepted exactly when the info is this rank's and every layer has its length; otherwise nothing changes. |
| KvCache.ContextParallelKVCache.MergeLocal | hyper_parallel/infer/kv_cache.py:224-268 | Accepted exactly when the new global length is known and its shard is as much longer as the first new layer; then stored length and shard info stay equal exactly when the new layers share one length. A rejected call changes nothing. |
| KvCache.ContextParallelKVCache.Clear | hyper_parallel/infer/kv_cache.py:270-273 | Back to the empty shard. |
| KvCache.MergedLengths | hyper_parallel/infer/kv_cache.py:258-267 | Only the first layer's growth is checked: all layers keep one length exactly when the appended ones share one. |
| KvCache.LocalLengthsAddUp | hyper_parallel/infer/kv_cache.py:74-84 | Canonical shard lengths of all ranks add up to the global length. |
| ContextParallel.RanksEndAsOne | examples/generate/cp_generate_check.py:107-173 | For any number of ranks, prompts, prefix, logits owner and steps: every rank ends with the context a single process ends with, or the run fails, exactly when an early gather meets two empty shards. |
| ContextParallel.RanksReturnTheBaseline | examples/generate/cp_generate_check.py:277-286 | ... so every rank returns the baseline's rows. |
| ContextParallel.RunRefines | examples/generate/cp_generate_check.py:107-143 | Over a whole run the ranks stop together, as the single process does. |
| ContextParallel.DecodeRefines | examples/generate/cp_generate_check.py:107-143 | After each decode step every rank's shard is full[start:end] of the single process's cache and its logits are the same; the length check does not fire. |
| ContextParallel.PrefillRefines | hyper_parallel/infer/generation.py:187-203 | The same after prefill, with a prefix sharded first and gathered by that pass. |
| ContextParallel.GatheringRestores | examples/generate/cp_generate_check.py:145-173 | Gathering the shards of a cache gives that cache exactly when at most one is empty. |
| ContextParallel.StartsTie | examples/generate/cp_generate_check.py:32-43 | Two shards have one start exactly when there are two more ranks than positions. |
| ContextParallel.GatherFullCache | examples/generate/cp_generate_check.py:145-173 | Padding, sending, cutting back, sorting and joining computes the gathered cache. |
| ContextParallel.SortCacheShards | examples/generate/cp_generate_check.py:32-43 | The loop rebuilds each shard from its padded tensor; the result holds exactly those, in the order of their starts. |
| ContextParallel.SortedOrders | examples/generate/cp_generate_check.py:32-43 | Sorting puts the starts in order and keeps exactly the pieces. |
| ContextParallel.PadShard | examples/generate/cp_generate_check.py:176-183 | Padded to the asked length, with the shard as its beginning. |
| ContextParallel.HandedIsOwn | hyper_parallel/infer/utils.py:140-167 | Whichever rank owns each row's logits, every rank samples from the same. |
| ContextParallel.ShardsFitTheirInfo | hyper_parallel/infer/kv_cache.py:210-222 | What a pass returns to a rank is accepted by that rank's cache. |
| LiveBytes.RunKeepsInv | hyper_parallel/auto_parallel/_layer_census.py:277-305 | Over any interleaving of allocations and frees with any reuse of addresses, each storage is in the log as allocated once and freed at most once, and a live one is at its address's current lifetime. |
| LiveBytes.NewTrackerInv | hyper_parallel/auto_parallel/_layer_census.py:267-296 | ... so it holds whenever a new tracker has seen any allocations and frees. |
| LiveBytes.OneStoragePerAddress | hyper_parallel/auto_parallel/_layer_census.py:282-296 | Whatever a new tracker has seen, at most one storage lives at an address. |
| LiveBytes.FreedStaysFreed | hyper_parallel/auto_parallel/_layer_census.py:292-296 | Once a run of the tracker has freed a storage, it never lives again, whatever takes its address, and the log says no more of it. |
| LiveBytes.LogSumsToSizes | hyper_parallel/auto_parallel/_layer_census.py:282-296 | At every moment the log's deltas sum to the live sizes, for any choice of storages left out. |
| LiveBytes.LiveBytes.Track | hyper_parallel/auto_parallel/_layer_census.py:282-290 | The tracker's whole new state after an allocation; a storage already counted changes nothing. |
| LiveBytes.LiveBytes.Free | hyper_parallel/auto_parallel/_layer_census.py:292-296 | The whole new state after a free; an empty storage leaves no event. |
| LiveBytes.LiveBytes.Peak | hyper_parallel/auto_parallel/_layer_census.py:307-327 | The two loops return the log's sum, without excluded and apart storages, at the first highest moment from the start on. |
| LiveBytes.FirstPeakIsFirst | hyper_parallel/auto_parallel/_layer_census.py:319-327 | That moment is the first at which the storages that are not excluded hold the most. |
| LiveBytes.PeakIsOfLiveStorages | hyper_parallel/auto_parallel/_layer_census.py:307-327 | For a log the tracker produced, the bytes are those of the storages that lived at the first moment of the run, from the given one on, at which the most was live. |
| LiveBytes.Measure | hyper_parallel/auto_parallel/_layer_census.py:348-441 | A measurement's three numbers, from a new tracker: the saves still live after the forward, or for a checkpointed one what is live but for parameters, output and shared storages; the ops' bytes, which grow by exactly those saves; and a peak that is what was live, parameters, output and their gradients left out, at the first moment from the forward's end on at which the most was, hence at least zero. |
| LiveBytes.RunForward | hyper_parallel/auto_parallel/_layer_census.py:385-421 | Packing keeps, by storage and lifetime, what autograd saves and the op that first saves it, parameters left out. |
| LiveBytes.FreedSavesAreLeftOut | hyper_parallel/auto_parallel/_layer_census.py:386-426 | A save freed during the forward is not held, even if its address holds another one by then. |
| LiveBytes.EverySaveHasAnOp | hyper_parallel/auto_parallel/_layer_census.py:395-404 | Every save has an op when ops are told apart. |
| LiveBytes.CountByOp | hyper_parallel/auto_parallel/_layer_census.py:436-439 | The loop adds to each op exactly the held bytes it first saved. |
| LiveBytes.OpsSumToHeld | hyper_parallel/auto_parallel/_layer_census.py:433-441 | The ops' bytes grow by exactly the bytes the forward is said to save. |
| StackCensus.StackTotals | hyper_parallel/auto_parallel/_layer_census.py:1648-1677 | Over the stack the per-kind means price both measured totals exactly when no kind's difference is clamped, and never below them, for any assignment of layers to kinds. |
| StackCensus.StackRecordsGiveBack | hyper_parallel/auto_parallel/_layer_census.py:1648-1677 | The returned records do so for what layers keep and for what their backward holds. |
| StackCensus.StackActivations | hyper_parallel/auto_parallel/_layer_census.py:1648-1677 | Refused exactly when the model builds another number of layers; otherwise one record for each kind. |
| StackCensus.RecordGivesBack | hyper_parallel/auto_parallel/_layer_census.py:1670-1675 | One record prices TP 1 and TP 2 at no less than its means, and at just them exactly without a clamp. |
| OpRecords.AloneSumsToAll | hyper_parallel/auto_parallel/_op_records.py:211-235 | In every slot the totals priced for each op alone sum to the total with everything kept, and one raises exactly when the other does. |
| OpRecords.EveryEntryHasOneOp | hyper_parallel/auto_parallel/_op_records.py:192-194 | Every entry, an op or a part, counts toward exactly one op of the vector. |
| OpRecords.PriceDependsOnNames | hyper_parallel/auto_parallel/_op_records.py:211-235 | A slot's price depends on nothing but the names its elements hold and those its formula holds but for the total, whatever is kept. |
| OpRecords.PriceDependsOnReads | hyper_parallel/auto_parallel/_op_records.py:211-235 | The names a slot says it reads are all of those exactly when no element names the total; then its price depends on them alone. |
| OpRecords.ElementReadingTheTotal | hyper_parallel/auto_parallel/_op_records.py:228-235 | An element that reads the total makes a slot that says it reads nothing cost whatever is bound there. |
| OpRecords.ValueReadsNames | hyper_parallel/auto_parallel/_op_records.py:98-123 | An expression's value depends only on the names it holds. |
| OpRecords.LazyNames.Lookup | hyper_parallel/auto_parallel/_op_records.py:64-82 | A lookup returns the name's binding and changes no binding; `max` and `min` are not names. |
| OpRecords.LazyNames.Evaluate | hyper_parallel/auto_parallel/_op_records.py:121-123 | Memoised, short-circuiting evaluation computes the expression's value and looks up only names it holds. |
| OpRecords.Price | hyper_parallel/auto_parallel/_op_records.py:227-235 | The loop over one memo computes the slot's price, errors included. |
| AttentionSwap.FindAttentionTargets | hyper_parallel/distributed/attention_swap.py:110-139 | On any finite graph, shared or cyclic, the search ends and records exactly once each module, reached without crossing a self_attn, that reports one; with none it reports that. |
| AttentionSwap.Visit | hyper_parallel/distributed/attention_swap.py:115-130 | The recursive visit leaves everything it newly visited recorded, with all it leads to visited. |
| AttentionSwap.RecordKeepsExact | hyper_parallel/distributed/attention_swap.py:99-107 | Recording groups references by attention, each parent once. |
| AttentionSwap.AliasedAttentionIsNotFound | hyper_parallel/distributed/attention_swap.py:126-130 | A registered self_attn is found exactly when no earlier name of its parent holds the same module; otherwise it is searched under that name. |
| AttentionSwap.ReplacedUnlessAliased | hyper_parallel/distributed/attention_swap.py:115-170 | After a swap a reached parent's self_attn is its own new wrapper; with an earlier name for the same module the parent is as it was. |
| AttentionSwap.AllReplacedIffNoAlias | hyper_parallel/distributed/attention_swap.py:115-170 | A swap replaces every registered self_attn of the modules it reaches exactly when none of them is also registered by an earlier name of its parent. |
| AttentionSwap.ApplyAttentionSwap | hyper_parallel/distributed/attention_swap.py:142-196 | An exception at any operation leaves every edge as it was; success points every recorded reference to one attention at one new wrapper of its own and changes no other edge. |
| AttentionSwap.RewireTarget | hyper_parallel/distributed/attention_swap.py:168-170 | Every reference of one target is saved and replaced, or what is saved suffices to restore. |
| AttentionSwap.Restore | hyper_parallel/distributed/attention_swap.py:187-188 | Putting the saved references back restores the graph. |
| RecomputeRegions.OutermostAncestor | hyper_parallel/distributed/activation_checkpoint.py:890-897 | Every matched module lies in exactly one outermost match. |
| RecomputeRegions.OutermostIsAntichain | hyper_parallel/distributed/activation_checkpoint.py:890-897 | No outermost match lies below another. |
| RecomputeRegions.RootsAre | hyper_parallel/distributed/activation_checkpoint.py:875-905 | The roots are exactly the matches with no match above them that lie in a selected layer. |
| RecomputeRegions.RootsHaveParents | hyper_parallel/distributed/activation_checkpoint.py:254-263 | Blocks are named below their container, so every root has a parent to be replaced in. |
| RecomputeRegions.ExclusionHasOneRoot | hyper_parallel/distributed/activation_checkpoint.py:919-935 | Every excluded module that is no root lies strictly below exactly one root. |
| RecomputeRegions.OnlyThreeRefusals | hyper_parallel/distributed/activation_checkpoint.py:958-975 | In a tree an exclusion never holds a root, so that refusal never happens. |
| RecomputeRegions.WrappedTreeIsSeparated | hyper_parallel/distributed/activation_checkpoint.py:1003-1063 | A tree without earlier wrappers ends with no checkpoint below another and each exclusion below exactly one. |
| RecomputeRegions.OneCheckpointThenExclusions | hyper_parallel/distributed/activation_checkpoint.py:1003-1063 | Going down such a tree to any module one crosses no wrapper, or one checkpoint and inside it only exclusions. |
| RecomputeRegions.ExclusionIsCrossedLast | hyper_parallel/distributed/activation_checkpoint.py:1003-1063 | To an excluded module one goes through its checkpoint first and its own exclusion last. |
| RecomputeRegions.FreshTreeSucceeds | hyper_parallel/distributed/activation_checkpoint.py:1003-1063 | On a tree without earlier wrappers a declaration that is not refused succeeds. |
| RecomputeRegions.ModuleTree.WrapExcluded | hyper_parallel/distributed/activation_checkpoint.py:938-955 | Deepest first, exactly the excluded modules are wrapped, those wrapped before stay and are not counted. |
| RecomputeRegions.ModuleTree.WrapRoots | hyper_parallel/distributed/activation_checkpoint.py:1047-1063 | Exactly the roots are wrapped and the new ones counted; it raises exactly when all were wrapped already. |
| RecomputeRegions.ModuleTree.ApplyRegions | hyper_parallel/distributed/activation_checkpoint.py:1003-1044 | With no layer selected nothing happens and a refused declaration wraps nothing; any other wraps exactly its exclusions and roots, and raises exactly if every root was wrapped already. |
| RecomputeRegions.DeepestFirstSorts | hyper_parallel/distributed/activation_checkpoint.py:1050-1054 | The wrapping order has no name before a deeper one and holds exactly the names. |
| MeshLayout.EveryRankOnce | hyper_parallel/distributed/mesh.py:163-193 | Every view indexes each of its ranks at exactly one coordinate. |
| MeshLayout.ChildrenPartition | hyper_parallel/distributed/mesh.py:239-248 | Groups along an axis partition the stage, and each rank is in its own at its local rank. |
| MeshLayout.FlatOfCoords | hyper_parallel/distributed/mesh.py:163-193 | Coordinates of an index give it back. |
| MeshLayout.CoordsOfFlat | hyper_parallel/distributed/mesh.py:163-193 | The index of coordinates gives them back. |
| MeshLayout.LastAxisChildrenAgree | hyper_parallel/distributed/mesh.py:239-248 | Two views of one rank list with one last dimension have the same last-axis groups and local ranks. |
| MeshLayout.LayoutCheckPasses | hyper_parallel/distributed/mesh.py:239-248 | In every accepted topology the TP layout check passes for every rank. |
| MeshLayout.OwnStage | hyper_parallel/distributed/mesh.py:157-162 | Every rank is in its own pipeline stage, which lies within the world. |
| MeshLayout.StagesPartition | hyper_parallel/distributed/mesh.py:157-162 | A rank is in another's stage exactly when both start at one rank. |
| MeshLayout.ViewsAreValid | hyper_parallel/distributed/mesh.py:141-236 | In every accepted topology the device, dense and expert views cover the same stage, each rank once. |
| MeshLayout.ExpertGroups | hyper_parallel/distributed/mesh.py:195-236 | An expert group is ep consecutive ranks of the stage and the shard axis has the configured size. |
| MeshLayout.MeshContext.BuildMeshes | hyper_parallel/distributed/mesh.py:141-236 | Which topologies are refused and in what order, and the three meshes otherwise; the layout refusal is never returned. |
| GradAccumulation.CallsSum | hyper_parallel/compile/compiler.py:658-695 | From cleared gradients, after any number of calls each trainable parameter holds the sum over calls and names of what was emitted for it, and any other holds none. |
| GradAccumulation.AccumulatedAdds | hyper_parallel/compile/compiler.py:688-695 | One call adds to each parameter exactly what is emitted for it. |
| GradAccumulation.TiedWeightsCountPerName | hyper_parallel/compile/compiler.py:661-666 | A tied weight's sum takes one gradient for each of its names. |
| GradAccumulation.NamesAreTheTrainable | hyper_parallel/compile/compiler.py:697-719 | Exactly the state names that are flagged, known and trainable take a gradient. |
| GradAccumulation.TrainableParamsInStateOrder | hyper_parallel/compile/compiler.py:697-719 | The loop lists the trainable parameters in state order, shared ones once for each name. |
| GradAccumulation.AccumulateGrads | hyper_parallel/compile/compiler.py:658-695 | Gradient i lands on parameter i; a count mismatch changes nothing; stored gradients stay apart from each other and from the emitted ones, which keep their values. |
| GradAccumulation.AccumulateOne | hyper_parallel/compile/compiler.py:688-695 | The first gradient gets storage of its own, later ones are added in place. |
| GradAccumulation.RunCalls | hyper_parallel/compile/compiler.py:668-671 | Calls one after the other compose to the fold the sum theorem is about. |
| CensusCache.CallReturnsRecomputed | hyper_parallel/auto_parallel/_hf_model_spec.py:548-590 | Over any history of processes, edited files, damaged or removed kept files and failed writes, a call returns what recomputing the census would. |
| CensusCache.HistoryKeepsInv | hyper_parallel/auto_parallel/_hf_model_spec.py:523-590 | Over such a history every kept census is right for every process that finds its sources unchanged. |
| CensusCache.UnavailableIsNotKept | hyper_parallel/auto_parallel/_hf_model_spec.py:581-589 | An unavailable census is remembered in the process and never written. |
| CensusCache.KeptIsRecomputed | hyper_parallel/auto_parallel/_hf_model_spec.py:523-533 | A kept census that passes its source check is what recomputing gives. |
| CensusCache.DigestOfWindows | hyper_parallel/auto_parallel/_hf_model_spec.py:499-506 | A file with Windows line endings has the digest of the same file with Unix ones. |
| CensusCache.Cache.Census | hyper_parallel/auto_parallel/_hf_model_spec.py:565-590 | The whole new memory and disk after a call, and a result that is a fresh copy. |
| CensusCache.Cache.Session | hyper_parallel/auto_parallel/_hf_model_spec.py:565-590 | Callers may write into any result they were given, at any time: every call returns, and the cache holds, what it would without the writes. |
| CensusCache.AnswersAreRecomputed | hyper_parallel/auto_parallel/_hf_model_spec.py:548-590 | ... which for each call is what recomputing the census would return. |

## Left out

- BundleSwap.Parent.WriteBundle: one file is one operation, listing a directory does not fail, and copies keep no times or permissions; of a removal or a write that fails, anything may stay in its own directory.
- Rendezvous.VisibleIsNeverAMix: all ranks compute one signature, reading the meta is one atomic step, the wait has no 600 s limit, and two jobs never share a directory.
- GenerateLaws.PrefixReuseEqualsWholePrompt: prefixes and prompts without padding of their own; padded ones are covered row by row by Generate.GenerationIsPerRow.
- CachedDecoding.CachingChangesNothing: no prefix, since decoding without the cache drops it and the configuration refuses the combination.
- ContextParallel.RanksEndAsOne: a prefix is given whole; one given as local shards with its shard info is not modelled.
- OpRecords.PriceDependsOnReads: whether an element reads the total is asked of its text, not of what it computes, so there is no converse for one like `total * 0`.
- OpRecords.LazyNames.Evaluate: a bare `max` or `min` outside a call is an error in the model; numbers are reals, so rounding and order of addition do not matter.
- Sampling.GreedyIsPaddingBlindIff: ids outside the vocabulary are never seen; that a clamped one may overwrite a real one's mark is not modelled.
- CensusCache.CallReturnsRecomputed: digests do not collide, files change only between processes, and a census depends only on files its process has loaded.
- RecomputeRegions.WrappedTreeIsSeparated: a tree is its names and wrappers; modules shared between two names, and wrappers installed earlier, are outside this model.
- AttentionSwap.ApplyAttentionSwap: the swap manager's own wiring is the list of adjacent wrappers; hooks, groups and the finalizer are not modelled.
- LiveBytes.OpsSumToHeld: checkpointed forwards return what is live instead, which is not summed by op.
- KvCache.KVCache.Update: opaque cache objects with a length of their own are stored unchecked by the source and are not modelled; nor are tensor ranks other than four.
- Random sampling (top-k, top-p, temperature), logits processors, stopping criteria and vocabulary-sharded logits: the sampler is a deterministic function of a row's logits and tokens.
- Attention masks hold only 0 and 1; tensor numerics, devices, dtypes and autograd are uninterpreted.
- The census's shape stubs, fake tensors and hooks; how a layer is built and which op saves a tensor.
- Layer selection by count or index, checkpoint policies, compile passes, configuration and degree resolution: settled branch by branch.
- Pattern matching of region names, and the predicates that exclude modules, are arbitrary functions of the name.
- `DeviceMesh` and process groups: a mesh is a row-major list of ranks. Meshes built before a process group exists are not modelled.
- `codegen/runtime.py`, `loader.py` and `cli.py`: import machinery and calls into code that is not part of this model.
