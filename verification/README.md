# KV memory and request lifecycle of the serving engine

A Dafny model of the serving stack around its KV memory, from the physical pages up to the life of a request, with
proofs of what the layers promise each other. `dafny verify dfyconfig.toml` checks all of it.

**What is modelled, bottom up**

- The CPU's paged KV cache (`PageLedger`, `PageContents`, `PagedKV`): a page pool with per-sequence page tables,
  reference counts, prefix aliasing and copy-on-write. It behaves like one private array per sequence.
- The CPU forward pass around it (`Batches`, `Preflight`, `Transformer`, `CpuRuntime`): batch validation, the page
  preflight, the append loop, stores and attention reads. Numeric kernels are uninterpreted functions; each output
  depends on its own sequence's token history alone.
- The GPU's two ledgers (`PageTable`, `CudaRuntime`): logical lengths and exclusive pages prepared, started, and then
  published, undone or poisoned together. The device copy of the page table is a ghost field.
- The thread pool (`ParallelExecutor`, `ParallelCursor`) as a state machine over all interleavings; the arena planner
  (`MemoryPlan`); the streaming UTF-8 repairer (`Utf8Buffer`).
- The engine: credits (`BlockPool`), the prefix trie (`PrefixIndex`), the scheduler (`Scheduler`), events and logs
  (`Requests`), the runner as the engine may rely on it (`Runner`), and the worker itself (`Engine`), whose laws are in
  `EngineState`, `EngineCredits`, `EngineBatch`, `EngineFeed`, `EngineSync`, `EngineSamples`, `EngineAdmission`,
  `EngineWork`, `EngineSteps` and `EngineLaws`.
- What ties the layers together (`Credits`, `CpuServing`, `CudaServing`, `EngineOnCpu`, `EngineOnGpu`): the engine
  records each step it takes on slots and credit blocks, and any such record can be replayed on either runtime.

**The main results**

1. *Schedule independence* (`Engine.EveryLog`): at every moment, the tokens emitted for a request are a prefix of the
   greedy continuation of its own prompt, for every interleaving of other requests, chunk sizes, policies, prefix hits,
   evictions, cancellations and faults; all of it after a normal ending. `Requests.LogMeans` spells out what each ending
   says, and `Transformer.HistoriesMatter` that the continuation depends on every token.
2. *One ending* (`Engine.Run`, `Engine.TerminateAll`): every accepted request gets exactly one terminal event, nothing
   follows it, `cancelled` 503 and `backend_error` come only from shutdown and failure, and afterwards every credit
   block, slot and cache slot is free, also if the runner fails at any call and again during shutdown.
3. *Progress* (`Engine.Pass`, `Engine.WorkUntilIdle`): each pass decreases the work it found; the two errors for lack of
   progress are dead code.
4. *Copy-on-write refinement* (`PagedKV.Append`, `Store`, `SharePrefix`, `Clear`, `CpuRuntime.Runtime.Forward`).
5. *Credits dominate pages* (`ReplayOnCpu`, `ReplayOnGpu`): under the engine no page is ever copied on the CPU, and the
   page pool overflows on neither runtime.
6. *GPU transaction* (`CudaRuntime.Forward`, `Launch`): atomic on both ledgers, and skipping the page-table upload is
   sound.
7. *Trie, scheduler, thread pool, arenas, UTF-8*: each against a simple reference (a linear scan, a greedy plan,
   processing exactly once, unbounded arithmetic, the grammar of RFC 3629).

**A property that does not hold of the code.** With its cursor in a machine word, the thread pool claims each chunk at
most once only if no fetch beyond the range wraps around into it. `ParallelCursors.ClearIsExact` gives the exact
condition on count, grain and number of threads, and `HalfWordGrain` an input that fails. The grains used by the
repository (1, 16, 256) meet the condition for every count up to the word size less 256 grains
(`SmallIsClear`).

**How to read it.** Objects updated in place are classes with the same fields, and each method is proved against a
function of its old state. While the runner is healthy, `Engine.Working` holds between passes: sound records
(`Lifecycle`), a legal record of credit steps (`OnTrack`), and for every request that has not expired, a runner history
that is exactly its prompt as far as fed and the tokens sent (`InStepWith`). `Lifecycle` alone survives every fault.

## Model

| member | source | states |
|---|---|---|
| PagedKVCache.CheckedPageElements | src/minillm/paged_kv.cpp:12-24 | Succeeds exactly if all dimensions are positive and a page's elements stay within half the size range; then every offset into a page is representable. |
| PagedKVCache.PagedKV.constructor | src/minillm/paged_kv.cpp:28-35 | Every page free, every table empty, and a valid cache standing for empty private arrays. |
| PagedKVCache.PagedKV.AllocatePage | src/minillm/paged_kv.cpp:37-48 | Fails exactly on an empty free stack and then changes nothing; otherwise takes the top page with one reference and gives it storage, leaving the contents of all others. |
| PagedKVCache.PagedKV.Append | src/minillm/paged_kv.cpp:50-69 | The three errors and when each occurs; a failed append changes nothing; a successful one changes tables, counts and free stack as specified, grows exactly this sequence's private array by one unwritten position, and counts a copy exactly for a shared partial tail. |
| PagedKVCache.PagedKV.AppendAtBoundary | src/minillm/paged_kv.cpp:55-57 | At a page boundary a fresh page is taken, and the cache still represents the private arrays. |
| PagedKVCache.PagedKV.CopyTail | src/minillm/paged_kv.cpp:59-66 | The copy-on-write: the sequence continues on a private copy of the shared page, every sequence still reads its own array, and failure for want of a page changes nothing. |
| PagedKVCache.PagedKV.Store | src/minillm/paged_kv.cpp:85-98 | The errors and when each occurs; otherwise exactly one slot of one private array changes, whatever pages other sequences alias. |
| PagedKVCache.PagedKV.WriteCell | src/minillm/paged_kv.cpp:91-97 | The loop replaces the key and the value range of one cell and no other element of the page. |
| PagedKVCache.PagedKV.Key | src/minillm/paged_kv.cpp:100-104 | Out-of-range errors; a slot written through any alias before the sharing, or by this sequence since, reads back its key. |
| PagedKVCache.PagedKV.Value | src/minillm/paged_kv.cpp:106-110 | The same for values. |
| PagedKVCache.PagedKV.SharePrefix | src/minillm/paged_kv.cpp:112-127 | The errors and when each occurs; in the private-array view the target becomes a copy by value of the source's prefix, also if it already aliased the source; no contents move. |
| PagedKVCache.PagedKV.Clear | src/minillm/paged_kv.cpp:129-141 | Empties exactly one private array and returns exactly the pages nobody else holds; an unknown sequence is ignored. |
| PageLedger.AppendConsistent | src/minillm/paged_kv.cpp:50-69 | After any append that finds its page, every count is the number of tables listing the page, the free stack lists exactly the pages without owner once, and every table has ceil(length / page) distinct pages. |
| PageLedger.ClearConsistent | src/minillm/paged_kv.cpp:129-141 | Releasing a table keeps the counts and the free stack exact, also while somebody holds an extra reference on some of its pages. |
| PageLedger.ShareConsistent | src/minillm/paged_kv.cpp:112-126 | Retaining before releasing keeps ownership exact for any target, including one that aliases the source. |
| PageContents.OffsetInPage | src/minillm/paged_kv.cpp:71-74 | A cell of an existing layer lies inside its page. |
| PageContents.OffsetsDisjoint | src/minillm/paged_kv.cpp:71-74 | Cells of one page that differ in layer, in key or value, or in their place in the page occupy disjoint ranges. |
| PageContents.OtherCell | src/minillm/paged_kv.cpp:85-98 | A store leaves every other cell of its page as it was. |
| PageContents.StoreHeld | src/minillm/paged_kv.cpp:85-98 | For the storing sequence itself, its pages afterwards hold its private array with exactly that slot written. |
| PagedKVCache.CopyKeeps | src/minillm/paged_kv.cpp:59-66 | Copying the tail page and moving one sequence to the copy preserves what every sequence reads. |
| PagedKVCache.ShareKeeps | src/minillm/paged_kv.cpp:112-126 | Aliasing a prefix represents the private arrays after a copy by value, with the contents untouched. |
| PagedKVCache.RepresentsStore | src/minillm/paged_kv.cpp:85-98 | Writing on a page with a single owner changes one slot of one private array and nothing any other sequence reads. |
| Batches.CountTokens | src/minillm/runtime.cpp:170-180 | The validation loop accepts exactly the batches in which every token is in range and directly continues its sequence, and yields the lengths after the batch. |
| Batches.WellFormedMeans | src/minillm/runtime.cpp:170-180 | What acceptable means, token by token: a known sequence, a token of the vocabulary, and as position the length of its sequence plus the number of earlier tokens of the batch for it, within the limit. |
| Batches.TokenInHistory | src/minillm/runtime.cpp:174-180 | In an accepted batch every token sits in its sequence's resulting history at its own position. |
| Batches.PositionFromToken | src/minillm/runtime.cpp:174-180 | Conversely, every new position of every sequence comes from a token of the batch. |
| Preflight.OwnDemandDrops | src/minillm/runtime.cpp:199-212 | An append takes one page off its own sequence's predicted demand exactly when it takes a page. |
| Preflight.OtherDemandKept | src/minillm/runtime.cpp:199-212 | It never raises the predicted demand of another sequence, even one that shares its partial tail. |
| Preflight.CoveredStep | src/minillm/runtime.cpp:199-217 | While the predicted sum is within the free pages, the next append of the batch finds its page, and what is left of the sum is within what is left of the free pages. |
| Preflight.ExclusiveStep | src/minillm/runtime.cpp:215-217 | Every position appended so far stays on a page of a single owner through any further append. |
| CpuRuntime.Runtime.Validate | src/minillm/runtime.cpp:167-181 | Fails exactly for an empty, oversized or ill-formed batch. |
| CpuRuntime.Runtime.PagesNeeded | src/minillm/runtime.cpp:199-211 | Computes the predicted page demand from one summary per sequence. |
| CpuRuntime.Runtime.AppendAll | src/minillm/runtime.cpp:215-217 | After a covered preflight no append of the interleaved loop fails, and every new position ends on a page of its sequence alone. |
| CpuRuntime.Runtime.StoreOne | src/minillm/runtime.cpp:273-275 | A store inside the pass never throws, and fills the slot its sequence's history calls for. |
| CpuRuntime.Runtime.ReadContext | src/minillm/runtime.cpp:286-311 | Attention reads, for every position up to the token's own, the key and value its sequence's history determines. |
| CpuRuntime.Runtime.RunLayers | src/minillm/runtime.cpp:245-337 | After all layers each token's residual stream is the one its own history determines. |
| CpuRuntime.Runtime.Forward | src/minillm/runtime.cpp:164-356 | Fails exactly for a malformed batch or for a page demand above the free pages, and then changes nothing; otherwise histories grow by the batch and every requested output is the greedy token of that sequence's own history, however tokens were batched, chunked, paged or shared. |
| CpuRuntime.Runtime.SharePrefix | src/minillm/runtime.cpp:379-381 | The target continues from a prefix of the source's history without anything being computed again. |
| CpuRuntime.Runtime.ClearSequence | src/minillm/runtime.cpp:382-384 | Exactly that history becomes empty. |
| CpuRuntime.SharedFilled | src/minillm/runtime.cpp:379-381 | Every cached slot of a shared prefix is the one the target's new history calls for. |
| Transformer.DependsOnPrefix | src/minillm/runtime.cpp:245-337 | What is cached for a position depends on the tokens up to it only, which is what makes a cached prefix reusable. |
| Transformer.AttendsToAll | src/minillm/runtime.cpp:245-311 | One layer in terms of the kernels alone: attention gets its own stream and, for every position up to its own and in order, the rounded key and value of that position's stream. |
| Transformer.HistoriesMatter | src/minillm/runtime.cpp:286-311 | Every token matters, through keys and through values: for any two different histories of equal length and at least one layer there are kernels, blind to all but the cached keys (or values), that continue them differently. |
| Transformer.LayersRun | src/minillm/runtime.cpp:245-356 | The next token comes out after exactly the model's layers, first to last: kernels that record the layers they pass tell any other number of layers apart. |
| BlockPools.BlockPool.constructor | src/block_pool.cpp:9-17 | All blocks free and unreferenced. |
| BlockPools.BlockPool.Allocate | src/block_pool.cpp:19-32 | All or nothing: fails exactly when fewer blocks are free, changing nothing; otherwise hands out that many distinct blocks nobody held, top of the stack first. |
| BlockPools.BlockPool.ValidateTable | src/block_pool.cpp:34-45 | The epoch-stamped scan accepts exactly the tables of known blocks in use without repeats, also across a wrap-around of the epoch. |
| BlockPools.BlockPool.Retain | src/block_pool.cpp:47-57 | Both errors and when each occurs, with no count changed; otherwise one more holder for every listed block. |
| BlockPools.BlockPool.Release | src/block_pool.cpp:59-66 | Refuses exactly the invalid tables, changing nothing; otherwise one holder fewer, and exactly the blocks without holders become free. |
| BlockPools.RetainRelease | src/block_pool.cpp:47-66 | Releasing right after retaining restores all counts and frees nothing. |
| BlockPools.AllocateRelease | src/block_pool.cpp:19-66 | Releasing a freshly allocated table frees all of it again. |
| PrefixIndexes.PrefixIndex.Insert | src/prefix_index.cpp:15-30 | Refuses exactly empty entries, entries that are not whole blocks, those with another number of blocks, and repeated ones, changing nothing; otherwise the trie is that of the entries and the new one, stamped as the latest. |
| PrefixIndexes.PrefixIndex.Erase | src/prefix_index.cpp:32-55 | Returns and removes exactly that entry; after the bottom-up pruning the trie is exactly that of the remaining entries. |
| PrefixIndexes.PrefixIndex.Prune | src/prefix_index.cpp:42-51 | Pruning along the erased path leaves exactly the nodes some remaining entry runs through. |
| PrefixIndexes.PrefixIndex.FindMatch | src/prefix_index.cpp:57-81 | Returns the longest block-aligned prefix within the limit that the query shares with an entry of its namespace, with the smallest such owner; stamps that entry and changes nothing else. |
| PrefixIndexes.PrefixIndex.Walk | src/prefix_index.cpp:64-76 | The trie walk finds that longest match. |
| PrefixIndexes.MatchIsLinearScan | src/prefix_index.cpp:57-81 | The answer is the one of a linear scan: no entry of the namespace scores higher, and the reported owner scores exactly the reported length. |
| PrefixIndexes.MatchUnique | src/prefix_index.cpp:57-92 | There is only one longest match with the smallest owner. |
| PrefixIndexes.PrefixIndex.LeastRecentlyUsed | src/prefix_index.cpp:83-92 | Nothing exactly for an empty index; otherwise the entry with the strictly oldest stamp. |
| PrefixIndexes.InsertedIsTrie | src/prefix_index.cpp:21-26 | Node owners are exactly the entries through that path after an insertion walk. |
| PrefixIndexes.EraseUndoesInsert | src/prefix_index.cpp:15-55 | Erasing a just-inserted entry restores the trie. |
| Scheduling.Schedule | src/scheduler.cpp:11-49 | The sorting and filling loops compute the specified plan; `PlanIsGreedy`, `PromptsFirst`, `MixedServesItems` and `PlanFitsItems` say what that plan is. |
| Scheduling.PlanIsGreedy | src/scheduler.cpp:11-49 | Decode takes one token each from the front of its queue, prefill the rest of the budget in priority order; only the last prefill slice may be short, the plan stops early only with the budget spent, and a nonempty input gets a nonempty plan. |
| Scheduling.PromptsFirst | src/scheduler.cpp:34-47 | From the items alone: under the prefill-first policy, while any prompt is unfinished every slice is a prefill slice; otherwise exactly as many decode slices are planned as there are items, up to the budget. |
| Scheduling.PlanFitsItems | src/scheduler.cpp:22-47 | Each request gets at most one slice, of its own kind and within its remaining prompt. |
| Scheduling.SortKeeps | src/scheduler.cpp:17-23 | The stable sort is a permutation in order of aged priority, then submission. |
| Scheduling.SortIsByAge | src/scheduler.cpp:7-21 | In the sorted list a higher priority plus whole aging periods waited comes first, and among equals the earlier submission. |
| Scheduling.MixedServesItems | src/scheduler.cpp:36-47 | Under the mixed policy with room for a token each, every decoding item gets its token and the most urgent pending prefill advances. |
| EngineSteps.PlanBudget | src/scheduler.cpp:25-47 | The tokens of a plan never exceed the budget. |
| Utf8Repair.FitsIsChar | src/utf8.cpp:20-41 | The lead-byte table with the second-byte exceptions accepts exactly the characters of section 4 of RFC 3629. |
| Utf8Repair.FitsIsUnfinished | src/utf8.cpp:31-44 | What is held back is exactly what can still become a character. |
| Utf8Repair.DrainSplits | src/utf8.cpp:16-55 | Draining early and continuing with the rest gives what draining everything later gives. |
| Utf8Repair.OutputWellFormed | src/utf8.cpp:16-55 | Output is always well-formed, and at most three bytes are held, the proper beginning of a character. |
| Utf8Repair.WellFormedUnchanged | src/utf8.cpp:48-51 | Well-formed input passes through unchanged. |
| Utf8Repair.UnchangedIffWellFormed | src/utf8.cpp:16-55 | Exactly the well-formed inputs come out as they went in, and repairing is idempotent. |
| Utf8Repair.CharKept | src/utf8.cpp:48-51 | A character of the grammar comes out as it is, whatever follows, and the rest is repaired by itself. |
| Utf8Repair.EndReplaced | src/utf8.cpp:42-50 | An unfinished character at the end becomes one replacement character, EF BF BD. |
| Utf8Repair.ByteReplaced | src/utf8.cpp:48-50 | Input that neither starts with a character nor is the beginning of one loses exactly its first byte to one replacement character; everything after it is repaired by itself. |
| Utf8Repair.Utf8Buffer.Append | src/utf8.cpp:7-10 | Returns well-formed output and keeps at most three pending bytes. |
| Utf8Repair.Utf8Buffer.Finish | src/utf8.cpp:12-14 | However the input was chunked, all outputs together are the repair of the whole input. |
| Utf8Repair.Utf8Buffer.Drain | src/utf8.cpp:16-55 | The byte loop computes the specified output and rest. |
| PageTables.PageTableState.constructor | src/minillm/cuda/page_table.cpp:20-26 | Every page free once, no slot mapped, and the device copy marked stale. |
| PageTables.PageTableState.Prepare | src/minillm/cuda/page_table.cpp:32-67 | Any failure changes nothing; with consistent inputs it fails exactly when the demand exceeds the free pages; otherwise the pending rows own exactly ceil(length / 16) slots, committed slots keep their pages, and the journal lists as many new pages as demanded. |
| PageTables.PageTableState.CheckLengths | src/minillm/cuda/page_table.cpp:40-53 | The checking loops accept exactly growing, bounded lengths whose committed part agrees with the mapping, and sum up the demand. |
| PageTables.PageTableState.Fill | src/minillm/cuda/page_table.cpp:57-65 | The nested filling loops move the top free pages, in order and each journaled, into exactly the new slots. |
| PageTables.PageTableState.BeginExecution | src/minillm/cuda/page_table.cpp:69-73 | Takes exactly the journaled pages off the free stack; out of order it poisons. |
| PageTables.PageTableState.Commit | src/minillm/cuda/page_table.cpp:75-82 | Publishes the pending table with nothing left to upload; out of order it poisons and publishes nothing. |
| PageTables.PageTableState.DiscardPrepared | src/minillm/cuda/page_table.cpp:84-89 | Restores the ready state with the free stack and the dirty mark as they were. |
| PageTables.PageTableState.Poison | src/minillm/cuda/page_table.cpp:91-96 | In every phase, committed entries, free pages and pages in flight still list each physical page exactly once. |
| PageTables.PageTableState.Clear | src/minillm/cuda/page_table.cpp:98-117 | Empties exactly one row, returns its pages, and marks the device copy stale exactly if there were any or it already was; the two consistency throws cannot occur. |
| PageTables.ClearedRows | src/minillm/cuda/page_table.cpp:113-116 | A cleared row agrees with length zero, and pages are found exactly if the sequence had tokens. |
| PageTables.AssignedPages | src/minillm/cuda/page_table.h:46 | At a ready point assigned pages are exactly those the lengths call for, and pages times 16 less live tokens is between 0 and 15 per live sequence. |
| CudaRuntimes.BatchState.Prepare | src/minillm/cuda/batch_state.cpp:19-41 | Counts a well-formed batch into the pending lengths; every failure leaves phase and committed lengths. |
| CudaRuntimes.BatchState.Commit | src/minillm/cuda/batch_state.cpp:48-52 | Swaps pending into committed exactly while executing. |
| CudaRuntimes.BatchState.Clear | src/minillm/cuda/batch_state.cpp:59-65 | Both errors and when each occurs; otherwise exactly that length becomes zero. |
| CudaRuntimes.CudaRuntime.Forward | src/minillm/cuda/runtime.cpp:146-254 | Success publishes lengths and pages together; a failure before the launch leaves both ledgers and the device copy as they were, down to free stack and dirty mark; one after it poisons both; malformed batches and overfull pools are refused exactly. |
| CudaRuntimes.CudaRuntime.Launch | src/minillm/cuda/runtime.cpp:174-237 | Whenever kernels are enqueued the device copy of the page table is the pending table, although it is uploaded only when dirty or when pages were journaled. |
| CudaRuntimes.CudaRuntime.UploadPageTable | src/minillm/cuda/storage.cpp:242-259 | Refuses exactly tables with another number of rows, rows that are not just long enough for the context, and page numbers out of range. |
| CudaRuntimes.CudaRuntime.AfterFailure | src/minillm/cuda/runtime.cpp:241-253 | The handler leaves both ledgers ready or both poisoned, never one of each. |
| CudaRuntimes.CudaRuntime.ClearSequence | src/minillm/cuda/runtime.cpp:295-311 | Clears a sequence in both ledgers, or refuses without touching either; the poisoning handler is never reached. |
| CudaRuntimes.CudaRuntime.LiveKvPages | src/minillm/cuda/runtime.cpp:268-272 | Reported exactly at ready points of the paged layout, as the pages the lengths call for. |
| ParallelExecutors.StepInv | src/minillm/parallel.cpp:29-48 | Every step of every thread keeps the barrier, the order of claims and who holds which claim. |
| ParallelExecutors.ReturnsComplete | src/minillm/parallel.cpp:79-183 | Over all interleavings, with an unbounded cursor: `run` returns only when no worker is inside the loop, no chunk is claimed twice, and if no work threw every index lies in exactly one claimed chunk, which is finished. |
| ParallelExecutors.NextGeneration | src/minillm/parallel.cpp:31-37 | No worker skips or repeats a generation. |
| ParallelExecutors.DispatchIsClean | src/minillm/parallel.cpp:130-140 | A run after an exception starts clean. |
| ParallelExecutors.NoDeadlock | src/minillm/parallel.cpp:29-48 | While `run` has not returned, some thread can move. |
| ParallelExecutors.RunsEnd | src/minillm/parallel.cpp:79-109 | Every step of a run in progress decreases a measure. |
| ParallelCursors.SameRun | src/minillm/parallel.cpp:85-96 | With the cursor in a machine word, a schedule whose runs are clear is feasible for both pools alike and leads to the same claims and the same threads in the same places. |
| ParallelCursors.WordReturnsComplete | src/minillm/parallel.cpp:79-183 | The theorem of the barrier for the pool with its cursor in a word, over all interleavings of clear runs. |
| ParallelCursors.ClearIsExact | src/minillm/parallel.cpp:87-95 | A run claims no more chunks than its range has, over all interleavings, if and only if none of the fetches beyond the range, one per thread, wraps around into it. |
| ParallelCursors.SmallIsClear | src/minillm/parallel.cpp:87-95 | A count and grains that fit a word together are clear. |
| ParallelCursors.HalfWordGrain | src/minillm/parallel.cpp:87-95 | An example that is not clear: three threads, one index and a grain of half the word size claim the same chunk twice. |
| MemoryPlans.MakePlan | src/minillm/cuda/storage.cpp:44-152 | There is a plan exactly when the layout in unbounded arithmetic is in range, and then it is that layout: records aligned, apart and inside their arenas, payload and padding together the arenas, and KV bytes those of the matching view. It lists exactly the three weights of the model and eleven of each layer at their tensors' sizes, only norms in single precision under half precision; it has the workspace of `WorkspaceRoom`; and its cache holds the tokens asked for, in whole pages when paged. |
| MemoryPlans.PlaceWeights | src/minillm/cuda/storage.cpp:61-92 | All weights in order, refused exactly when one of them is or the arena does not fit a word. |
| MemoryPlans.PlaceRegions | src/minillm/cuda/storage.cpp:93-143 | All workspace regions in order, refused exactly when one of them is or the arena does not fit a word. |
| MemoryPlans.Arena.Place | src/minillm/cuda/storage.cpp:70-75 | Checked products and sums refuse a record exactly when it would end beyond the word size, and otherwise place it where unbounded arithmetic does. |
| MemoryPlans.AlignBounds | src/minillm/cuda/storage.cpp:27 | Rounding up gives the next multiple of 256. |
| MemoryPlans.TiedOutput | src/minillm/cuda/storage.cpp:79-84 | A tied output weight is the embedding once more: same place, same bytes. |
| MemoryPlans.CategoriesShare | src/minillm/cuda/storage.cpp:93-102 | The categories share out the payload of the records. |
| MemoryPlans.KvExact | src/minillm/cuda/storage.cpp:145-146 | The bytes reserved for the cache are rows times width of the view handed out, for both layouts. |
| MemoryPlans.WorkspaceRoom | src/minillm/cuda/storage.cpp:103-143 | Region by region, with rows, columns and bytes written out: a row per batch token for every intermediate value, a score per head and context position, three samples, the rotation of every position, and those of half precision and of pages exactly when they are needed. |
| MemoryPlans.WeightsListed | src/minillm/cuda/storage.cpp:61-91 | The weights by name, each with its tensor's rows and columns; half width exactly for names that do not end in `_norm.weight`. |
| MemoryPlans.CapacityIff | src/minillm/cuda/storage.cpp:44-60 | The capacities accepted, for both layouts. |
| Credits.StepSound | src/engine.cpp:295-337 | Two slots that hold the same credit block hold it at the same place, both filled, with the same tokens up to its end. |
| Credits.RunSound | src/engine.cpp:295-385 | That holds after any run of admissions, snapshots, batches and releases. |
| Credits.RunExclusive | src/engine.cpp:131-133 | Without a prefix cache no block is ever held twice. |
| CpuServing.TailNotShared | src/minillm/paged_kv.cpp:59-67 | Under the engine's credits a partial tail page belongs to its sequence alone, so copy-on-write never fires. |
| CpuServing.CreditsCoverDemand | src/minillm/runtime.cpp:199-214 | Any batch within the credits of its slots passes the page preflight. |
| CpuServing.PagesWithinCredits | src/minillm/paged_kv.cpp:50-69 | Used physical pages are never more than distinct credit blocks held. |
| CpuServing.Follow | src/mini_runner.cpp:43-60 | Replaying any legal run of credit steps on the paged cache, no call fails, no page is copied, and the cache ends with exactly the histories of the run. |
| CudaServing.PagesWithinPool | src/minillm/cuda/page_table.cpp:52-56 | Exclusive pages for lengths within exclusive credits fit a pool of as many pages. |
| CudaServing.NeverOverfull | src/minillm/cuda/page_table.cpp:52-56 | A batch within the credits never asks for more pages than are free. |
| CudaServing.Follow | src/mini_cuda_runner.cpp:47-60 | Replaying any legal run without sharing on the paged GPU runtime, only the device can make a call fail, and otherwise the lengths are those of the run. |
| Decimals.DecimalInjective | src/engine.cpp:686-691 | Different numbers read differently, which is what makes generated ids fresh. |
| Requests.RequestHandle.Emit | src/engine.cpp:50-63 | Refused exactly after a terminal event and, for a token, when the buffer is full; otherwise the event is the last of queue and log. This is the function the engine's records use. |
| Requests.RequestHandle.Next | src/engine.cpp:39-48 | Delivers events once each in order of emission, or nothing when there is none. |
| Requests.AppendToken | src/engine.cpp:545-570 | A log of greedy tokens stays one when the next greedy token is appended. |
| Requests.AppendTerminal | src/engine.cpp:194-212 | It stays one when it is closed by a terminal event that agrees with its tokens. |
| Requests.LogIsPrefix | src/engine.cpp:545-577 | The tokens of such a log are a prefix of the greedy continuation of the request's own prompt, and all of it when the request ended with stop or length. |
| Requests.LogMeans | src/engine.cpp:545-577 | What a log says, in terms of the model's next token and end-of-generation tokens: each token is the greedy one; a request that ignores the end of generation never stops at it; stop comes exactly at the first such token, length after exactly max_tokens tokens; the kinds of all other endings with their status and usage. |
| Requests.ContinuationMeans | src/engine.cpp:545-577 | The continuation logs are measured against, likewise: greedy, ended early only by an end-of-generation token that is not ignored, and otherwise exactly max_tokens long. |
| Runners.Runner.Execute | tests/core_tests.cpp:538-571 | The runner as the engine may rely on it: while it is healthy and reports success, histories grow by the batch and whatever passes for an answer is the model's. |
| EngineSamples.Validate | src/engine.cpp:489-511 | Accepts exactly one in-vocabulary token for every sequence asked and nothing else; the check for sequences asked twice cannot fail. |
| EngineBatches.BatchFeeds | src/engine.cpp:427-441 | The tokens built from a plan are a contiguous continuation of every scheduled slot and leave every other slot alone. |
| EngineBatches.BatchAsks | src/engine.cpp:433-439 | A batch asks once for each sequence whose slice completes its prompt or decodes, and for no other. |
| EngineFeeds.FeedFollows | src/engine.cpp:427-476 | Any plan is a legal step within the items' credits, and afterwards every item's history is its prompt and sent tokens, with samples pending exactly where asked for. |
| EngineFeeds.BatchPlaces | src/engine.cpp:433-439 | Logits are only asked for at the ends of sequences. |
| EngineLaws.EndAccounted | src/engine.cpp:236-256 | Ending an active request keeps logs, registry, counters and tracking exact. |
| EngineState.TallyClosed | src/engine.cpp:198-206 | One more ending keeps the four counters exact: stop and length are counted as completed, cancelled as cancelled, timeout as timed out, backpressure and backend errors as failed. |
| EngineLaws.SubmitAccounted | src/engine.cpp:686-699 | Accepting a request does so. |
| EngineLaws.FinishedStays | src/engine.cpp:50-63 | A finished log is final: nothing follows the terminal event. |
| EngineLaws.EndingInOneStep | src/engine.cpp:207-211 | What clients do between the removal of the registry entry and the terminal event, they might as well do after it. |
| EngineLaws.EndBalanced | src/engine.cpp:241-246 | Releasing an item's blocks and slot keeps counts equal to occurrences and slots partitioned. |
| EngineLaws.EvictBalanced | src/engine.cpp:286-293 | Evicting an entry does so. |
| EngineLaws.AdmitBalanced | src/engine.cpp:308-330 | Admitting a request on reused and fresh blocks does so. |
| EngineLaws.CacheBalanced | src/engine.cpp:375-381 | Caching a prompt on its request's own blocks does so. |
| EngineLaws.AdmitFollows | src/engine.cpp:308-336 | An admission is a legal credit step: the reused part is block-aligned and its source slot really holds it. |
| EngineLaws.CacheFollows | src/engine.cpp:375-384 | A snapshot of a prompt is a legal credit step. |
| EngineCredits.GrantCredits | src/engine.cpp:308-326 | Fresh blocks and retained ones together give every count its holders, with no block twice in a table. |
| EngineCredits.NobodyHolds | src/engine.cpp:590-605 | With no holder left, every block is free. |
| EngineSync.SampleInStep | src/engine.cpp:545-576 | An accepted sample is the next greedy token after what was sent, and leaves the item in step. |
| EngineSync.BatchInStep | src/engine.cpp:429-441 | After a batch each item's history is its prompt as far as fed and its sent tokens. |
| EngineAdmission.ChoiceDone | src/engine.cpp:346-354 | When an admission pass ends, whoever still waits does not fit the free blocks, or no slot is left, or waits behind a request that does not fit and may not be passed. |
| EngineWork.WorkPointwise | src/engine.cpp:615-636 | The remaining work decreases if no item's work grows and one shrinks. |
| EngineSteps.WorkDone | src/engine.cpp:519-577 | After a batch nobody has more left to do, and whoever was scheduled has less. |
| EngineSteps.SampledMeans | src/engine.cpp:545-576 | What a sample does, event by event and with its usage: no room in the client's buffer ends the request with backpressure and sends no token; a token sent ends it with stop if it is an end-of-generation token that is not ignored, else with length if it is the last one allowed. |
| Engines.Engine.constructor | src/engine.cpp:113-157 | A validated configuration starts with every invariant of the engine in place. |
| Engines.Engine.Terminal | src/engine.cpp:194-212 | The first terminal event closes the log and frees the id; of the four counters exactly the one of its reason grows; later ones change nothing. |
| Engines.Engine.Finish | src/engine.cpp:236-256 | An active request ends with its slot and blocks returned and one terminal event carrying exactly its usage; if the runner proves unusable, the request is left as it was. |
| Engines.Engine.Expired | src/engine.cpp:262-264 | A request once cancelled or overdue stays so. |
| Engines.Engine.ExpireWaiting | src/engine.cpp:267-275 | Waiting requests end only if they have expired, with the reason that applies, and none that had expired before is left. |
| Engines.Engine.ExpireActive | src/engine.cpp:276-282 | The same for active requests; afterwards the runner holds for everyone left exactly prompt and sent tokens. |
| Engines.Engine.ExpireRequests | src/engine.cpp:266-284 | The whole sweep, for queued and active requests together, without adding work. |
| Engines.Engine.Evict | src/engine.cpp:286-293 | Exactly this entry leaves the cache with its slot cleared and its blocks released. |
| Engines.Engine.EvictOldest | src/engine.cpp:302-304 | The entry evicted for room is the least recently used one, and gives back at most its own blocks; slots of active requests are not touched. |
| Engines.Engine.FindPrefix | src/engine.cpp:299-301 | The longest aligned prefix of the request's namespace within the limit; no entry looks older than before, and nothing else about the cache changes. |
| Engines.Engine.MakeRoom | src/engine.cpp:302-307 | Evicts nothing if the request fits with what it can reuse; otherwise ends with room or an empty cache, and not one eviction too late: with the entry evicted last, and even with its blocks free, no match would have left room. Entries left were used after it. What is found is the longest match of what is left. |
| Engines.Engine.Occupy | src/engine.cpp:308-336 | Admitted exactly if the fresh blocks are free; booked before the runner is called, so a fault there loses nothing. |
| Engines.Engine.Admit | src/engine.cpp:295-337 | Refused only while others are active, and only if all its blocks exceed what is free with the cache empty; an admitted request reuses exactly the longest match the cache offers and is in step with the runner. |
| Engines.Engine.SortWaiting | src/engine.cpp:340-345 | A permutation of the queue by priority plus whole aging periods waited, highest first, then by submission. |
| Engines.Engine.AdmitWaiting | src/engine.cpp:339-355 | Admits in that order, never past a request that waited too long; whoever is left does not fit, or lacks a slot, or is behind such a request; nobody is left waiting while nothing is active. |
| Engines.Engine.IdleHasRoom | src/engine.cpp:632-634 | With nothing active and nothing cached every accepted request fits, so the error for an idle pool is unreachable. |
| Engines.Engine.MakeCacheRoom | src/engine.cpp:371-374 | Ends with a free cache slot and room for the tokens within the limit; exactly the oldest entries are gone, and with the last of them there would have been no slot or no room. |
| Engines.Engine.CachePrompt | src/engine.cpp:357-385 | Afterwards every prefix of the prompt that is a whole number of blocks and within the cache's tokens is cached in its namespace, or there are no cache entries; active requests keep their slots as they were. |
| Engines.Engine.PlanBatch | src/engine.cpp:415-426 | The plan for the active items, each listed with its own priority, order and what is left of its prompt: within the budget and the chunk, one slice each, never empty while anything is active, so "scheduler made no progress" is unreachable; under the mixed policy nobody who decodes is left out and some pending prompt advances; under the other no one decodes while a prompt is unfinished. |
| Engines.Engine.ActiveBounded | src/config.cpp:20-21 | Active requests never outnumber the batch tokens. |
| Engines.Engine.BuildBatch | src/engine.cpp:427-441 | The nested loops build the specified batch. |
| Engines.Engine.RunBatch | src/engine.cpp:472-484 | After a successful call every scheduled item is in step, with honest samples pending exactly where asked for. |
| Engines.Engine.ApplySlice | src/engine.cpp:519-528 | Books the slice; a prompt completed by it is cached unless its request has expired. |
| Engines.Engine.EmitSample | src/engine.cpp:548-570 | Counts the token and sends it exactly if the client's buffer has room; a fault of the runner in between leaves it counted and not sent. |
| Engines.Engine.ApplySample | src/engine.cpp:530-577 | What one sample does to item and log: dropped for an expired request, otherwise sent, and followed by stop, length or backpressure exactly when it has to be. |
| Engines.Engine.Iteration | src/engine.cpp:392-580 | One batch from plan to samples, with clients acting between its critical sections: everyone is in step again and the remaining work of the active requests has decreased, or the runner has failed. |
| Engines.Engine.DrainIncoming | src/engine.cpp:582-588 | Moves the arrivals behind the waiting requests in order. |
| Engines.Engine.Pass | src/engine.cpp:615-636 | One pass of the worker: every request that had expired before it has ended, the work that was in the engine has decreased, logs only grow; the two errors for lack of progress cannot occur. |
| Engines.Engine.WorkUntilIdle | src/engine.cpp:615-636 | Without new submissions the engine drains: every accepted request gets its terminal event and the registry empties, unless the runner fails. |
| Engines.Engine.TerminateAll | src/engine.cpp:590-609 | With the check off it always completes; then every request has its terminal event, every block, slot and cache slot is free, and accepted requests equal counted endings. Requests still open end with exactly the given reason. |
| Engines.Engine.Serve | src/engine.cpp:615-636 | Any number of passes with clients acting around and within them. |
| Engines.Engine.Run | src/engine.cpp:611-646 | A whole life of the worker, with faults at any call of the runner and also inside shutdown: in the end every accepted request has exactly one terminal event, everything is free, and no log ever shrank. A request ends as cancelled with 503 only if the engine was stopped, and with a backend error only if it failed. |
| Engines.Engine.EveryLog | src/engine.cpp:530-577 | At every moment, for every request, whatever others do: its tokens are a prefix of the greedy continuation of its own prompt, all of it after stop or length; with `ignore_eos` it never stops and a length ending has exactly max_tokens tokens, otherwise stop comes exactly at the first end-of-generation token; every ending has a reason, a status and a usage that belong together. |
| Engines.Engine.Submit | src/engine.cpp:654-707 | Accepted exactly if every limit holds, written out, with a fresh order and an unused id; or refused for the first reason that applies, with its status and nothing else changed. |
| Engines.Engine.FreshId | src/engine.cpp:686-691 | The loop ends and the generated id is not in flight. |
| Engines.Engine.Cancel | src/engine.cpp:709-718 | Flags exactly the request in flight under this id, if there is one. |
| Engines.Engine.TakeEvent | src/engine.cpp:39-48 | Clients receive each event once, in order; the engine's invariants do not notice. |
| Engines.Engine.Interfere | src/engine.cpp:654-720 | Any number of submissions, cancellations, receptions and stops, in any order, keeps every invariant. |
| EnginesOnCpu.ReplayOnCpu | src/mini_runner.cpp:43-60 | Whatever the engine does while its runner is healthy, replayed on the CPU runtime, never fails and never copies a page; the cache holds the histories the engine counts on, with used pages at most used credits. |
| EnginesOnCpu.EngineBatchAnswered | src/mini_runner.cpp:62-82 | For every batch the engine may plan, the CPU runtime's outputs are the answers the engine takes them for. |
| EnginesOnCpu.OutputsPass | src/mini_runner.cpp:62-82 | They pass the engine's check of samples: one for each question, no other, and within the vocabulary. |
| EnginesOnGpu.ReplayOnGpu | src/mini_cuda_runner.cpp:47-80 | The same on the paged GPU runtime without prefix cache: the page pool never overflows, and only the device can make a call fail. |
| EnginesOnGpu.NothingShared | src/config.cpp:58-60 | Without prefix cache entries no step of the engine shares anything. |

## Left out

- Numeric kernels, sampling among logits and half-precision conversion are uninterpreted; so is attention as a function
  of the keys and values it reads. The check for non-finite logits is one of the runner's faults.
- CUDA and cuBLAS calls, streams and buffers: points that may fail. Kernels read the page table at one such point. The
  contiguous GPU layout has no page ledger and is covered for lengths only.
- `live_sequences` and the other diagnostics of the GPU runtime, except assigned pages.
- GGUF files, tokenizer, text prompts and the error for prompts over 256 KiB, llama.cpp, HTTP, SSE, command line,
  benchmarks and the Python analyzers.
- Telemetry, profiling clocks and published statistics. Counters of endings, acceptances and rejections are kept.
- `bad_alloc` from standard containers, and the failure paths of constructors and destructors: joining threads,
  capability checks of the engine's constructor (they are its precondition), the initial publication.
- Text of token events: `Utf8Buffer` is proved by itself, and the engine's events carry tokens and usage.
- Request handles inside the engine are values in a map from orders. `Requests.RequestHandle` is the object; both use
  the functions `Emitted` and `Received`. Blocking and time limits of `next` are not modelled.
- Interleaving: clients act before and after each critical section of a pass that depends on them (after the sweep,
  after admission, after the batch has run, and between samples); cancellations and deadlines arrive at every check.
  Each other worker step is atomic. For an ending, which has two critical sections, `EngineLaws.EndingInOneStep` shows
  that this loses nothing.
- Condition variables of the engine and of the thread pool: a wait is a step that becomes possible with its predicate,
  so a lost wakeup cannot be seen.
- Word-size wrap of the prefix clock, of request orders, of generations of the thread pool and of the engine's token
  sums. Block-pool epochs and counts, the pool's cursor and the memory plan are modelled with their word sizes.
- The flat GPU page table is kept as its rows, and a trie node is named by namespace and path, so moves of nodes in
  memory are not seen.
- Device memory budget and free memory.
- PagedKVCache.PagedKV.Key: says nothing about the bits of a position appended and never stored.
- PagedKVCache.PagedKV.Value: likewise.
- MemoryPlans.MakePlan: does not state which of several failing checks is reported.
- Runners.Runner.Execute: a runner that loses its state or fails is not constrained at all.
- Engines.Engine.Expired: deadlines are arbitrary, and waiting times are arbitrary integers taken once per sort.
- PageLedger.AppendConsistent: ownership only; page taken, contents, lengths and errors are in `PagedKV.Append`.
- PageLedger.ClearConsistent: ownership only; contents and lengths are in `PagedKV.Clear`.
- PageLedger.ShareConsistent: ownership only; pages, lengths and errors are in `PagedKV.SharePrefix`.
- Preflight.CoveredStep: one append of the loop; the sum, the comparison and the whole loop are in `PagesNeeded`,
  `Forward` and `AppendAll` of `CpuRuntime.Runtime`.
- Requests.RequestHandle.Next: a wait that ends without an event is the case of an empty queue.
