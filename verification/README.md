# Paged KV serving and tensor runtime: a verified model

This project models the parts of the repository that share memory, and proves that sharing is never observable.

* **MiniPrefix KV memory** (`KvPool` to `KvManager`). Reference-counted pages are shared by sequences, by an LRU prefix
  cache stored as a trie, and by one open append transaction. `FlatCache` is the simple form of the cache, a map from whole
  token histories to pages with one LRU order; the trie with its linked list, publication hint and recycled nodes refines it.
  `KvSpec` is the manager as a state machine on values, `KvInvariant` states reference conservation and the reservation
  bounds, `KvOperations` and `KvAppend` prove that every step keeps them, `KvEviction` and `LruOrder` say which cache keys
  go and in which order the others stay, and class `KVManager` refines the state machine.
* **Content** (`CausalModel`, `KvContent`, `KvWrites`, `KvLayout`, `KvRunner`). A model is an abstract function from the
  rows of the past and the next token to a row and to logits. The invariant says that every committed position of every
  sequence and every slot of every cached page holds the row of exactly its own token history. The runner computes in real
  buffers and reads the past only through the block table.
* **Engine and scheduler** (`Scheduler`, `Decoding`, `EngineSpec`, `EngineSteps`, `EngineService`, `ServingEngine`).
  Requests are waiting, active or ended. Batching, chunked prefill, prefix reuse, eviction and other requests never change
  anybody's tokens, and every step admits and serves whoever the batch limit, the pool and the budget allow.
* **Static memory planning** (`GraphOrder`, `SlotAllocation`, `MemoryPlanning`, `GraphDataflow`, `PlannedExecution`,
  `AsyncReuse`). Execution in one planned buffer solves the dataflow equations of the graph, also when slots are reused
  asynchronously.
* **Index algebra and kernels** (`TensorIndexing`, `Broadcasting`, `ReductionIndexing`, `MatrixProduct`), over exact numbers.
* **Serving cache, attention, speculative decoding** (`ServingStage`, `ServingDemand`, `ServingCache`, `OnlineSoftmax`,
  `SpeculativeDecoding`).

Run `dafny verify dfyconfig.toml` to check everything.

Conventions. Exceptions are the `Thrown` case of `Reply`, `None`, or a boolean result. A member named `...Ok` or
`...Content` is a preservation lemma for the operation it is named after. State-changing methods state their whole new state
by a function of the old one; the properties are proved about that function. `reliable` says that the backend never fails;
every safety property is proved without it. Where the code and its documentation could be read differently, the code is
followed: LRU eviction may take an ancestor before its descendants, a reusable prefix may end inside a page, and the bound
on promised pages is kept only while some reservation exists.

## Model

| member | source | states |
|---|---|---|
| `ServingEngine.ServeAll` | miniprefix/src/engine/engine.cpp:56-125 | End to end, for every batch size, token budget, chunk size, pool and cache size and every list of requests on a reliable backend: exactly the valid requests with new ids are accepted; each ends in Error with no token exactly when prompt plus answer without its last token exceed the slots of the pool; otherwise every delivered token is a first largest logit of the abstract model after the prompt and the tokens before it, the answer stops at the first end-of-sequence token or at the limit, with the matching reason; the queue a caller polls holds exactly these events |
| `ServingEngine.RunCommands` | miniprefix/src/engine/engine.cpp:19-138 | After any sequence of submit, step, cancel, poll and shutdown calls, also with a failing backend: what was polled and what is still queued are together, in order, every event since the start; no accepted request is forgotten or changed; the event log only grew, no id has an event after its terminal one, every accepted id is in exactly one of waiting, active and ended, its tokens are greedy choices and a front part of standalone decoding, and Eos or Length means all of it |
| `ServingEngine.Drain` | miniprefix/src/engine/engine.cpp:56-125 | Stepping a non-idle engine terminates with nobody waiting or active: every step strictly lowers unprefilled prompt tokens plus outputs still to come |
| `ServingEngine.Engine.Step` | miniprefix/src/engine/engine.cpp:56-125 | What is left waiting is a tail of the queue; everybody popped from it that can fit the pool joins the batch, and admission stops only when nobody waits, the batch is full, or the first in line does not fit beside the worst cases of the batch; a front part of the decode-first order of that batch goes on (more prefilled, more output, or ended), everybody else is as before, and on a reliable backend that is everybody unless the whole token budget was spent. The step keeps the invariant, strictly lowers the remaining work, returns true exactly when somebody waited or was active, and refuses on a failed engine |
| `ServingEngine.Engine.Submit` | miniprefix/src/engine/engine.cpp:19-27 | Accepted if and only if the engine has not failed, the id is nonempty and was never used, the prompt is nonempty with tokens below the vocabulary size, at least one new token is asked for, prompt and answer fit the context and the end token is a token; then it is last in the queue and nothing else changes, otherwise nothing changes |
| `ServingEngine.Engine.Admit` | miniprefix/src/engine/engine.cpp:61-76 | First come, first served: what is left waiting is a tail of the queue, exactly the popped jobs that can fit the pool are appended to the active ones, the batch limit holds, and admission stops only when nobody waits, the batch is full or the first in line does not fit beside the worst cases of the active jobs |
| `ServingEngine.Engine.AdmitHead` | miniprefix/src/engine/engine.cpp:62-75 | The first in line has to wait if and only if it fits the pool but not beside the sum of all reservations; it is rejected if and only if it can never fit; waiting is possible only while somebody is active |
| `EngineService.ActivePromised` | miniprefix/src/engine/engine.cpp:61-68 | All reservations together are the worst cases of the active jobs, so the first in line waits because of them and of nobody else |
| `ServingEngine.Engine.RestorePrefix` | miniprefix/src/engine/engine.cpp:44-55 | Neither call can fail for an admitted job; it becomes resident with exactly the longest cached prefix of its prompt, and the remaining work changes by exactly that job |
| `ServingEngine.Engine.Feed` | miniprefix/src/engine/engine.cpp:85-109 | An append of an admitted job within its input never fails on a reliable backend; after a delivered token the whole history is cached page by page; the work goes down and the step counters account for the input |
| `ServingEngine.Engine.Deliver` | miniprefix/src/engine/engine.cpp:99-104 | Exactly one event, with the token and with Eos or Length exactly when standalone decoding ends there; the promise about standalone decoding is kept |
| `ServingEngine.Engine.End` | miniprefix/src/engine/engine.cpp:28-38 | One terminal event after the lease and the reservation are given back; if the backend fails nothing changes |
| `ServingEngine.Engine.Advance` | miniprefix/src/engine/engine.cpp:82-109 | One scheduled request takes at least one token of the budget and then has more prefilled, more output or has ended; on a reliable backend the budget taken equals the tokens fed |
| `ServingEngine.Engine.RunPlan` | miniprefix/src/engine/engine.cpp:77-111 | Serves a front part of the decode-first order, within the budget; on a reliable backend it stops early only when the whole budget has been spent |
| `EngineService.ServiceOk` | miniprefix/src/engine/engine.cpp:77-111 | Everybody in the served front part of the order has gone on, everybody else is unchanged and still active; a fully served order is the whole batch |
| `ServingEngine.Engine.RemoveFinished` | miniprefix/src/engine/engine.cpp:39-43 | Keeps exactly the unfinished active jobs in order, the invariant and the remaining work |
| `ServingEngine.Engine.Fail` | miniprefix/src/engine/engine.cpp:112-123 | After a backend failure the engine is poisoned, nobody is left waiting or active, and the log grew by exactly one error event per unfinished request, active ones first, in order |
| `ServingEngine.Engine.Cancel` | miniprefix/src/engine/engine.cpp:127-131 | Refused if and only if the id is not live; otherwise exactly one Cancelled event, and the id is live nowhere |
| `ServingEngine.Engine.Shutdown` | miniprefix/src/engine/engine.cpp:132-138 | On success nobody is left, the runner holds no sequence and every page is free; a failing backend leaves a valid engine |
| `ServingEngine.Engine.PollEvents` | miniprefix/src/engine/engine.cpp:126 | Returns exactly the events after those polled before, which is all of the log not yet handed out, and leaves requests and jobs alone |
| `EngineSpec.LedgerUpdate` | miniprefix/src/engine/engine.cpp:28-38 | Changing one live job with at most one event of its own keeps: ids unique, no event after a terminal one, every request live or ended but not both, every promise about its tokens |
| `EngineSpec.LedgerSubmit` | miniprefix/src/engine/engine.cpp:19-27 | A new id keeps all promises about all requests |
| `EngineSpec.RunnerUpdate` | miniprefix/src/engine/engine.cpp:44-109 | Changing what the runner holds for one job keeps, for all others: reservation equals worst-case pages, stored history equals prefilled prompt plus outputs but the last |
| `EngineSteps.HeadReady` | miniprefix/src/engine/engine.cpp:61-68 | The first in line can always be asked for: its reservation request is valid, and without active jobs nothing is held or promised |
| `EngineSteps.InputReady` | miniprefix/src/engine/engine.cpp:85-90 | Every input fed to an active job stays within its reservation and extends the stored history to the front part of prompt plus output it should be |
| `EngineSteps.DeliverOk` | miniprefix/src/engine/engine.cpp:99-104 | A greedy token after the stored history either completes the standalone result with the right reason or keeps the job valid with less work |
| `EngineSteps.EveryoneServed` | miniprefix/src/engine/engine.cpp:28-38 | With no job left, no cancellation and a reliable backend, every accepted request was answered with all its standalone tokens or was too big for the pool |
| `EngineSteps.EveryoneAnswered` | miniprefix/src/engine/engine.cpp:61-109 | The same without the reference decoder: Error exactly when prompt plus answer exceed the slots of the pool, otherwise greedy tokens up to the end token or the limit, with the matching reason |
| `EngineSteps.Somewhere` | miniprefix/src/engine/engine.cpp:19-43 | Each accepted id is in exactly one of waiting, active and ended |
| `EngineSteps.RemoveOk` | miniprefix/src/engine/engine.cpp:39-43 | Forgetting finished jobs keeps every promise and the remaining work |
| `Decoding.MaxElement` | miniprefix/src/engine/engine.cpp:99 | The loop finds the first index of a largest logit, and that index is unique |
| `Decoding.ProgressStep` | miniprefix/src/engine/engine.cpp:99-104 | One more greedy token either completes the standalone result exactly at Eos or at the length limit, or continues it |
| `Decoding.RestCharacterized` | miniprefix/src/engine/engine.cpp:99-104 | The standalone result, without recursion: every token is the greedy choice after its prefix, and it ends at the first end-of-sequence token or at the limit, whichever comes first |
| `Decoding.StandaloneMeans` | miniprefix/src/engine/engine.cpp:99-104 | Every front part of the standalone result consists of first largest logits after what precedes them; a whole one is nonempty and short of the limit only at the end token |
| `CausalModel.HistoryMeans` | miniprefix/src/backend/cpu/llama_runner.cpp:75-104 | Each position is encoded from exactly the rows before it, in order, and its own token; the logits from the rows before the last position and its token |
| `Scheduler.AdmissionCount` | miniprefix/src/scheduler/scheduler.cpp:10-13 | Never more than wait or than fit; zero if and only if nobody waits or the batch is full; fewer than wait only if the batch gets full |
| `Scheduler.OrderProperties` | miniprefix/src/scheduler/scheduler.cpp:17-22 | The order visits every request exactly once under its own phase, and every decode before any prefill |
| `Scheduler.SchedulePlan.TakeInput` | miniprefix/src/scheduler/scheduler.cpp:25-32 | The budget is conserved; a decode gets one token, a prefill as much as chunk, rest and budget allow and no less; refused exactly for a prefill without a rest |
| `KvRunner.Runner.Append` | miniprefix/src/backend/cpu/llama_runner.cpp:60-104 | All or nothing: on success the history grew by the tokens, within context, vocabulary and reservation, and the logits are those of the abstract model on the whole new history, although the past is read only through the block table; on an exception no history changed; on a reliable backend it succeeds exactly when the manager opens it, and an admitted append always does; the cache loses only its oldest keys, only as many as were needed for room and none when enough pages were free, and the others keep order and pages |
| `KvRunner.Runner.WriteRow` | miniprefix/src/backend/cpu/llama_runner.cpp:74-93 | Reads the past through the table, stores the row of its own history and disturbs no committed position of any sequence or cached page |
| `KvRunner.Runner.WriteRows` | miniprefix/src/backend/cpu/llama_runner.cpp:76-93 | After the loop every new position holds the row of exactly its causal history |
| `KvRunner.Runner.CopySharedTail` | miniprefix/src/backend/cpu/llama_runner.cpp:61-68 | The tail copy makes the new table hold the committed history in both buffers and changes nobody else's content |
| `KvRunner.Runner.ReadPast` | miniprefix/src/backend/cpu/llama_runner.cpp:75-92 | What is gathered position by position is what the table addresses |
| `KvRunner.PastIsHistory` | miniprefix/src/backend/cpu/llama_runner.cpp:85-92 | The rows read for a new position are the rows of its causal past, so encoding and logits depend on the token history only |
| `KvRunner.WriteNext` | miniprefix/src/backend/cpu/llama_runner.cpp:81-83 | Writing the next row keeps every committed claim and extends the history the table holds by one token |
| `KvRunner.Runner.ReserveRequest` | miniprefix/src/backend/cpu/llama_runner.cpp:49 | Refused exactly for a known id or an invalid length, Impossible exactly above the pool size, Wait exactly when the promises (each reservation, or the pages of an unreserved history) plus the new pages exceed the pool; nothing but the reservation changes |
| `KvRunner.Runner.ReusePrefix` | miniprefix/src/backend/cpu/llama_runner.cpp:55-57 | Adopts exactly the longest cached prefix, never the whole prompt; never refused to an empty sequence within its reservation; the leases stay and the matched path becomes the newest part of the order |
| `KvRunner.Runner.ForkSequence` | miniprefix/src/backend/cpu/llama_runner.cpp:54 | The target takes over the source's whole history, no other history changes; it goes through exactly when the target is another, empty sequence and the pages of the history fit its reservation or the unreserved remainder |
| `KvRunner.Runner.CachePrefix` | miniprefix/src/backend/cpu/llama_runner.cpp:58 | Afterwards every page of the history, up to the cache capacity, can be found in the cache as the newest part of the order; of the other keys exactly the newest that fit stay; no history changes |
| `KvRunner.Runner.Release` | miniprefix/src/backend/cpu/llama_runner.cpp:105-106 | Gives back the sequence and its reservation and nothing else; a failing backend changes nothing |
| `KvRunner.Runner.Clear` | miniprefix/src/backend/cpu/llama_runner.cpp:107 | Afterwards no sequence, no reservation and every page free |
| `KvRunner.ForkAllowed` | miniprefix/src/kv/kv_manager.cpp:58-69 | The source's test on its table equals a test on the length of the history: tables have exactly the pages their tokens need |
| `KvRunner.Runner.ClearPrefixCache` | miniprefix/src/backend/cpu/llama_runner.cpp:59 | The cache is empty, every history and every committed row stays |
| `KvRunner.Runner.ResetSequence` | miniprefix/src/kv/kv_manager.cpp:186 | The sequence is empty, its reservation and every other history and row stay |
| `KvRunner.AdmittedOpens` | miniprefix/src/kv/kv_manager.cpp:103-146 | Admission safety as the runner uses it: an append within its reservation always opens |
| `KvRunner.OpensWithin` | miniprefix/src/kv/kv_manager.cpp:103-116 | An append that opens is nonempty and stays within context, vocabulary and reservation |
| `KvRunner.AdmittedReuses` | miniprefix/src/kv/kv_manager.cpp:74-88 | Reuse never exceeds a reservation that covers the prompt |
| `KvRunner.PublishedPages` | miniprefix/src/kv/kv_manager.cpp:89-92 | After publishing, the first pages of the sequence are cache entries |
| `KvAppend.WithinBoundsNeverStarves` | miniprefix/src/kv/kv_manager.cpp:103-127 | While reservations exist, an append within its bound always finds its pages, even with a full cache and a shared tail that needs one page more for its copy |
| `KvAppend.AppendRefusedIffOutOfBounds` | miniprefix/src/kv/kv_manager.cpp:107-116 | While reservations exist a valid append gets a capacity error if and only if its pages exceed its reservation or, without one, the pool beside everything promised to others |
| `KvAppend.AppendRefusedIffExhausted` | miniprefix/src/kv/kv_manager.cpp:117-126 | Without reservations it gets one if and only if the distinct pages of the tables plus the pages needed exceed the pool: cache leases never stand in the way |
| `KvAppend.MakeRoomOk` | miniprefix/src/kv/kv_manager.cpp:117-124 | Evictions keep every count explained, cancel the tail copy exactly when the tail has one holder left, and end with enough room or an empty cache |
| `KvEviction.MakeRoomLeast` | miniprefix/src/kv/kv_manager.cpp:117-126 | The loop drops exactly the least number of oldest keys after which the free pages cover the pages needed plus the copy still needed, or all keys when no number does; with enough room it drops none |
| `KvEviction.AppendEvicts` | miniprefix/src/kv/kv_manager.cpp:103-146 | Preparing an append leaves a tail of the LRU order with its pages; every smaller number of evictions would have been too few, and an opened append had enough |
| `KvEviction.ReuseAccepted` | miniprefix/src/kv/kv_manager.cpp:74-88 | Exactly when reuse goes through: a valid prompt, an empty sequence, the pages of the match within its reservation and, while anything is reserved, within the pool beside everything promised |
| `KvEviction.ReuseRefreshes` | miniprefix/src/kv/kv_manager.cpp:74-88 | Reuse keeps every lease; the order is the other keys as before, then the matched path |
| `KvEviction.PublicationOrder` | miniprefix/src/kv/kv_manager.cpp:89-92 | After publishing, the order is the newest other keys that still fit, then the pages of the sequence; other keys keep their pages |
| `KvAppend.PrepareAppendOk` | miniprefix/src/kv/kv_manager.cpp:128-146 | Opening an append keeps the invariant, also when it is refused after evictions: counts equal holders, free list equals unheld pages once each, writable pages have one holder |
| `KvAppend.CommitOk` | miniprefix/src/kv/kv_manager.cpp:170-178 | Commit keeps the invariant; the source of the tail copy loses exactly the transaction's lease |
| `KvAppend.RollbackOk` | miniprefix/src/kv/kv_manager.cpp:179-185 | Rollback keeps the invariant |
| `KvAppend.RollbackUndoesOpen` | miniprefix/src/kv/kv_manager.cpp:138-145 | Opening and rolling back restores every table, count, reservation, cache entry and the free list as a set |
| `KvOperations.ReserveRequestOk` | miniprefix/src/kv/kv_manager.cpp:42-52 | A reservation keeps the invariant: promises never exceed the pool while anything is reserved |
| `KvOperations.ForkOk` | miniprefix/src/kv/kv_manager.cpp:58-73 | Forking keeps conservation and the promises, or refuses |
| `KvOperations.ReusePrefixOk` | miniprefix/src/kv/kv_manager.cpp:74-88 | Reuse, also when it is undone by a capacity error, keeps conservation and the promises |
| `KvOperations.CachePrefixOk` | miniprefix/src/kv/kv_manager.cpp:89-92 | Publishing keeps conservation |
| `KvOperations.ReleaseOk` | miniprefix/src/kv/kv_manager.cpp:187-192 | Releasing keeps conservation and never raises the promises |
| `KvOperations.ResetOk` | miniprefix/src/kv/kv_manager.cpp:186 | Resetting keeps conservation |
| `KvOperations.CreateOk` | miniprefix/src/kv/kv_manager.cpp:54-57 | A new empty sequence keeps the invariant |
| `KvOperations.ClearedOk` | miniprefix/src/kv/kv_manager.cpp:193-199 | Clearing leaves every count zero and every page free |
| `KvManager.CommittedBlocks` | miniprefix/src/kv/kv_manager.cpp:36-41 | The two loops compute the sum over all requests of reservation, or of table length when unreserved |
| `KvManager.TokensValid` | miniprefix/src/kv/kv_manager.cpp:33-35 | Accepts exactly tokens below the vocabulary size |
| `KvManager.KVManager.ReserveRequest` | miniprefix/src/kv/kv_manager.cpp:42-52 | The object refines the value-level step, keeping the trie, the pool and the tables consistent |
| `KvManager.KVManager.ForkSequence` | miniprefix/src/kv/kv_manager.cpp:58-73 | Refines the value-level fork, with all its refusals |
| `KvManager.KVManager.ReusePrefix` | miniprefix/src/kv/kv_manager.cpp:74-88 | Refines reuse over the flat cache, although it walks the trie; the two late capacity errors give the pages back |
| `KvManager.KVManager.CachePrefix` | miniprefix/src/kv/kv_manager.cpp:89-92 | Refines publishing over the flat cache |
| `KvManager.KVManager.EvictUntil` | miniprefix/src/kv/kv_manager.cpp:117-124 | The loop stops with the stock and the copy decision of the specification, which is the least number of evictions that makes room |
| `KvManager.KVManager.PrepareAppend` | miniprefix/src/kv/kv_manager.cpp:128-146 | Refines opening an append, with every refusal in the source's order |
| `KvManager.KVManager.OpenAppend` | miniprefix/src/kv/kv_manager.cpp:126-145 | Takes the new pages first and the replacement of the tail after them; the old tail stays held by the transaction |
| `KvManager.KVManager.TailCopied` | miniprefix/src/kv/kv_manager.cpp:160-169 | Only marks the copy as done |
| `KvManager.KVManager.CommitAppend` | miniprefix/src/kv/kv_manager.cpp:170-178 | Refused without the tail copy, otherwise the committed history grows and the source is released |
| `KvManager.KVManager.RollbackAppend` | miniprefix/src/kv/kv_manager.cpp:179-185 | The table of before is back and the new pages are given back |
| `KvManager.KVManager.ResetSequence` | miniprefix/src/kv/kv_manager.cpp:186 | The sequence is empty, its pages given back |
| `KvManager.KVManager.ReleaseSequence` | miniprefix/src/kv/kv_manager.cpp:187-192 | Sequence, pages and reservation are gone; refused for an unknown id or during an append |
| `KvManager.KVManager.ClearPrefixCache` | miniprefix/src/kv/kv_manager.cpp:93-99 | The trie is empty and the invariant holds; refused during an append |
| `KvManager.KVManager.Clear` | miniprefix/src/kv/kv_manager.cpp:193-199 | Every page is back, no sequence, reservation or cache entry is left; refused during an append |
| `KvContent.ForkContent` | miniprefix/src/kv/kv_manager.cpp:58-73 | Sharing by fork keeps every content claim: each position holds the row of its own causal history |
| `KvContent.AdoptedTableHolds` | miniprefix/src/kv/prefix_cache.cpp:111-143 | The pages found for a prompt hold exactly its matched part, also when the last one was cached for a longer or different continuation |
| `KvContent.ReusePrefixContent` | miniprefix/src/kv/kv_manager.cpp:74-88 | Reuse keeps every content claim |
| `KvContent.CachePrefixContent` | miniprefix/src/kv/kv_manager.cpp:89-92 | Every leased cache page holds the rows of exactly its own token history |
| `KvContent.ResetContent` | miniprefix/src/kv/kv_manager.cpp:186 | Resetting keeps every content claim |
| `KvContent.ClearCacheContent` | miniprefix/src/kv/kv_manager.cpp:93-99 | Dropping every cache lease keeps every content claim of the sequences and of an open append |
| `KvContent.PrepareAppendContent` | miniprefix/src/kv/kv_manager.cpp:128-146 | Opening, with evictions, keeps every content claim |
| `KvContent.CommitContent` | miniprefix/src/kv/kv_manager.cpp:170-178 | Once every new position is written, committing keeps every content claim |
| `KvContent.RollbackContent` | miniprefix/src/kv/kv_manager.cpp:179-185 | Rolling back, at any point, keeps every content claim |
| `KvWrites.SoleAtWritable` | miniprefix/src/kv/kv_manager.cpp:135-146 | Every page an append may write has that table as its only holder, in that one place |
| `KvWrites.WriteKeepsContent` | miniprefix/src/backend/cpu/llama_runner.cpp:81-83 | Writing such a page changes nothing any sequence or cached page claims |
| `KvWrites.CopyKeepsContent` | miniprefix/src/kv/kv_manager.cpp:160-169 | After the copy the replaced tail holds the committed slots and no claim is lost |
| `KvWrites.RowExtendsTable` | miniprefix/src/backend/cpu/llama_runner.cpp:81-83 | One row at the next position makes the table hold one more token |
| `KvWrites.ReadBack` | miniprefix/src/backend/cpu/llama_runner.cpp:85-92 | Reading through a table that holds a history returns the rows of that history |
| `KvLayout.OffsetInBounds` | miniprefix/src/kv/paged_kv.cpp:53-56 | Every slot of every layer lies inside the buffer |
| `KvLayout.OffsetInjective` | miniprefix/src/kv/paged_kv.cpp:53-56 | Different page, layer, slot or channel, different element |
| `KvLayout.InRegion` | miniprefix/src/kv/kv_manager.cpp:164-167 | A buffer element lies in a copied row region exactly when it belongs to that page and layer and to a valid slot |
| `KvLayout.KvPayload.CopyTail` | miniprefix/src/kv/kv_manager.cpp:154-169 | The strided copy moves the valid slots of every layer and changes no other element |
| `KvLayout.KvPayload.WriteRow` | miniprefix/src/backend/cpu/llama_runner.cpp:81-83 | All layers of one position are replaced, every other position reads the same |
| `KvLayout.KvPayload.ReadRow` | miniprefix/src/backend/cpu/llama_runner.cpp:86-92 | Reads the row of one position back, layer by layer |
| `KvPool.KvBlockPool.constructor` | miniprefix/src/kv/paged_kv.cpp:19-21 | A new pool has every page free and no lease |
| `KvPool.KvBlockPool.AllocatePage` | miniprefix/src/kv/paged_kv.cpp:31-34 | Takes the top of the free stack with one lease; refuses exactly on an empty one |
| `KvPool.KvBlockPool.RetainPage` | miniprefix/src/kv/paged_kv.cpp:35 | One lease more, free list unchanged |
| `KvPool.KvBlockPool.UnrefPage` | miniprefix/src/kv/paged_kv.cpp:36-38 | One lease less, and the page is free with its last one |
| `KvPool.KvBlockPool.Reserve` | miniprefix/src/kv/paged_kv.cpp:39-48 | Extends a table from the free stack in its order; refuses, unchanged, exactly when there are too few pages |
| `KvPool.KvBlockPool.Rollback` | miniprefix/src/kv/paged_kv.cpp:49-52 | Drops the leases of the new pages, last first |
| `KvPool.AllocateCounts` | miniprefix/src/kv/paged_kv.cpp:31-34 | Count equals holders and free list equals unheld pages, also after an allocation |
| `KvPool.RetainCounts` | miniprefix/src/kv/paged_kv.cpp:35 | The same after a retain of a held page |
| `KvPool.UnrefCounts` | miniprefix/src/kv/paged_kv.cpp:36-38 | The same after a release; a held page always has a lease to drop |
| `KvPool.AllocateManyCounts` | miniprefix/src/kv/paged_kv.cpp:39-48 | The same after a run of allocations, whose pages are distinct and unheld |
| `KvPool.UnrefAllCounts` | miniprefix/src/kv/paged_kv.cpp:49-51 | The same after dropping a whole table |
| `KvPool.FreePlusDistinct` | miniprefix/src/kv/paged_kv.cpp:29-38 | Free pages and distinct held pages add up to the pool |
| `PrefixMatch.NeighboursSuffice` | miniprefix/src/kv/prefix_cache.cpp:122-133 | The better of the two lexicographic neighbours matches as much as any key that extends the path by at most one page, ties broken as in the exhaustive search; with no match there is none |
| `PrefixMatch.LookupIsMaximum` | miniprefix/src/kv/prefix_cache.cpp:111-143 | No root path made of leased pages shares more with the prompt minus its last token than the lookup returns |
| `PrefixMatch.LookupReached` | miniprefix/src/kv/prefix_cache.cpp:111-143 | That maximum is reached by the last page of the returned path, itself reachable through leased pages |
| `PrefixMatch.LookupPath` | miniprefix/src/kv/prefix_cache.cpp:118-137 | Page by page the returned path is leased and agrees with the prompt, and it has exactly the pages the length needs |
| `PrefixTrie.FindNeighbours` | miniprefix/src/kv/prefix_cache.cpp:122-132 | The lower bound and its predecessor |
| `PrefixTrie.LevelOutcome` | miniprefix/src/kv/prefix_cache.cpp:118-137 | What the neighbours of one trie level decide is what the exhaustive lookup over whole histories decides |
| `PrefixTrie.ExactPrefixCache.SearchLevel` | miniprefix/src/kv/prefix_cache.cpp:118-134 | One iteration takes the step of the exhaustive lookup |
| `PrefixTrie.ExactPrefixCache.Reuse` | miniprefix/src/kv/prefix_cache.cpp:111-143 | The trie walk returns the pages and length of the exhaustive lookup, leases them for the caller and makes them the newest, in path order |
| `FlatCache.EvictOk` | miniprefix/tests/partial_prefix_reference.h:42-47 | Evicting the oldest key keeps every count explained and shortens the order by one |
| `FlatCache.DropLeaseOk` | miniprefix/src/kv/prefix_cache.cpp:70-73 | Giving up any one lease keeps every count explained |
| `FlatCache.PublishPageOk` | miniprefix/src/kv/prefix_cache.cpp:176-192 | Publishing a page keeps capacity and counts and leaves the page leased |
| `FlatCache.PublishPagesOk` | miniprefix/src/kv/prefix_cache.cpp:144-198 | After publishing, exactly the published keys are the newest leases, in path order; none was lost to the evictions they caused, capacity and counts hold |
| `LruOrder.PublishPagesOrder` | miniprefix/src/kv/prefix_cache.cpp:151-196 | Publishing displaces exactly the oldest other keys that no longer fit and puts the path last, in order |
| `LruOrder.PublishPagesEntries` | miniprefix/src/kv/prefix_cache.cpp:176-192 | Other keys keep their pages; a published key has the page of the table, or the one it had |
| `FlatCache.TouchAllOk` | miniprefix/src/kv/prefix_cache.cpp:134 | Refreshing a path changes the order only |
| `LruOrder.TouchAllOrder` | miniprefix/src/kv/prefix_cache.cpp:134 | A refreshed path is the newest part of the order, in path order, and all other keys keep theirs |
| `TrieIndex.TouchIndexOk` | miniprefix/src/kv/prefix_cache.cpp:49-59 | Relinking the doubly linked list is moving a key to the end of the order |
| `TrieIndex.GrowOk` | miniprefix/src/kv/prefix_cache.cpp:160-174 | A grown or recycled node keeps the tree, the hint and everything visible |
| `TrieIndex.LeaseOk` | miniprefix/src/kv/prefix_cache.cpp:177-191 | Leasing a node adds exactly its whole history as the newest key |
| `TrieIndex.UnleaseOk` | miniprefix/src/kv/prefix_cache.cpp:70-73 | Dropping a node's lease removes exactly its key |
| `TrieIndex.DetachOk` | miniprefix/src/kv/prefix_cache.cpp:60-69 | Erasing an empty leaf keeps the tree and everything visible |
| `TrieIndex.HintDepth` | miniprefix/src/kv/prefix_cache.cpp:64 | Hint entry i lies at depth i + 1, so the depth finds a node in the hint |
| `TrieIndex.DetachHint` | miniprefix/src/kv/prefix_cache.cpp:64-65 | The cut hint is still a root chain of live nodes |
| `TrieWalk.NextFound` | miniprefix/src/kv/prefix_cache.cpp:75-83 | The first edge ahead leads to the live node with the least name after the current one |
| `TrieWalk.NextNone` | miniprefix/src/kv/prefix_cache.cpp:77-82 | Without an edge ahead the whole subtree is exhausted |
| `TrieWalk.OnlyRoot` | miniprefix/src/kv/prefix_cache.cpp:104-110 | A tree without leases and dead leaves is only the root |
| `PrefixTrie.ExactPrefixCache.Prune` | miniprefix/src/kv/prefix_cache.cpp:60-69 | Erases dead leaves upward, never the protected node; nothing visible changes and the hint only loses its end |
| `PrefixTrie.ExactPrefixCache.DropNode` | miniprefix/src/kv/prefix_cache.cpp:70-73 | Removes one key and its lease and leaves no dead leaf but the protected node |
| `PrefixTrie.ExactPrefixCache.EvictOne` | miniprefix/src/kv/prefix_cache.cpp:85-88 | Refines dropping the oldest key; false exactly on an empty cache |
| `PrefixTrie.ExactPrefixCache.Touch` | miniprefix/src/kv/prefix_cache.cpp:59 | Refines moving a key to the end of the order |
| `PrefixTrie.ExactPrefixCache.FindOrGrow` | miniprefix/src/kv/prefix_cache.cpp:160-174 | The child with that name, found, recycled or new; nothing visible changes |
| `PrefixTrie.ExactPrefixCache.SelectNode` | miniprefix/src/kv/prefix_cache.cpp:154-174 | With the hint or without, the same child |
| `PrefixTrie.ExactPrefixCache.LeaseSelected` | miniprefix/src/kv/prefix_cache.cpp:177-192 | Refines publishing one new page, including its eviction; the selected node survives |
| `PrefixTrie.ExactPrefixCache.PublishOne` | miniprefix/src/kv/prefix_cache.cpp:151-195 | Refines publishing one page; the path and the hint end at its node |
| `PrefixTrie.ExactPrefixCache.Publish` | miniprefix/src/kv/prefix_cache.cpp:144-198 | The hinted, node-recycling publish equals plain find-or-insert over the flat cache, and the hint is exactly the published root path of live nodes |
| `PrefixTrie.KeepPath` | miniprefix/src/kv/prefix_cache.cpp:193-194 | No node of the path being published is lost to its own evictions |
| `PrefixTrie.ExactPrefixCache.Successor` | miniprefix/src/kv/prefix_cache.cpp:75-83 | The live node with the least name after the given one, or none |
| `PrefixTrie.ExactPrefixCache.Clear` | miniprefix/src/kv/prefix_cache.cpp:104-110 | Although leaves are pruned during the walk, every lease is given up, only the root is left, and hint and spare are empty |
| `GraphOrder.TopologicalOrder` | src/graph/graph.cpp:118-270 | Every node once, after its dependencies, always the smallest ready one; a cycle is reported if and only if well-formed tables have cyclic dependencies |
| `GraphOrder.Validate` | src/graph/graph.cpp:119-249 | The scans with registration and production marks accept exactly tables in which ids are in range and registered once, every kind has its metadata and every intermediate value exactly one producer that lists it |
| `GraphOrder.OrderUnique` | src/graph/graph.cpp:251-265 | Taking the smallest ready node leaves no choice: a graph has at most one order, so planner and executor agree on it |
| `GraphOrder.OrderExcludesCycle` | src/graph/graph.cpp:258-269 | An order leaves no closed walk along dependencies |
| `GraphOrder.StuckHasCycle` | src/graph/graph.cpp:266-268 | Nodes that never become ready contain a cycle |
| `GraphOrder.Consumers` | src/graph/graph.cpp:186-243 | Each node's consumers, once each |
| `GraphOrder.Settle` | src/graph/graph.cpp:262-264 | Counting down keeps indegrees equal to open dependencies and the heap equal to the ready nodes |
| `SlotAllocation.ChooseSlot` | src/runtime/memory_plan.cpp:80-91 | The first available slot among those that grow least; none exactly when all are in use |
| `SlotAllocation.AssignSlots` | src/runtime/memory_plan.cpp:77-101 | Overlapping intervals never share a slot, there are exactly as many slots as the peak of live intervals, each as large as the largest interval in it, and their capacities together never exceed one buffer per interval |
| `SlotAllocation.LiveFits` | src/runtime/memory_plan.cpp:77-101 | At every step live intervals sit in different slots |
| `SlotAllocation.PeakGrows` | src/runtime/memory_plan.cpp:92-94 | A slot is opened only when one more interval is live than there were slots |
| `SlotAllocation.SortIntervals` | src/runtime/memory_plan.cpp:65-75 | By first step, then value; a permutation |
| `MemoryPlanning.NodeSteps` | src/runtime/memory_plan.cpp:30-33 | The inverse of the order |
| `MemoryPlanning.Lifetimes` | src/runtime/memory_plan.cpp:35-58 | A lifetime starts at the producer and ends exactly at the last consumer, or after the last step for a graph output |
| `MemoryPlanning.Releases` | src/runtime/memory_plan.cpp:59-63 | Each step releases exactly the values whose last step it is |
| `MemoryPlanning.AlignUp` | src/runtime/memory_plan.cpp:13-18 | The least multiple of the alignment at or above the size |
| `MemoryPlanning.SlotOffsets` | src/runtime/memory_plan.cpp:103-112 | Aligned, in-bounds, pairwise disjoint slot ranges, packed without gaps beyond the alignment |
| `MemoryPlanning.BuildPlan` | src/runtime/memory_plan.cpp:22-118 | Planned if and only if the graph is well formed and acyclic; values alive together get disjoint, aligned, in-bounds byte ranges, the slot count is the peak, every slot is filled by some value, and the slot bytes never exceed the naive total |
| `PlannedExecution.NewContext` | src/runtime/execution_context.cpp:21-50 | Refused exactly for a plan made for another graph; otherwise constants are bound and everything else is absent |
| `PlannedExecution.ExecutionContext.BindInput` | src/runtime/execution_context.cpp:52-59 | Accepted exactly for inputs of the right size |
| `PlannedExecution.ExecutionContext.Value` | src/runtime/execution_context.cpp:105-115 | The stored content; refused exactly for an unknown id or an absent value |
| `PlannedExecution.ExecutionContext.ClearIntermediates` | src/runtime/execution_context.cpp:126-133 | Drops exactly the intermediates |
| `PlannedExecution.ExecutionContext.ReleaseAfterStep` | src/runtime/execution_context.cpp:135-145 | Drops exactly the values released by the step |
| `PlannedExecution.ExecutionContext.Execute` | src/runtime/execution_context.cpp:70-87 | The kernel gets the tensors of its own inputs, in order, and its outputs are stored without touching a value still needed |
| `PlannedExecution.InputNeeded` | src/runtime/memory_plan.cpp:47-55 | Every input of a step was given or produced before, and has not been released |
| `PlannedExecution.OutputStored` | src/runtime/execution_context.cpp:81-86 | Storing an output leaves every value still needed in place |
| `PlannedExecution.StepDone` | src/runtime/executor.cpp:16-17 | After the releases of a step the next one finds everything it needs |
| `GraphDataflow.NaiveComputes` | src/backend/cpu/operator_registry.cpp:16 | Execution with one tensor per value solves the dataflow equations: given tensors stay, and output i of every node is result i of its kernel on the tensors of its inputs in order |
| `GraphDataflow.DataflowUnique` | src/runtime/executor.cpp:11-18 | The equations leave no choice: two solutions with the same given tensors agree on every value |
| `PlannedExecution.RunGraph` | src/runtime/executor.cpp:5-19 | Execution in the shared buffer ends with every graph output equal to that of an environment in which inputs and constants have their given tensors and every node's outputs are its kernel applied to its inputs in order; refused exactly when a registered input is unbound |
| `PlannedExecution.PlannedOrder` | src/runtime/executor.cpp:11 | The order the executor computes again is the planned one |
| `AsyncReuse.WaitCovers` | src/backend/cuda/execution_plan.cpp:241-249 | Waiting for the last step of the slot's previous occupant covers every earlier step that wrote or read what is overwritten, and is always possible |
| `AsyncReuse.RunAsync` | src/backend/cuda/execution_plan.cpp:235-256 | At every submission all conflicting earlier steps have been waited for, a wait is made only where the slot had an earlier occupant, never for more than was submitted; at the end everything has been waited for |
| `SpeculativeDecoding.GreedyDecode` | examples/speculative_decoding/greedy_baseline.py:15-30 | Every token is the target's choice after the prompt and the tokens before it, only the last may be the end token, nothing follows a prompt that ends with it, and the result is short of the budget only because of it; one target call per token |
| `SpeculativeDecoding.GreedyMeans` | examples/speculative_decoding/greedy_baseline.py:15-30 | The greedy reference without recursion: choices, stop at the end token, budget |
| `SpeculativeDecoding.Propose` | examples/speculative_decoding/draft_proposer.py:16-27 | The draft's own greedy tokens, at most k, stopping at its first end token and only there |
| `SpeculativeDecoding.Verify` | examples/speculative_decoding/greedy_verifier.py:27-56 | Whatever the draft, every emitted token is the target's choice after those before it and together they are how its greedy decoding continues; the accepted ones are the matching front of the draft, with the exact conditions for a mismatch and for a bonus token; the counts balance |
| `SpeculativeDecoding.SpeculativeDecode` | examples/speculative_decoding/greedy_verifier.py:89-114 | For every target, draft, prompt, budget and block size it terminates with exactly the tokens of plain greedy decoding, spelled out as for GreedyDecode, and as many target calls; the trace lists the rounds one after the other, each proposing the draft's own tokens after what was committed, at most k and no more than remain; proposed = accepted + mismatches + discarded and generated = accepted + mismatches + bonus |
| `OnlineSoftmax.Attention` | examples/serving_scheduler/native/paged_kv_cache.h:158-196 | For every page size, length and page placement, and any positive exp with exp(a + b) = exp(a) exp(b): there are scores, each times root the sum of query times the key elements at their page addresses, such that every output channel times the sum of exp(score) is the sum of exp(score) times the value element; refused exactly for an invalid query |
| `OnlineSoftmax.AttentionMeans` | examples/serving_scheduler/native/paged_kv_cache.h:158-196 | Gathering and softmax is the weighted mean: output times the sum of exp(score) is the sum of exp(score) times value, with keys and values at their page addresses |
| `OnlineSoftmax.GatheredIsQuotient` | src/ops/basic_ops.cpp:263-308 | Normalizing every weight first gives the same as dividing once at the end |
| `OnlineSoftmax.Rescaled` | examples/serving_scheduler/native/paged_kv_cache.h:179-182 | Changing the reference maximum is one correction factor on denominator and numerators |
| `OnlineSoftmax.PagedElement` | examples/serving_scheduler/native/paged_kv_cache.h:239-243 | The block-local address is the element of the logical position |
| `ServingCache.PagedKVCache.PrepareAppend` | examples/serving_scheduler/native/paged_kv_cache.h:91-146 | All or nothing; after success every table and surviving snapshot reads as before, lengths are the targets', pages of new positions have one reference, no page leaks; the outcome is the one foreseen from the live tables alone, so a batch is exhausted exactly when the distinct pages they need exceed the pool; snapshots go in key order, and none goes exactly when the pages held with all snapshots suffice |
| `ServingDemand.PagesInUse` | examples/serving_scheduler/native/paged_kv_cache.h:106-115 | Tables never hold more distinct pages than there are; with nothing free and no snapshot they hold all of them |
| `ServingDemand.TracksMove` | examples/serving_scheduler/native/paged_kv_cache.h:124-128 | Moving one table off a shared tail adds a distinct page exactly when another table holds the tail; snapshots do not count |
| `ServingDemand.RefusalStays` | examples/serving_scheduler/native/paged_kv_cache.h:117-137 | A refused target refuses the batch |
| `ServingDemand.ForeseenMeans` | examples/serving_scheduler/native/paged_kv_cache.h:113-133 | Done only if every target has a valid id and a length from 1 to 4096 that does not shrink its sequence; rejected because of the first that does not, exhausted because of the first that needs more pages than there are |
| `ServingStage.CopyStaged` | examples/serving_scheduler/native/paged_kv_cache.h:124-128 | A table reads the same from its private tail, nobody else notices, even when the copy goes to a page an eviction just freed |
| `ServingStage.EvictStaged` | examples/serving_scheduler/native/paged_kv_cache.h:100-104 | Evicting a snapshot keeps every table, every other snapshot and every count |
| `ServingStage.PushStaged` | examples/serving_scheduler/native/paged_kv_cache.h:131-133 | A new page is nobody else's |
| `ServingCache.PrivateTail` | examples/serving_scheduler/native/paged_kv_cache.h:123-130 | Afterwards the tail has one holder; fails exactly when another table shares it and the tables hold every page |
| `ServingCache.Unshare` | examples/serving_scheduler/native/paged_kv_cache.h:121-122 | Evicts only while nothing is free and the tail is shared; otherwise nothing changes |
| `ServingCache.FindRoom` | examples/serving_scheduler/native/paged_kv_cache.h:104-109 | A page is free afterwards unless nothing is left to evict; the last eviction was needed |
| `ServingCache.GrowTable` | examples/serving_scheduler/native/paged_kv_cache.h:131-133 | The table reaches its size; fails exactly when the tables would need more pages than there are |
| `ServingCache.GrowTarget` | examples/serving_scheduler/native/paged_kv_cache.h:118-132 | One longer target: succeeds exactly when the forecast of distinct pages fits the pool, sets the length, and evicts only snapshots in key order |
| `ServingCache.PagedKVCache.ReusePrefix` | examples/serving_scheduler/native/paged_kv_cache.h:50-65 | Adopts the longest snapshot that is a prefix within the limit; refused exactly for a known id |
| `ServingCache.PagedKVCache.PublishPrefix` | examples/serving_scheduler/native/paged_kv_cache.h:67-82 | Afterwards there are snapshots at every full page, before the last token and at the end; new ones are front parts of the tokens on the table's own pages, existing ones stay |
| `ServingCache.SnapshotEnds` | examples/serving_scheduler/native/paged_kv_cache.h:70-73 | The lengths at which snapshots are taken |
| `ServingCache.PagedKVCache.Release` | examples/serving_scheduler/native/paged_kv_cache.h:214-220 | The table is gone, its pages given back, snapshots untouched; refused exactly for an unknown id |
| `TensorIndexing.OffsetSplits` | src/core/tensor_iterator.cpp:56-63 | A leading and a trailing part of the dimensions see the quotient and the remainder of the index |
| `TensorIndexing.OffsetStep` | src/core/tensor_iterator.cpp:56-63 | Advancing one coordinate advances the offset by the stride of that dimension and by nothing else |
| `TensorIndexing.RemoveUnits` | src/core/tensor_iterator.cpp:70-78 | Dropping extents of one keeps every offset of every operand |
| `TensorIndexing.Merged` | src/core/tensor_iterator.cpp:101-125 | Two dimensions that advance linearly across their boundary are one |
| `TensorIndexing.MergeLinear` | src/core/tensor_iterator.cpp:88-127 | Merging terminates, keeps every offset of every operand and leaves no pair to merge |
| `TensorIndexing.Coalesce` | src/core/tensor_iterator.cpp:66-128 | The iteration space addresses the same element for every operand and logical index, and cannot be merged further |
| `TensorIndexing.OperandOffset` | src/core/tensor_iterator.cpp:49-64 | The loop of remainders and quotients gives the offset of the coordinates; refused exactly out of range |
| `Broadcasting.BroadcastShape` | src/core/tensor_iterator.cpp:154-176 | A shape exists if and only if the operands are compatible under NumPy broadcasting, and it combines all of them |
| `Broadcasting.BroadcastUnique` | src/core/tensor_iterator.cpp:154-176 | Rank of the widest operand, and in each dimension the one extent other than one: at most one shape is the broadcast |
| `Broadcasting.ContiguousStrides` | src/core/tensor_layout.cpp:145-160 | Each stride is the number of elements behind its dimension |
| `Broadcasting.RowMajorContiguous` | src/core/tensor_layout.cpp:145-160 | Those strides pass the contiguity scan for every nonempty shape |
| `Broadcasting.BroadcastOffset` | src/core/tensor_iterator.cpp:178-193 | Zero strides address the element of the projected coordinates |
| `Broadcasting.ProjectedStep` | src/core/tensor_iterator.cpp:178-193 | The first element is at offset 0, and advancing a coordinate advances by the operand's own stride, or not at all where the operand is repeated |
| `Broadcasting.ProjectedInSpan` | src/core/tensor_layout.cpp:162-179 | No projected element leaves the operand's storage span |
| `Broadcasting.ContiguousOffset` | src/core/tensor_iterator.cpp:137-151 | A row-major operand's offset is the logical index |
| `Broadcasting.IsContiguous` | src/core/tensor_iterator.cpp:137-151 | The scan accepts exactly row-major strides, extents of one ignored |
| `Broadcasting.MakeIterator` | src/core/tensor_iterator.cpp:9-22 | Built exactly for operands that broadcast together, over exactly their broadcast shape; for every operand and index the iteration offset is that of the projected element, and flagged are exactly the operands that are row-major in that shape, whose offset is the index |
| `Broadcasting.RunBinary` | include/tinyinfer/ops/kernel_runner.h:71-101 | Refused, with nothing written, exactly when the output is not a row-major tensor of the broadcast shape; otherwise the contiguous and the strided path write the operation on the two broadcast elements, inside both storages |
| `ReductionIndexing.MarkAxes` | src/core/reduction_iterator.cpp:13-31 | Accepted exactly for nonempty, in-range, distinct axes; marks exactly them, negative ones from the end |
| `ReductionIndexing.NewReduction` | src/core/reduction_iterator.cpp:9-58 | Refused exactly for invalid axes; mask, sorted axes, output shape with or without kept dimensions and reduction shape are those of the axes; the contiguous flag is set exactly for trailing axes of a row-major input, and then every pair has offset group * size + index |
| `ReductionIndexing.OutputSize` | src/core/reduction_iterator.cpp:33-40 | With or without kept dimensions there are as many outputs as kept elements |
| `ReductionIndexing.SortedIsMarked` | src/core/reduction_iterator.cpp:31 | Sorting the axes lists the marked dimensions in order |
| `ReductionIndexing.PartsMultiply` | src/core/reduction_iterator.cpp:33-47 | Outputs times reduced elements is the number of inputs |
| `ReductionIndexing.CombineInRange` | src/core/reduction_iterator.cpp:66-70 | Every pair names an input element |
| `ReductionIndexing.CombineCoordinate` | src/core/reduction_iterator.cpp:72-105 | The element of a pair has the coordinates of the output index in the kept dimensions and those of the reduction index in the reduced ones |
| `ReductionIndexing.ExtractCombine` | src/core/reduction_iterator.cpp:66-70 | Different pairs, different elements |
| `ReductionIndexing.CombineExtract` | src/core/reduction_iterator.cpp:66-70 | Every input element is some pair's |
| `ReductionIndexing.PairIsElement` | src/core/reduction_iterator.cpp:60-70 | The pair's offset is the storage offset of its logical index, for any strides |
| `ReductionIndexing.ContiguousReduction` | src/core/reduction_iterator.cpp:50-57 | For trailing axes of a row-major input the offset is group * size + index |
| `ReductionIndexing.PairOffsetLoops` | src/core/reduction_iterator.cpp:72-105 | The two loops compute the storage offset of the pair's own element; refused exactly out of range |
| `MatrixProduct.Strided` | src/backend/cpu/matmul_kernel.cpp:211-235 | Every cell is the sum of the products of the stored elements its row and column address, for any strides |
| `MatrixProduct.DotMeans` | src/backend/cpu/matmul_kernel.cpp:191-209 | The reference sum is the running sum of the products of the stored elements at row * rowStride + k * columnStride and k * rowStride + column * columnStride |
| `MatrixProduct.Blocked` | src/backend/cpu/matmul_kernel.cpp:237-286 | The same for every block size and tail |
| `MatrixProduct.Pack` | src/backend/cpu/matmul_kernel.cpp:172-189 | A row-major copy of the operand or of its transpose, with that shape and those strides |
| `MatrixProduct.PackedFused` | src/backend/cpu/matmul_kernel.cpp:290-354 | The epilogue is applied exactly once to each complete sum, also with no products at all |
| `MatrixProduct.ApplyEpilogue` | src/backend/cpu/gemm_epilogue.cpp:63-79 | Every cell finished once |
| `MatrixProduct.BindEpilogue` | src/backend/cpu/gemm_epilogue.cpp:7-45 | Accepted exactly when the bias broadcasts to the output |
| `MatrixProduct.DirectBias` | src/backend/cpu/gemm_epilogue.cpp:40-43 | The two direct strides address the broadcast element |
| `MatrixProduct.BoundCovers` | src/backend/cpu/gemm_epilogue.cpp:28-45 | A bound bias has a stored element for every cell of the output |
| `MatrixProduct.FinishIsGeneric` | src/backend/cpu/gemm_epilogue.cpp:56-61 | Finishing a sum in place reads the bias inside its storage and equals the generic epilogue at that index |
| `MatrixProduct.GenericEpilogue` | src/ops/gemm.cpp:16-46 | The loop over the broadcast iterator: refused, with nothing written, exactly when the bias does not broadcast to the output; otherwise every element is its epilogue, reading inside the bias storage |
| `MatrixProduct.GenericGemm` | src/ops/gemm.cpp:61-87 | Plain product and generic epilogue: accepted exactly for a bias that fits; every cell is alpha times its sum plus beta times the broadcast bias element, and with relu that or zero, whichever is larger |
| `MatrixProduct.GemmUnique` | src/ops/gemm.cpp:61-87 | Only one output is such a result, so the generic and the fused computation write the same array |
| `MatrixProduct.GemmMeans` | src/ops/gemm.cpp:16-46 | A result cell in terms of stored elements of operands and bias: alpha times the sum plus beta times the bias; with relu that when it is nonnegative and 0 otherwise |
| `MatrixProduct.FusedGemm` | src/backend/cpu/matmul_kernel.cpp:290-354 | Pack, multiply in blocks, finish in place: accepts the biases the generic form accepts and every cell is the same finished sum |

## Left out

- Host allocation failures, cost timers, hit, miss, peak and live counters, and error texts: measurement and messages.
- KvAppend.RollbackUndoesOpen: the free list is restored as a set, because the code restores it in another order.
- KvOperations.ClearedOk: the order of the free list after clearing is not stated.
- PrefixTrie.ExactPrefixCache.Publish: nodes are addresses in maps held by the object rather than heap objects; a recycled node is an empty, unreachable address; the recycled entry of the ordered lookup map, the per-page lease counters and `key_tokens` are not modelled, and the lookup entry is added after the eviction instead of before it.
- KvManager.KVManager.CommitAppend: the transaction object is the field `pending`; using a finished transaction and rolling back in its destructor are not separate operations.
- Invalid configurations of pools, managers, caches, schedulers and engines: preconditions of the constructors instead of exceptions; the alignment is any positive number.
- KvRunner.Runner.Append: the forward pass is an abstract causal function of the past rows and the token; all layers of a position are written together; non-finite logits are one of the ways a backend may fail.
- ServingEngine.Engine.Step: the engine is the only user of its runner; the text of a failed cleanup and the check of the logits' arity are not modelled.
- Floating-point rounding, NaN, signed zero and infinities: arithmetic is over reals, and exp is any positive function with the addition law.
- MemoryPlanning.BuildPlan: overflow of `size_t` is not modelled; sizes are unbounded.
- GraphOrder.Validate: names, tensor specifications beyond the size in bytes, and operator schemas are not part of the graph tables.
- PlannedExecution.RunGraph: kernels are functions from input tensors to complete output tensors; unsupported operators and changing the graph after construction are not modelled.
- AsyncReuse.RunAsync: one output per node, as that code takes it; an operation is a submission and a completion, without streams, events and staging buffers.
- MatrixProduct.PackedFused: SIMD lanes are the scalar loop; which cases are specialized or fused is not modelled, the branches are proved equal instead.
- MatrixProduct.GenericGemm: transposing an operand is swapping its strides beforehand; the check that the transposition flags are 0 or 1 is left out.
- Broadcasting.RunBinary: the unary runner, the same with one operand, reshape and transpose of layouts, and data type checks are left out.
- ServingCache.PagedKVCache.PrepareAppend: `write` and `clear` of that cache, statistics and the physical layout of its blocks are not modelled beyond the address used by attention.
- CUDA and Metal kernels, model loading, graph passes, the worker protocol, Python schedulers, benchmarks and diagnostics: foreign calls, I/O, or only easy claims.
