# Relay-OPD training runtime: a Dafny model

This project models the parts of the `relay-opd` training runtime whose correctness depends on
bookkeeping across many steps, and proves what they promise. `dafny verify dfyconfig.toml` checks it.

* **Activation offloading** (`WindowMap`, `OffloadModel`, `OffloadProof`, `OffloadTheorems`, `DedupKeys`,
  `OffloadHandler`, `SyncOffloadHandler`). The asynchronous double-buffering handler is a class over its
  dictionaries and counters, and a value-level step function over the same state. A ledger records what
  a client pushed and has not popped. For every number of layers and groups with
  `1 <= groups <= layers`, and every run over any number of forward and backward passes, the handler
  answers exactly like the synchronous one, and as configured keeps at most two groups on the device.
* **Weight transfer** (`Streams`, `WeightChunks`, `MergeSoundness`, `BucketPacking`, `BucketTransfer`, `TransferPlan`, `NcclEngine`,
  `NcclBroadcast`, `NcclProgress`, `Chains`, `NixlAgent`, `NixlChain`, `NixlProof`, `NixlTheorems`, `NixlTopology`). Splitting, packing
  into two swapped buffers, transmitting, unpacking and merging give the weights back. The NIXL chain is a
  transition system over any number of ranks with mailboxes, notifications and remote reads that copy
  cell by cell; NCCL is one sender and any number of receivers with broadcast threads. Both are safe in
  every interleaving, never deadlock, always end, and deliver the weights.
* **Replay buffer and trajectories** (`ReplayProtocol`, `ReplayBuffer`, `Decimals`, `SessionKeys`,
  `SessionSelection`). Workers, queue, polling thread and trainer as a transition system with stale
  snapshots; the buffer as a class; row keys as strings, printed and parsed.
* **Layout transformations** (`PipelineShards`, `LayerNumbering`, `IntMath`, `Shapes`, `QkvLayout`,
  `DataProtoDispatch`, `MoeExperts`, `MoeSplit`). Each is proved to be undone by its inverse.

`Outcomes` holds the result types: `Crash` stands for a failed assertion, a missing key or a raised error.

## What the proofs found

Where a promise fails, the exact condition under which it holds is proved as an if-and-only-if, next to an input
that fails.

* The deduplication key of the offload handler adds the storage offset, in elements, to the storage pointer, in
  bytes. Moving a group out and back restores it exactly when equal keys mean equal flattened contents
  (`DedupIsExact`). Tensors that start inside disjoint storages never share a key (`KeysApart`), so the condition
  is one on tensors with a common start in one storage (`DedupByStart`), and for contiguous tensors just that they
  are equally long (`DedupByCount`). A transpose comes back as the original matrix (`TransposeIsCorrupted`); a
  prefix slice makes the reload raise (`PrefixRaises`); and so does an empty slice at the very end of a storage
  that another one follows, the one case that starts outside its storage (`EmptyTailRaises`).
* A weight of zero bytes produces no chunk and never arrives: the transfer is the identity exactly when no
  weight is empty (`RoundTripExact`).
* With a single rollout worker the slice `metadata[-1 + 1:]` is the whole list, and the length check of the
  process group builder fails: the topology is accepted exactly from two rollout workers on
  (`ChainExactlyFromTwo`, `SingleRolloutRejected`).
* The pipeline shard search finds a strategy for three or more ranks exactly when
  `ceil(L / p) * (p - 2) <= L - 2`; otherwise it indexes an empty list, as for five layers on four ranks,
  although its own check only asks for `p <= L` (`StrategyExists`, `EnoughLayersMayStillFail`).
* A state dict without layers shifts the numbers of all later ones by one: the merger inverts the
  converter's numbering exactly when no earlier state dict is empty (`RenumberInverts`).
* Sampling by batch size, which the method's documentation offers, looks for entries whose step is missing. In
  every run every entry has one, so such a call returns at once and empty-handed (`BatchSizeSelectsNothing`).
* Waiting for a notification forgets whom it was asked for: it answers for the requested agent exactly if that one
  is already queued or comes last in the first poll that brings anything (`AnswersForFirstSpeaker`,
  `SecondSenderIsConfused`). In the chain it is harmless, because a rank is notified by its successor only
  (`NotifiedBySuccessor`).
* Splitting a merged expert state dict restores it exactly when it held no stacked entry of its own, also
  not in the dense layers before the first expert layer (`SplitRestores`).

## Assumptions

* Autograd calls the offload handler layer by layer: pushes during the forward pass, and each tag popped once
  in its own group's backward phase (`Ordered`). This is all the synchronous handler needs; the asynchronous one
  also needs equal storage keys of a group to mean equal flattened contents (`Legal`).
* Iteration orders of dictionaries and addresses given by the allocator are arbitrary parameters.
* Weight names are distinct and the bucket size is positive, as the packing assertions demand.
* Messages between two agents arrive in order. Notify keys are fresh: the model counts them where the
  program draws random identifiers. Data moves cell by cell in any order, and a read or broadcast completes
  only when every cell has moved. A broadcast may or may not store cells on the way: safety is proved with such
  storage, progress without.
* Prompt ids are distinct, and a prompt id is never a row key. `PromptIsNoRow` says when that holds for the
  printed strings; `ReplayProtocol` then uses structured keys. An agent loop may raise while its siblings go on.
* The transfer queue lists its entries atomically, and only rows of steps that the trainer is done with are
  removed.

## Model

| member | source | states |
|---|---|---|
| `WindowMap.BuildWindowMap` | relay-opd/verl/utils/activation_offload.py:248-257 | the constructor's loop computes, for every group i, `(L/G)*(i+1) - 1 + min(i+1, L mod G)` |
| `WindowMap.WindowGap` | relay-opd/verl/utils/activation_offload.py:248-257 | consecutive windows are floor(L/G) apart, or one more |
| `WindowMap.WindowIncreasing` | relay-opd/verl/utils/activation_offload.py:248-257 | windows are strictly increasing for every `1 <= G <= L` |
| `WindowMap.WindowLast` | relay-opd/verl/utils/activation_offload.py:248-257 | the last window closes at the last layer |
| `WindowMap.WindowAhead` | relay-opd/verl/utils/activation_offload.py:248-257 | a group is complete when its window closes, and so is the next one when `G < L` |
| `OffloadProof.ScanWorks` | relay-opd/verl/utils/activation_offload.py:302-311 | the offload scan, in any dictionary order, moves exactly the group's entries and its table holds a copy of some tensor for each key |
| `OffloadProof.FirstTensorWins` | relay-opd/verl/utils/activation_offload.py:307-309 | of the tensors that share a key, the first one in the dictionary order is copied |
| `OffloadProof.DedupIsExact` | relay-opd/verl/utils/activation_offload.py:35-38 | offloading and reloading a group restores every tensor if and only if equal keys mean equal contents |
| `DedupKeys.KeysApart` | relay-opd/verl/utils/activation_offload.py:35-38 | tensors that start inside disjoint storages never share a key, although bytes and elements are added |
| `DedupKeys.FaithfulInside` | relay-opd/verl/utils/activation_offload.py:35-38 | keys can be unfaithful only among tensors with the same start in one storage |
| `DedupKeys.DedupByStart` | relay-opd/verl/utils/activation_offload.py:298-371 | offloading and reloading restores a group if and only if tensors with a common start have common contents |
| `DedupKeys.DedupByCount` | relay-opd/verl/utils/activation_offload.py:298-371 | for contiguous tensors, if and only if tensors with a common start are equally long |
| `DedupKeys.TransposeIsCorrupted` | relay-opd/verl/utils/activation_offload.py:307-309 | a transpose comes back with the contents of the original matrix |
| `DedupKeys.PrefixRaises` | relay-opd/verl/utils/activation_offload.py:370-370 | with a prefix slice in the group the reload raises, whichever tensor comes first |
| `DedupKeys.EmptyTailRaises` | relay-opd/verl/utils/activation_offload.py:370-370 | with an empty slice at the end of a storage and a tensor right behind it the reload raises |
| `OffloadProof.ReleasedFacts` | relay-opd/verl/utils/activation_offload.py:319-345 | how many windows have closed at each layer, from none at the first to all at the last |
| `OffloadProof.PushStep` | relay-opd/verl/utils/activation_offload.py:263-283 | a push succeeds, returns the next tag and keeps the handler's invariant |
| `OffloadProof.PopStep` | relay-opd/verl/utils/activation_offload.py:285-296 | a pop finds a tensor, never an offloaded tuple, with the pushed contents |
| `OffloadProof.ForwardStep` | relay-opd/verl/utils/activation_offload.py:319-352 | a forward commit fails no lookup or assertion and keeps the invariant |
| `OffloadProof.BackwardStep` | relay-opd/verl/utils/activation_offload.py:354-395 | a backward commit reloads the right group and keeps the invariant |
| `OffloadProof.StepSafe` | relay-opd/verl/utils/activation_offload.py:263-395 | every legal call succeeds, answers what the ledger holds and keeps the invariant |
| `OffloadProof.RunSafe` | relay-opd/verl/utils/activation_offload.py:263-395 | the same over every legal run |
| `OffloadTheorems.SyncRunSafe` | relay-opd/verl/utils/activation_offload.py:137-218 | in every run that respects the order of calls, whatever the tensors, the synchronous handler succeeds and returns what was pushed |
| `OffloadTheorems.AsyncRefinesSync` | relay-opd/verl/utils/activation_offload.py:221-395 | over any number of passes the asynchronous handler fails nowhere and gives exactly the synchronous handler's answers |
| `OffloadTheorems.SyncGivesBack` | relay-opd/verl/utils/activation_offload.py:137-218 | every pop of the synchronous handler has the type, shape and contents of the tensor pushed under its handle, in every run that respects the order of calls |
| `OffloadTheorems.AsyncGivesBack` | relay-opd/verl/utils/activation_offload.py:221-395 | so has every pop of the asynchronous handler, in every legal run |
| `OffloadTheorems.SyncPlacement` | relay-opd/verl/utils/activation_offload.py:195-208 | in every run exactly the groups to be offloaded are on the host |
| `OffloadTheorems.CopySourcesKept` | relay-opd/verl/utils/activation_offload.py:279-341 | going forward, the buffer keeps the very tensors of a group until its window closes, and then lets go of them |
| `OffloadTheorems.CleanAfterIteration` | relay-opd/verl/utils/activation_offload.py:373-395 | back at layer 0 with everything popped, all maps are empty and both group counters are 0 |
| `OffloadTheorems.LaggedWindows` | relay-opd/verl/utils/activation_offload.py:543-543 | with one layer kept back each window closes one layer after its own group |
| `OffloadTheorems.AtMostTwoResident` | relay-opd/verl/utils/activation_offload.py:500-504 | with `G = L - 1` and `L >= 3`, at every point of every run at most two groups are on the device: the current one and the one before |
| `OffloadHandler.AsyncDoubleBufferGroupOffloadHandler.constructor` | relay-opd/verl/utils/activation_offload.py:228-257 | the handler starts valid and empty |
| `OffloadHandler.AsyncDoubleBufferGroupOffloadHandler.TensorPush` | relay-opd/verl/utils/activation_offload.py:263-283 | a tracked tensor enters the ledger under the next tag; a stray or filtered one is its own handle and changes nothing |
| `OffloadHandler.AsyncDoubleBufferGroupOffloadHandler.TensorPop` | relay-opd/verl/utils/activation_offload.py:285-296 | the popped tensor has the pushed type, shape and contents, field by field, and its tag is gone |
| `OffloadHandler.AsyncDoubleBufferGroupOffloadHandler.BulkOffloadGroup` | relay-opd/verl/utils/activation_offload.py:298-317 | the two loops compute the specified bulk offload and touch nothing else |
| `OffloadHandler.AsyncDoubleBufferGroupOffloadHandler.SynchronizeOnGroupCommitForward` | relay-opd/verl/utils/activation_offload.py:319-345 | the object's fields follow the specified forward commit |
| `OffloadHandler.AsyncDoubleBufferGroupOffloadHandler.OnGroupCommitForward` | relay-opd/verl/utils/activation_offload.py:347-352 | the handler stays valid and the ledger moves to the next group |
| `OffloadHandler.AsyncDoubleBufferGroupOffloadHandler.BulkReloadGroup` | relay-opd/verl/utils/activation_offload.py:355-371 | the reload loop recovers every moved entry of the group and drops its table |
| `OffloadHandler.AsyncDoubleBufferGroupOffloadHandler.OnGroupCommitBackward` | relay-opd/verl/utils/activation_offload.py:373-395 | the handler stays valid and the ledger moves to the previous group |
| `SyncOffloadHandler.SynchronizedGroupOffloadHandler.TensorPush` | relay-opd/verl/utils/activation_offload.py:195-208 | the tensor enters the ledger under a fresh tag, on the host exactly if its group is offloaded and the checker asks for it |
| `SyncOffloadHandler.SynchronizedGroupOffloadHandler.TensorPop` | relay-opd/verl/utils/activation_offload.py:210-218 | the popped tensor has the pushed type, shape and contents, field by field, and exactly its tag is gone |
| `SyncOffloadHandler.SynchronizedGroupOffloadHandler.OnGroupCommitForward` | relay-opd/verl/utils/activation_offload.py:161-165 | the next group begins; nothing is moved |
| `SyncOffloadHandler.SynchronizedGroupOffloadHandler.OnGroupCommitBackward` | relay-opd/verl/utils/activation_offload.py:167-170 | the previous group begins; its assertion holds |
| `WeightChunks.SplitWeightChunks` | relay-opd/verl/checkpoint_engine/base.py:517-543 | the generator's loops yield the specified chunk stream |
| `WeightChunks.MergeChunk` | relay-opd/verl/checkpoint_engine/base.py:559-585 | the loop body, writing in place with torch's slice assignment, does one step of the specified merger and fails exactly where it fails |
| `WeightChunks.MergeWeightChunks` | relay-opd/verl/checkpoint_engine/base.py:546-585 | the loop yields the merged weights, and fails exactly on streams whose specification fails |
| `WeightChunks.MergeOne` | relay-opd/verl/checkpoint_engine/base.py:535-585 | from any chunk boundary on, the chunks of one weight complete exactly that weight |
| `WeightChunks.MergeAfterSplit` | relay-opd/verl/checkpoint_engine/base.py:517-585 | merging the chunks of any weight list gives its non-empty weights in order; no assertion fails |
| `WeightChunks.RoundTripExact` | relay-opd/verl/checkpoint_engine/base.py:517-585 | merge after split is the identity if and only if no weight is empty |
| `MergeSoundness.BytesOfForm` | relay-opd/verl/checkpoint_engine/base.py:561-561 | the byte size is the product of the dimensions and the element size |
| `MergeSoundness.PasteCells` | relay-opd/verl/checkpoint_engine/base.py:581-581 | slice assignment byte by byte, with its clipping, its repetition of a single byte, and its failure |
| `MergeSoundness.MergeSound` | relay-opd/verl/checkpoint_engine/base.py:559-585 | whatever the merger accepts is cut into weights: each is made of chunks of its own name that follow each other from its first byte to its last, and no chunk is left out |
| `BucketPacking.NoRepeat` | relay-opd/verl/checkpoint_engine/nccl_checkpoint_engine.py:277-278 | a chunk that fits never repeats a name of its bucket, also when weights span buckets |
| `BucketPacking.PackWorks` | relay-opd/verl/checkpoint_engine/nccl_checkpoint_engine.py:252-283 | no packing assertion fails, every chunk is kept in order, regions are contiguous, disjoint and inside the bucket, and no bucket is closed early |
| `BucketPacking.RefusesExactly` | relay-opd/verl/checkpoint_engine/nccl_checkpoint_engine.py:277-278 | a chunk is refused exactly if it exceeds a bucket or would join one that has its name |
| `BucketPacking.PackSound` | relay-opd/verl/checkpoint_engine/nccl_checkpoint_engine.py:254-283 | whatever stream is accepted, no bucket overflows, overlaps or holds a name twice |
| `BucketTransfer.SplitIsGood` | relay-opd/verl/checkpoint_engine/base.py:529-543 | for distinct names, a name recurs in the stream only right after a chunk that fills a bucket |
| `BucketTransfer.BucketCount` | relay-opd/verl/checkpoint_engine/nccl_checkpoint_engine.py:254-283 | n >= 2 buckets satisfy floor(n/2) * bucket_size < total bytes |
| `BucketTransfer.UnpackImage` | relay-opd/verl/checkpoint_engine/nccl_checkpoint_engine.py:348-351 | a bucket is read back exactly from a buffer that still carries leftovers of the bucket before last |
| `BucketTransfer.TransferIsIdentity` | relay-opd/verl/checkpoint_engine/nccl_checkpoint_engine.py:252-368 | split, pack, transmit, unpack, merge gives every non-empty weight with name, form and bytes, in order, and no assertion fails |
| `NcclEngine.PackChunk` | relay-opd/verl/checkpoint_engine/nccl_checkpoint_engine.py:254-283 | the loop body sends and swaps when the chunk does not fit, then writes it in place |
| `NcclEngine.SendWeights` | relay-opd/verl/checkpoint_engine/nccl_checkpoint_engine.py:230-299 | the sender's loop over two swapped buffers broadcasts exactly the packed buckets, the last one marked |
| `NcclEngine.ReceiveWeightChunks` | relay-opd/verl/checkpoint_engine/nccl_checkpoint_engine.py:314-368 | the receiver's double-buffered loop yields the views of all broadcasts in order |
| `NcclEngine.Transfer` | relay-opd/verl/checkpoint_engine/nccl_checkpoint_engine.py:230-368 | both programs composed return the sender's non-empty weights |
| `NcclBroadcast.StepSafe` | relay-opd/verl/checkpoint_engine/nccl_checkpoint_engine.py:49-94 | any step of any thread keeps the invariant of sender, receivers, messages and cells in transit |
| `NcclBroadcast.FillingAvoidsBroadcast` | relay-opd/verl/checkpoint_engine/nccl_checkpoint_engine.py:252-298 | after every interleaving the sender never fills a buffer whose broadcast is running, and that buffer holds its bucket |
| `NcclBroadcast.LandingAvoidsViews` | relay-opd/verl/checkpoint_engine/nccl_checkpoint_engine.py:335-363 | after every interleaving a landing broadcast never targets the buffer whose views are being yielded, and that buffer holds the sender's bucket |
| `NcclBroadcast.FillingOverlaps` | relay-opd/verl/checkpoint_engine/nccl_checkpoint_engine.py:259-283 | the sender goes on filling as soon as a broadcast has started |
| `NcclBroadcast.YieldingOverlaps` | relay-opd/verl/checkpoint_engine/nccl_checkpoint_engine.py:337-351 | a receiver yields while its next broadcast, already begun, can land |
| `NcclBroadcast.HistorySafe` | relay-opd/verl/checkpoint_engine/nccl_checkpoint_engine.py:252-368 | the invariant holds after every interleaving |
| `NcclBroadcast.BroadcastDelivers` | relay-opd/verl/checkpoint_engine/nccl_checkpoint_engine.py:314-368 | in every interleaving each receiver has yielded a prefix of the stream, and all of it when over |
| `NcclProgress.LiveStep` | relay-opd/verl/checkpoint_engine/nccl_checkpoint_engine.py:49-94 | any step keeps: exactly the cells that were sent have arrived, and nothing is received that was not sent |
| `NcclProgress.SomeoneSteps` | relay-opd/verl/checkpoint_engine/nccl_checkpoint_engine.py:252-368 | no deadlock: unless sender and receivers are all done some step is possible, even if the transport stores nothing |
| `NcclProgress.StepShrinks` | relay-opd/verl/checkpoint_engine/nccl_checkpoint_engine.py:252-368 | every step of any thread reduces a measure of what is left |
| `NcclProgress.EveryBroadcastDelivers` | relay-opd/verl/checkpoint_engine/nccl_checkpoint_engine.py:252-368 | every interleaving is bounded, and when no step is left everyone is done and every receiver has yielded the whole stream |
| `NcclProgress.BroadcastTransfersWeights` | relay-opd/verl/checkpoint_engine/nccl_checkpoint_engine.py:230-368 | merging what any receiver yielded gives the non-empty weights back |
| `NixlProof.StepInv` | relay-opd/verl/checkpoint_engine/nixl_checkpoint_engine.py:371-526 | every step of every rank keeps the chain's invariant |
| `NixlTheorems.RunInv` | relay-opd/verl/checkpoint_engine/nixl_checkpoint_engine.py:371-526 | the invariant holds after every run of any number of ranks |
| `NixlTheorems.NoOverwrite` | relay-opd/verl/checkpoint_engine/nixl_checkpoint_engine.py:475-526 | no step changes a buffer that is announced, being read by the next rank, or being handed out |
| `NixlTheorems.NotifyKeyMatches` | relay-opd/verl/checkpoint_engine/nixl_checkpoint_engine.py:143-174 | each link has at most one unacknowledged operation, and a notification carries its key and comes from the successor |
| `NixlTheorems.EveryRunIsSafe` | relay-opd/verl/checkpoint_engine/nixl_checkpoint_engine.py:143-231 | after every run, any next step leaves every buffer in use unchanged, a rank is notified by its successor only, and a notification carries the key of the link's only open operation |
| `NixlAgent.GetNotification` | relay-opd/verl/checkpoint_engine/nixl_checkpoint_engine.py:134-140 | the polling loop, whose inner loop rebinds the requested name, returns what the specification says |
| `NixlAgent.OldestFirst` | relay-opd/verl/checkpoint_engine/nixl_checkpoint_engine.py:140-140 | a queued notification is handed out at once, oldest first, and only it leaves its queue |
| `NixlAgent.AnswersForFirstSpeaker` | relay-opd/verl/checkpoint_engine/nixl_checkpoint_engine.py:134-140 | the wait answers for the requested agent if and only if it is queued already or comes last in the first non-empty poll |
| `NixlAgent.OneSenderIsHarmless` | relay-opd/verl/checkpoint_engine/nixl_checkpoint_engine.py:134-140 | with a single sender the wait returns exactly what a wait that keeps its name returns |
| `NixlAgent.SecondSenderIsConfused` | relay-opd/verl/checkpoint_engine/nixl_checkpoint_engine.py:134-140 | with a second sender it returns the other agent's notification |
| `NixlTheorems.NotifiedBySuccessor` | relay-opd/verl/checkpoint_engine/nixl_checkpoint_engine.py:134-174 | whatever a rank polls during a run comes from its successor, so the wait returns the successor's notification |
| `NixlTheorems.FillingOverlaps` | relay-opd/verl/checkpoint_engine/nixl_checkpoint_engine.py:401-427 | the trainer fills the next bucket while the announced one is still being read |
| `NixlTheorems.HandingOverlaps` | relay-opd/verl/checkpoint_engine/nixl_checkpoint_engine.py:475-500 | a rank hands a bucket out while it reads the next one and its successor reads this one |
| `NixlTheorems.OutIsPrefix` | relay-opd/verl/checkpoint_engine/nixl_checkpoint_engine.py:452-526 | in every reachable state each rank has handed out a prefix of the sender's stream |
| `NixlTheorems.DoneIsAll` | relay-opd/verl/checkpoint_engine/nixl_checkpoint_engine.py:452-526 | a rank that is done has handed out the whole stream |
| `NixlTheorems.Progress` | relay-opd/verl/checkpoint_engine/nixl_checkpoint_engine.py:475-526 | no deadlock: in every reachable state with an unfinished rank some step is enabled |
| `NixlTheorems.StepGrows` | relay-opd/verl/checkpoint_engine/nixl_checkpoint_engine.py:371-526 | every step increases a bounded measure of the acting rank and no other |
| `NixlTheorems.RunIsShort` | relay-opd/verl/checkpoint_engine/nixl_checkpoint_engine.py:371-526 | the steps left bound every run from any reachable state |
| `NixlTheorems.EveryRunDelivers` | relay-opd/verl/checkpoint_engine/nixl_checkpoint_engine.py:371-526 | every run from the start is bounded, and when no step is left every rank is done with the whole stream |
| `NixlTheorems.ChainTransfersWeights` | relay-opd/verl/checkpoint_engine/nixl_checkpoint_engine.py:371-526 | merging what any rank handed out gives the non-empty weights back |
| `NixlTopology.ChainExactlyFromTwo` | relay-opd/verl/checkpoint_engine/nixl_checkpoint_engine.py:288-331 | the wiring meets every length check and assertion if and only if there are two rollout workers or more, and is then one simple chain with ranks 0 .. rollouts and one world size for all workers |
| `NixlTopology.RaisesExactly` | relay-opd/verl/checkpoint_engine/nixl_checkpoint_engine.py:288-305 | indexing raises exactly when the list of agents is empty or shorter than the rollout workers |
| `NixlTopology.SingleRolloutRejected` | relay-opd/verl/checkpoint_engine/nixl_checkpoint_engine.py:303-303 | with one trainer and one rollout worker the neighbour list has three entries and is refused |
| `ReplayProtocol.StepInv` | relay-opd/verl/trainer/main_ppo_sync.py:211-294 | every event keeps: a snapshot, however old, that lists a prompt as finished lists all its rows |
| `ReplayProtocol.RunInv` | relay-opd/verl/trainer/main_ppo_sync.py:211-294 | the invariant holds after every interleaving |
| `ReplayProtocol.SampleIsComplete` | relay-opd/verl/trainer/main_ppo_sync.py:261-294 | in every interleaving, failing prompts included, once a sample of a live step need not wait, it selects exactly the rows of all prompts dispatched for the step but for rows of failed prompts that have not arrived; no tag lookup fails |
| `ReplayProtocol.SampleWithoutFailures` | relay-opd/verl/trainer/main_ppo_sync.py:261-294 | without a failed prompt it is exactly all rows of the step |
| `ReplayProtocol.NoPromptIsSelected` | relay-opd/verl/trainer/main_ppo_sync.py:284-291 | in every run, whatever fails, only rows of the step are selected, never a prompt's own entry |
| `ReplayProtocol.SampleGetsThrough` | relay-opd/verl/trainer/main_ppo_sync.py:352-377 | when all prompts of the step have finished or failed, one poll and merge let the sampler through |
| `ReplayProtocol.BatchSizeSelectsNothing` | relay-opd/verl/trainer/main_ppo_sync.py:261-294 | in every interleaving a call with a batch size is let through at once with nothing, whatever rows there are |
| `ReplayBuffer.ReplayBuffer.Add` | relay-opd/verl/trainer/main_ppo_sync.py:234-246 | new tags overwrite, others stay, key by key in the one partition; other keys and partitions are untouched |
| `ReplayBuffer.ReplayBuffer.Remove` | relay-opd/verl/trainer/main_ppo_sync.py:248-259 | exactly the given keys leave the one partition |
| `ReplayBuffer.ReplayBuffer.SampleRound` | relay-opd/verl/trainer/main_ppo_sync.py:277-294 | one round, in any scan order: it waits only at an entry of the step that is running, raises only at a missing tag, and otherwise returns exactly the keys of the step whose status is success, each once with its tags; with a batch size it returns nothing |
| `SessionKeys.KeyFields` | relay-opd/verl/trainer/main_ppo_sync.py:422-422 | splitting a printed key from the right recovers prompt id, session and index, whatever the id contains |
| `SessionKeys.KeysInjective` | relay-opd/verl/trainer/main_ppo_sync.py:422-422 | printed keys and session keys are injective |
| `SessionKeys.PromptIsNoRow` | relay-opd/verl/trainer/main_ppo_sync.py:374-374 | a prompt id whose last field is no number is never a row key |
| `SessionKeys.SplitExactly` | relay-opd/verl/trainer/main_ppo_sync.py:157-157 | splitting from the right: the fields join to the key again, all but the first hold no underscore, and there are as many as the underscores allow |
| `SessionKeys.ParsesExactly` | relay-opd/verl/trainer/main_ppo_sync.py:157-159 | a key has too few fields exactly below two underscores, and its index is bad exactly if what follows the last one is no run of digits |
| `Decimals.ReadsExactly` | relay-opd/verl/trainer/main_ppo_sync.py:158-158 | what reads as an index: one digit or more and nothing else |
| `Decimals.LeadingZero` | relay-opd/verl/trainer/main_ppo_sync.py:158-158 | zeros in front do not change an index |
| `SessionKeys.KeySpelled` | relay-opd/verl/trainer/main_ppo_sync.py:422-422 | a printed key, spelled out |
| `SessionSelection.FinalNext` | relay-opd/verl/trainer/main_ppo_sync.py:161-162 | how one more row changes who stands for its session |
| `SessionSelection.TrackSessions` | relay-opd/verl/trainer/main_ppo_sync.py:153-162 | the first loop fails exactly on a key without three fields ending in a number, and otherwise tracks the final row of every session |
| `SessionSelection.FinalSessions` | relay-opd/verl/trainer/main_ppo_sync.py:152-171 | the final rows are selected once each, by the first appearance of their sessions, and every row is mapped to the final row of its own session |
| `SessionSelection.ScatterAdvantages` | relay-opd/verl/trainer/main_ppo_sync.py:152-191 | every row gets its mask scaled by the score of the final row of its own session |
| `SessionSelection.MalformedEntry` | relay-opd/verl/trainer/main_ppo_sync.py:903-904 | a key with too few fields is an entry of its own, at index 0, and takes it over |
| `SessionSelection.TrackValidation` | relay-opd/verl/trainer/main_ppo_sync.py:895-904 | the validation loop fails exactly on a three-field key whose index is no number; a key with fewer fields takes over its own entry |
| `SessionSelection.ValidationFinals` | relay-opd/verl/trainer/main_ppo_sync.py:895-911 | the selected rows are the final rows in batch order, and every session is numbered by its own final row |
| `SessionSelection.FinalIsHighest` | relay-opd/verl/trainer/main_ppo_sync.py:152-191 | on printed keys in any order, the final row is the highest-index row of the same prompt and session |
| `SessionSelection.SelectionsAgree` | relay-opd/verl/trainer/main_ppo_sync.py:895-906 | training and validation select the same rows |
| `PipelineShards.FitsExactly` | relay-opd/verl/model_merger/megatron_model_merger.py:83-87 | the guard of the search loop in closed form |
| `PipelineShards.StrategyExists` | relay-opd/verl/model_merger/megatron_model_merger.py:81-96 | for p >= 3 a strategy is found if and only if ceil(L/p) * (p-2) <= L - 2 |
| `PipelineShards.GetDynamicPipelineShards` | relay-opd/verl/model_merger/megatron_model_merger.py:57-98 | the search over all middle sizes, sorted by spread, equals the closed form; by inputs: each error exactly in its case, otherwise p sizes that add up, middle ones ceil(L/p), ends even with an odd layer going last |
| `PipelineShards.SizesAddUp` | relay-opd/verl/model_merger/megatron_model_merger.py:97-97 | the sizes add up to all layers: the final assertion holds |
| `PipelineShards.EvenEndsUnique` | relay-opd/verl/model_merger/megatron_model_merger.py:76-92 | count, sum and that shape leave only one division |
| `PipelineShards.DivisionIsEven` | relay-opd/verl/model_merger/megatron_model_merger.py:57-98 | one positive size per rank, and no p-way division has a smaller maximum |
| `PipelineShards.EnoughLayersMayStillFail` | relay-opd/verl/model_merger/megatron_model_merger.py:96-96 | five layers on four ranks are refused |
| `LayerNumbering.RangesPartition` | relay-opd/scripts/converter_hf_to_mcore.py:575-578 | every layer is in exactly one rank's range |
| `LayerNumbering.Renumber` | relay-opd/verl/model_merger/megatron_model_merger.py:358-387 | the merger's loops shift every local number by the running offset |
| `LayerNumbering.OffsetCounts` | relay-opd/verl/model_merger/megatron_model_merger.py:358-387 | the offset counts the layers so far, plus one for each state dict without layers |
| `LayerNumbering.RenumberInverts` | relay-opd/verl/model_merger/megatron_model_merger.py:358-387 | from any start, a state dict is numbered right behind the layers of the earlier ones if and only if none of these is empty |
| `LayerNumbering.ListLands` | relay-opd/verl/model_merger/megatron_model_merger.py:358-387 | a list of state dicts produces every layer of its range exactly once |
| `LayerNumbering.EveryLayerOnce` | relay-opd/scripts/legacy_model_merger.py:613-640 | whenever shards exist, converting and merging in one process produces every layer exactly once under its own number |
| `LayerNumbering.EveryLayerOnceAcrossRanks` | relay-opd/verl/model_merger/megatron_model_merger.py:358-363 | the same for the distributed merger, where each rank starts at its cumulative sum with its own list of state dicts |
| `QkvLayout.SplitChunks` | relay-opd/verl/model_merger/megatron_model_merger.py:343-353 | cutting as torch does, last piece possibly shorter and pieces possibly fewer, and splitting each piece; fails exactly when some piece has another length |
| `QkvLayout.SplitTensors` | relay-opd/verl/model_merger/megatron_model_merger.py:330-354 | the merger's chunk loop computes the specified split, assertions included |
| `QkvLayout.QkvRoundTrip` | relay-opd/scripts/converter_hf_to_mcore.py:155-168 | splitting the converter's interleaved rows returns q, k and v for every head dimension, kv-head count and query multiple |
| `QkvLayout.InterleavedRow` | relay-opd/scripts/converter_hf_to_mcore.py:155-161 | row by row, a group holds its query rows, then its key rows, then its value rows |
| `QkvLayout.SplitsExactly` | relay-opd/verl/model_merger/megatron_model_merger.py:330-354 | splitting succeeds if and only if the query heads divide among the kv heads and the rows divide into whole blocks per kv head |
| `QkvLayout.MergeAcrossTp` | relay-opd/scripts/legacy_model_merger.py:534-562 | the legacy merger's nested loops compute the specified merge, assertions included |
| `QkvLayout.MergesExactly` | relay-opd/scripts/legacy_model_merger.py:534-562 | merging shards succeeds if and only if the heads divide, there are no more shards than kv heads, the first shard divides into whole blocks and torch cuts every other one into pieces of that size |
| `QkvLayout.TensorParallelAgrees` | relay-opd/scripts/legacy_model_merger.py:534-562 | merging equal contiguous shards equals splitting their concatenation, and both succeed, for every shard count dividing the kv heads |
| `DataProtoDispatch.PadToDivisor` | relay-opd/verl/protocol.py:74-99 | the result has a multiple of the divisor's rows, fewer than the divisor more than before, and row i is row i mod len |
| `DataProtoDispatch.Chunk` | relay-opd/verl/protocol.py:864-903 | equal consecutive slices of all columns, and a failure exactly when the rows cannot be divided equally |
| `DataProtoDispatch.ConcatRows` | relay-opd/verl/protocol.py:917-961 | the rows of a concatenation are the rows of its parts, tensor and object columns together |
| `DataProtoDispatch.DispatchLaw` | relay-opd/verl/protocol.py:74-106 | pad, chunk, map a row function, concat and unpad equals mapping it over the original rows |
| `DataProtoDispatch.Dispatch` | relay-opd/verl/protocol.py:74-106 | the whole program, pad, chunk, any worker that computes a row function, concat and unpad, returns the function of every original row |
| `DataProtoDispatch.DispatchIdentity` | relay-opd/verl/protocol.py:864-961 | the whole program with the identity returns the original rows |
| `MoeExperts.ExpertInjective` | relay-opd/scripts/veomni/moe_merge.py:98-98 | expert keys, as strings, name layer, projection and expert uniquely |
| `MoeExperts.StackedIsNoExpert` | relay-opd/scripts/veomni/moe_merge.py:100-100 | a stacked key is never an expert key |
| `MoeExperts.NamesSpelled` | relay-opd/scripts/veomni/moe_merge.py:98-110 | the names of one layer, spelled out |
| `MoeExperts.StackExactly` | relay-opd/scripts/veomni/moe_merge.py:100-100 | stacking fails exactly on no tensors or unequal shapes, and otherwise has the tensors as its rows, entry by entry, and no others |
| `MoeExperts.RowCells` | relay-opd/scripts/veomni/moe_split.py:83-83 | indexing the first dimension, entry by entry |
| `MoeExperts.StackRows` | relay-opd/scripts/veomni/moe_split.py:83-83 | indexing a stack returns what was stacked |
| `MoeExperts.MergeGroup` | relay-opd/scripts/veomni/moe_merge.py:96-100 | the experts of one projection are replaced by one tensor whose shape, size and every entry are those of the experts in order, and nothing else changes; it fails exactly on no experts, a missing expert or unequal shapes |
| `MoeExperts.MergeExperts` | relay-opd/scripts/veomni/moe_merge.py:95-110 | the same for all projections of all expert layers |
| `MoeSplit.SplitGroup` | relay-opd/scripts/veomni/moe_split.py:78-83 | a stack, if there, is replaced by its rows, and nothing else changes; it fails exactly when rows are missing |
| `MoeSplit.SplitExperts` | relay-opd/scripts/veomni/moe_split.py:73-83 | the same for all projections of all layers |
| `MoeSplit.SplitRestores` | relay-opd/scripts/veomni/moe_split.py:73-83 | split after merge restores the whole map if and only if the original held no stacked entry |
| `MoeSplit.MergeThenSplit` | relay-opd/scripts/veomni/moe_merge.py:95-110 | both programs composed return the original state dict exactly when it held no stacked entry |

## Left out

- SessionKeys.ParseNat: accepts runs of ASCII digits only; Python's `int` also takes signs, surrounding blanks and other digits, which printed keys never contain.
- SessionSelection.TrackSessions: so an index written in such a way counts as a failure.
- SessionSelection.TrackValidation: so an index written in such a way counts as a failure.
- WeightChunks.MergeChunk: takes freshly allocated memory to hold zeros; on streams that come from splitting no byte of it is ever handed out.
- SessionSelection.ScatterAdvantages: takes the scores of the selected rows as a parameter: the advantage estimators themselves are not part of this model.
- ReplayProtocol: does not model several validation batches with one step number.
- ReplayBuffer.ReplayBuffer.SampleRound: one round of the sampling loop; the sleep between rounds and the termination of waiting are not modelled beyond `SampleGetsThrough`.
- QkvLayout: the gate/up split and the other branches of the tensor mergers, which are single concatenations, are not part of this model.
- DataProtoDispatch.Chunk: does not model auto-padding, which cuts unevenly, or batches without tensor columns.
- DataProtoDispatch.ConcatRows: does not model the merging of `meta_info` and its conflict assertion.
- LayerNumbering: models layer numbers only, not parameter names or the in-place copies of `safe_copy`.
- MoeExperts: takes the number of experts and the first expert layer as parameters; reading the configuration and the files is not modelled.
- NcclBroadcast: the order in which NCCL moves data inside a collective is any order of cells; its own failures and timeouts are not modelled.
- NIXL: the step level is a transition system on values, because its subject is the interleaving of processes; the agent's message and notification queues are its sequences, and the polling loop of a read is one completion step.
- CUDA streams and events: a copy is complete where the program waits for it.
- Mooncake, HCCL and Kimi checkpoint engines, the colocated engine, and registration of memory with the transport.
- Reward computation, rollout correction, workload balancing, checkpoint directories, LoRA saving and uploading.
