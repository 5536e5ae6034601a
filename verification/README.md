# RLinf: verified models of its data paths

RLinf trains policies with reinforcement learning on many ranks. Between the rollout workers and the
optimiser its data passes through a handful of self-contained algorithms and state machines. This
project models them in Dafny and proves what they promise.

| modules | what they model |
|---|---|
| KarmarkarKarp, StateOrders, Partitioner | the k-way largest differencing method: pure rounds with their balance bounds, which states and bags each round joins, and the mutable states and heap loop that compute them |
| BestFit | Best Fit Decreasing and its 3/2 bound against every feasible packing |
| DynamicBatches, DivisorLoss, ReverseOrder | the retry loop that raises the micro-batch count on all ranks in lockstep, a batch for which it loses the divisor, and undoing the micro-batch order |
| CommMapping | splitting a batch between two groups of ranks, from either side |
| PriorityStores, PriorityOrders | the bounded store of trajectories by priority, and which offers it keeps in terms of their versions |
| TrajectoryCaches, ReplayLogs, ReplayBuffers | the slot cache in one flat buffer, the log a replay buffer stands for, and adding, loading and sampling through the cache |
| TurnChains, TurnLinks, TurnPacking, TurnBatches, BatchMerging | finding chains of turns that continue one another, which turns end up linked, folding them, and what this does to the training objective |
| BatchIterators, IteratorSizes | the two-level batch iterator with prefetch, and the sizes at which it goes through |
| LossScales, Advantages | the loss-scale stages, generalised advantage estimation and the chunk reshapes |
| Rebalance, DownSampling, SampleShares | sharing gathered samples among ranks, cutting groups to n samples, and how many of each kind are kept |
| Extraction, Interventions | cutting intervened steps out of a trajectory |
| Sequences, Grouping, Outcomes | shared facts on sequences, grouping positions by key, and results that are a value or an exception |

A tensor is a sequence of rows, a weight a real number, a length a natural number. An object whose
methods update its fields is a class, whose methods are proved against functions on its abstract
value; a loop is a method with a loop. Exceptions are error values, and the contracts say exactly
when each one is raised.

Where a promise of the code's documentation is false, the model keeps the code, gives an input that
shows it and proves when the promise holds:

- Packing turns is meant to keep the training objective. Turns that share one response position are
  linked as well (`rlinf/data/io_struct.py:1390`) and change it. `TurnBatches.PackKeepsMeanExactly` says when it
  is kept, and `TurnBatches.DisjointBatchKeepsMean` from a check on the turns themselves.
- `load_checkpoint` keeps the index version, so a window cached earlier may be sampled from
  (`rlinf/data/replay_buffer.py:569-575`). `ReplayLogs.LoadedWindowIsFresh` says when it is not stale.
- `topn(0)` hands out the whole store (`rlinf/data/priority_store.py:56`). `PriorityStores.TopCountExactly` says
  for which n the count is right.
- A micro-batch count rounded up to a divisor loses it again while retrying
  (`rlinf/utils/data_iter_utils.py:593`). `DivisorLoss.DivisorIsLost` gives a batch,
  `DynamicBatches.DivisorKept` says exactly when the final counts are multiples,
  `DynamicBatches.StartKeptExactly` when there is no retry at all, and
  `DynamicBatches.RoomKeepsDivisor` gives a check to make before the call.
- Filling a global batch stops at any total that is large enough, not at a multiple
  (`rlinf/data/io_struct.py:1774-1777`). `BatchIterators.FillOvershoots` gives the input and
  `BatchIterators.FillsWholeExactly` the sizes for which it ends at a multiple, in both directions;
  `IteratorSizes.RunsThroughExactly` says for all sizes when the whole iterator goes through.
- Segments cut from several rollout epochs flatten rightly only under a condition on the mask, which
  `Extraction.CommutesExactly` states in both directions; `Extraction.UnevenEpochsFail` gives the input.

## Model

| member | source | states |
|---|---|---|
| KarmarkarKarp.PairedWithin | rlinf/utils/data_iter_utils.py:343-346 | Pairing the bags of two sorted states from opposite ends gives a state no wider than the wider parent, for any two states |
| KarmarkarKarp.MergeAnyTwo | rlinf/utils/data_iter_utils.py:390-395 | Every state property that merging keeps survives merging any two states of the heap, whichever the heap order picks |
| KarmarkarKarp.LeastIsLeast | rlinf/utils/data_iter_utils.py:352-358 | The popped state is one that no other state precedes in the order by spread and largest set |
| KarmarkarKarp.ReduceKeeps | rlinf/utils/data_iter_utils.py:390-397 | The last state has every property that the first states have and merging keeps |
| KarmarkarKarp.PartitionsCover | rlinf/utils/data_iter_utils.py:374-404 | Every index occurs in exactly one part, in both modes |
| KarmarkarKarp.PartitionsBalanced | rlinf/utils/data_iter_utils.py:343-346 | No two parts differ by more than the longest item, or, with equal sizes, by more than the widest gap inside one sorted block of k |
| KarmarkarKarp.FullestPart | rlinf/utils/data_iter_utils.py:386-404 | k times the fullest part is at most the total plus (k - 1) times the longest item |
| KarmarkarKarp.PartitionsNonEmpty | rlinf/utils/data_iter_utils.py:317-322 | With at least k items no part is empty, even when all lengths are zero |
| KarmarkarKarp.PartitionsEqualSize | rlinf/utils/data_iter_utils.py:376-385 | Equal-size mode gives every part exactly n / k items |
| StateOrders.OutranksExactly | rlinf/utils/data_iter_utils.py:317-322 | A bag precedes another by larger sum, then more items, then the larger list of (index, length) pairs at the first difference |
| StateOrders.StateSorted | rlinf/utils/data_iter_utils.py:325-346 | The bags of a sorted state descend by sum, item count and items |
| StateOrders.LeastPopsFirst | rlinf/utils/data_iter_utils.py:348-358 | For every k the popped state is at least as wide, from its largest to its smallest sum, as any other, and among equally wide ones no other has the larger first bag |
| StateOrders.LeastPopsFirstOfAll | rlinf/utils/data_iter_utils.py:348-358 | The same of all states of the heap at once |
| StateOrders.MergeMerges | rlinf/utils/data_iter_utils.py:343-346 | Merging gives, in descending order, the i-th largest bag of one state joined with the i-th smallest of the other, items of the first state first |
| StateOrders.RoundMergesWidest | rlinf/utils/data_iter_utils.py:390-395 | A round merges the two states that pop first and leaves all others alone |
| StateOrders.ReduceIsRounds | rlinf/utils/data_iter_utils.py:390-397 | The result is the one state left after a chain of such rounds |
| StateOrders.GroupsInOrder | rlinf/utils/data_iter_utils.py:374-388 | The first states hold the items in ascending order of (length, index), one each, or k each with equal sizes |
| StateOrders.PartsOfLast | rlinf/utils/data_iter_utils.py:374-404 | The parts are the index lists of the bags of the state that a chain of rounds from the first states ends in |
| StateOrders.PartsByLoad | rlinf/utils/data_iter_utils.py:397-404 | The parts come in descending order of their loads |
| Partitioner.State.constructor | rlinf/utils/data_iter_utils.py:325-332 | A new state has its items in bags of their own, sorted, the other bags empty |
| Partitioner.State.Merge | rlinf/utils/data_iter_utils.py:343-346 | Merging in place pairs opposite ends and sorts again, and changes no other state |
| Partitioner.MergeRound | rlinf/utils/data_iter_utils.py:390-395 | One pass of the heap loop on mutable states is one round of the pure specification |
| Partitioner.ReduceHeap | rlinf/utils/data_iter_utils.py:390-397 | The whole heap loop ends with the state the pure rounds end with |
| Partitioner.Partition | rlinf/utils/data_iter_utils.py:301-404 | `karmarkar_karp` fails exactly when equal sizes are wanted and k does not divide n; else it returns the parts that StateOrders.PartsOfLast describes round by round, and its closing size check never fires |
| Partitioner.CheckAndSort | rlinf/utils/data_iter_utils.py:429-439 | The check accepts exactly lists of non-empty parts that cover 0..n-1, and sorts each part |
| Partitioner.BalancedPartitions | rlinf/utils/data_iter_utils.py:407-444 | The call fails exactly for fewer than k items or an indivisible count in equal-size mode; no check on the partitions ever fires |
| Partitioner.BalancedValid | rlinf/utils/data_iter_utils.py:407-444 | The result has k sorted, non-empty parts that place every index once, equal in size if asked, with loads within the spread bound |
| BestFit.FindBest | rlinf/utils/data_iter_utils.py:467-476 | The inner loop finds the fullest group that has room, the earliest among equals |
| BestFit.PlaceAll | rlinf/utils/data_iter_utils.py:465-483 | The outer loop appends to the best group or opens a new one, in order of decreasing length |
| BestFit.CheckGroups | rlinf/utils/data_iter_utils.py:485-500 | The closing assertions hold for every partition into groups below the cap |
| BestFit.BestFitDecreasing | rlinf/utils/data_iter_utils.py:447-502 | The call fails exactly when a length exceeds the cap |
| BestFit.GroupsValid | rlinf/utils/data_iter_utils.py:465-502 | Every index is placed exactly once, no group is empty, none exceeds the cap, and no later opener fits an earlier group |
| BestFit.OrderDownIs | rlinf/utils/data_iter_utils.py:459-460 | The items are taken longest first, those of one length in the order of their indices |
| BestFit.PlacedBest | rlinf/utils/data_iter_utils.py:465-483 | When the n-th item comes, the groups hold the first n; it goes behind the fullest group with room, the earliest among equals, or opens a group if none has room, and nothing placed moves again |
| BestFit.GrowLate | rlinf/utils/data_iter_utils.py:470-483 | A group takes its second item only when that item fits into no earlier group, by the tie-break towards lower indices |
| BestFit.BigItemsNeedBins | rlinf/utils/data_iter_utils.py:459-483 | When the first j groups open with more than half the cap, every feasible packing needs j bins |
| BestFit.LateItemsOverflow | rlinf/utils/data_iter_utils.py:459-483 | Otherwise the items of the late groups, matched against the early ones, exceed that many caps in total |
| BestFit.WithinThreeHalves | rlinf/utils/data_iter_utils.py:459-502 | Against every feasible packing into p bins, twice the number of groups is at most 3p |
| DynamicBatches.SinglesFit | rlinf/utils/data_iter_utils.py:553-593 | One micro-batch per sample fits as soon as every sample does |
| DynamicBatches.RoomyFits | rlinf/utils/data_iter_utils.py:575-579 | A count k with k * cap >= total + (k - 1) * longest fits |
| DynamicBatches.Lockstep | rlinf/utils/data_iter_utils.py:589-593 | All ranks have added the same number of micro-batches when they stop |
| DynamicBatches.SettleFirst | rlinf/utils/data_iter_utils.py:553-593 | All ranks stop together at the first count at which every rank fits, or all fail with the assertion |
| DynamicBatches.SettlesAtFirstFit | rlinf/utils/data_iter_utils.py:553-593 | From any starts, equal or not, the loop ends after exactly d retries if and only if every rank starts above zero and fits after d retries and some rank did not after fewer |
| DynamicBatches.RetrySucceedsExactly | rlinf/utils/data_iter_utils.py:553-593 | The retry loop succeeds if and only if the agreed start is at most n and every sample fits alone |
| DynamicBatches.RetryStopsBy | rlinf/utils/data_iter_utils.py:553-593 | The loop stops no later than the first count at which every rank has room |
| DynamicBatches.StartFeasible | rlinf/utils/data_iter_utils.py:535-547 | Without a divisor all ranks start from one common count between 1 and n |
| DynamicBatches.AgreedIsLeast | rlinf/utils/data_iter_utils.py:535-551 | With the same count on all ranks, the start is the least multiple of the divisor that is at least every rank's number of Best Fit Decreasing groups and the minimum |
| DynamicBatches.OwnStartIsLeast | rlinf/utils/data_iter_utils.py:535-551 | Without, each rank starts from the least multiple of the divisor that is at least its own number of groups and the minimum |
| DynamicBatches.DivisorKept | rlinf/utils/data_iter_utils.py:544-593 | The start is a multiple of the divisor, and the final counts of all ranks are multiples if and only if the first count from there on at which every rank fits is one |
| DynamicBatches.RoomKeepsDivisor | rlinf/utils/data_iter_utils.py:544-593 | With room at the rounded start, a check on lengths and cap before the call, there is no retry and the divisor is kept |
| DynamicBatches.StartKeptExactly | rlinf/utils/data_iter_utils.py:553-593 | With a divisor or without, all ranks end with the agreed start if and only if it is at most n and every rank fits at it |
| DivisorLoss.DivisorIsLost | rlinf/utils/data_iter_utils.py:548-593 | For lengths 3, 3, 2, 2, 2, a cap of 6 and a divisor of 2 the count starts at 2 and ends at 3 |
| DynamicBatches.ComputeStart | rlinf/utils/data_iter_utils.py:535-551 | The start is each rank's group count, raised to the minimum, MAX-reduced if asked and rounded up; AgreedIsLeast and OwnStartIsLeast say what number that is |
| DynamicBatches.TryRound | rlinf/utils/data_iter_utils.py:555-591 | A round partitions every rank's batch and is valid exactly if every micro-batch on every rank fits |
| DynamicBatches.Retry | rlinf/utils/data_iter_utils.py:553-593 | The loop over mutable counts ends in the first fitting round of the specification, or in its error |
| DynamicBatches.SplitDynamically | rlinf/utils/data_iter_utils.py:524-593 | The whole call on all ranks: error cases, final counts and partitions |
| DynamicBatches.SplitIsValid | rlinf/utils/data_iter_utils.py:553-593 | Each rank's micro-batches partition its samples, none is empty, each fits, and no two differ in length by more than the longest sample |
| ReverseOrder.GetReverseIdx | rlinf/utils/data_iter_utils.py:703-718 | Overwriting the copy, negative indices counted from the end, leaves at every place the last position that names it; exactly an index out of range fails |
| ReverseOrder.SendsBackExactly | rlinf/utils/data_iter_utils.py:703-718 | The result sends every index back to its position if and only if no place is named twice, be it from the front or from the end |
| ReverseOrder.ReverseTwice | rlinf/utils/data_iter_utils.py:703-718 | On distinct indices, reversing twice gives the named places back, for a list without negative indices itself |
| ReverseOrder.OutputsRestored | rlinf/utils/data_iter_utils.py:703-718 | Reordering the concatenated micro-batch outputs by the reversed index list gives every sample its own output, for every partition |
| CommMapping.GetDstRanks | rlinf/utils/comm_mapping.py:28-56 | The walk yields the overlaps of the sender's interval with the receivers' intervals, in rank order; exact errors |
| CommMapping.GetSrcRanks | rlinf/utils/comm_mapping.py:59-91 | The result equals the destination mapping with the two world sizes swapped; the assertion on the size never fires |
| CommMapping.OverlapSymmetric | rlinf/utils/comm_mapping.py:42-55 | Two shards overlap by the same count from either side |
| CommMapping.ShareListed | rlinf/utils/comm_mapping.py:42-55 | A share is listed if and only if the two ranks' row intervals meet, with as many rows as they have in common, and the other ranks are listed in rising order |
| CommMapping.AddressedByDuality | rlinf/utils/comm_mapping.py:74-83 | What sender s addresses to receiver d is what receiver d's own list says about s |
| CommMapping.ReceiveSize | rlinf/utils/comm_mapping.py:85-90 | The receive sizes add up to one destination shard |
| CommMapping.ReceivedIsShard | rlinf/utils/comm_mapping.py:42-56 | Concatenating the received pieces in sender order rebuilds the receiver's contiguous slice of the batch |
| PriorityStores.StoreIsWindow | rlinf/data/priority_store.py:36-69 | After any sequence of operations the store holds exactly the maxsize highest (priority, arrival) offers of an unbounded log |
| PriorityStores.OffersConserved | rlinf/data/priority_store.py:36-69 | Offered = stored + discarded unused + left after use, after any sequence of operations |
| PriorityStores.TopIsBest | rlinf/data/priority_store.py:55-59 | For n >= 1 topn hands out the best min(n, maxsize) offers of the log, best first |
| PriorityStores.TopCountExactly | rlinf/data/priority_store.py:55-59 | topn(n) hands out min(max(n, 0), size) items if and only if n >= 1 or the store holds at most -n; topn(0) hands out everything |
| PriorityStores.RunValid | rlinf/data/priority_store.py:36-69 | Every reachable store is sorted, has distinct numbers, is within its size and has no stale used marks |
| PriorityOrders.RankedByVersions | rlinf/data/priority_store.py:26-30 | Ranking keeps every offer and orders them by minimum version, then by mean version |
| PriorityOrders.RankedStable | rlinf/data/priority_store.py:26-30 | Offers of one priority keep the order of their arrival |
| PriorityOrders.StoredAreFreshest | rlinf/data/priority_store.py:36-53 | After any operations, no kept offer is beaten in (minimum version, mean version) by one that is not kept, and nothing is dropped while there is room |
| PriorityOrders.FlagTells | rlinf/data/priority_store.py:37-53 | An offer is refused if and only if the store is full and the offer is staler than everything in it; the flag says whether the offer is in the store |
| PriorityOrders.UsedIsHandedOut | rlinf/data/priority_store.py:55-69 | After any operations the used marks are exactly on the stored entries that some topn has handed out |
| PriorityOrders.RemovedExactly | rlinf/data/priority_store.py:61-69 | remove_below keeps exactly the entries whose minimum version reaches the threshold |
| PriorityStores.AddWindow | rlinf/data/priority_store.py:36-53 | Offering to the window of the last maxsize is windowing the longer ranked list |
| PriorityStores.KeptLast | rlinf/data/priority_store.py:61-69 | Filtering a ranked list by the threshold and taking its last n commute |
| PriorityStores.PriorityStore.Add | rlinf/data/priority_store.py:36-53 | The new state and the returned flag are those of the step function; FlagTells and StoredAreFreshest say in versions which offers are kept; only a store of size 0 fails |
| PriorityStores.PriorityStore.TopN | rlinf/data/priority_store.py:55-59 | Marks what it hands out as used and changes nothing else |
| PriorityStores.PriorityStore.RemoveBelow | rlinf/data/priority_store.py:61-69 | Drops exactly the entries below the threshold, with their bookkeeping |
| TrajectoryCaches.GetIsLastPut | rlinf/data/replay_buffer.py:182-188 | After any puts and clears, get returns the last value put for each of the most recent max_size insertions and None for every other id |
| TrajectoryCaches.OrderIsRecent | rlinf/data/replay_buffer.py:196-216 | The cached ids are the last max_size insertions, and putting a cached id again changes no order |
| TrajectoryCaches.ClaimOrder | rlinf/data/replay_buffer.py:204-212 | Claiming a slot of a full ring drops the oldest id, and the new one becomes the youngest |
| TrajectoryCaches.GrowContents | rlinf/data/replay_buffer.py:160-180 | Relocating the slots keeps what every cached id holds |
| TrajectoryCaches.WriteContents | rlinf/data/replay_buffer.py:95-103 | Writing one id's slot changes what that id holds and nothing else |
| TrajectoryCaches.Relocate | rlinf/data/replay_buffer.py:166-177 | The copy loop moves every slot in use to its start under the new slot length |
| TrajectoryCaches.TrajectoryCache.EnsureCapacity | rlinf/data/replay_buffer.py:151-180 | Allocates or grows the flat buffer without changing any cached trajectory |
| TrajectoryCaches.TrajectoryCache.Put | rlinf/data/replay_buffer.py:196-216 | A put is a put of a bounded FIFO map; it fails exactly on a trajectory without tensors |
| TrajectoryCaches.TrajectoryCache.Get | rlinf/data/replay_buffer.py:182-188 | Slicing the buffer by the recorded lengths is a lookup in the FIFO map |
| TrajectoryCaches.TrajectoryCache.Clear | rlinf/data/replay_buffer.py:218-224 | The cache is empty again |
| ReplayLogs.RowOfSample | rlinf/data/replay_buffer.py:624-631 | A window sample is the local row of the trajectory whose range holds it |
| ReplayLogs.BucketInverse | rlinf/data/replay_buffer.py:624-631 | Sample ids and (trajectory, local row) pairs correspond one to one through bucketize |
| ReplayLogs.DrawsAreDrawable | rlinf/data/replay_buffer.py:610-641 | Every draw below the window total names an existing row of a listed trajectory |
| ReplayLogs.WindowIsCached | rlinf/data/replay_buffer.py:262-267 | A window no larger than the cache is always cached |
| ReplayLogs.ReloadMirrors | rlinf/data/replay_buffer.py:1105-1119 | Putting the most recent listed trajectories into an empty cache makes it hold the end of the loaded log |
| ReplayLogs.LoadedWindowIsFresh | rlinf/data/replay_buffer.py:569-575 | After a load, sampling uses the loaded window if and only if none was cached for this size and version or both logs end alike |
| ReplayLogs.StaleWindow | rlinf/data/replay_buffer.py:997-1119 | A concrete load after a sample that leaves the old window in use |
| ReplayLogs.RankIds | rlinf/data/replay_buffer.py:1045-1067 | The slice a rank loads; exactly an invalid rank is refused |
| ReplayLogs.SharesCover | rlinf/data/replay_buffer.py:1053-1067 | The ranks' slices in rank order are the whole list |
| ReplayLogs.SharesEven | rlinf/data/replay_buffer.py:1053-1067 | No rank loads two trajectories more than another |
| ReplayLogs.SharesFall | rlinf/data/replay_buffer.py:1053-1067 | And no rank loads more than a rank before it, so the first n % world_size ranks take the remainder |
| ReplayLogs.AddedInOrder | rlinf/data/replay_buffer.py:451-498 | Trajectories with samples are listed in the order they come, under consecutive ids, with their rows and counts; others take no id |
| ReplayBuffers.ReplayBuffer.AddTrajectories | rlinf/data/replay_buffer.py:440-504 | Index and cache stay in agreement with the log of all trajectories that have samples, and adding one with samples also heals a window that a load has left stale |
| ReplayBuffers.ReplayBuffer.Clear | rlinf/data/replay_buffer.py:900-913 | Clearing empties log and cache; the stale window is harmless because an empty buffer refuses to sample |
| ReplayLogs.ShareIsLog | rlinf/data/replay_buffer.py:1069-1094 | A rank's slice, with its own counts and the id after its last as the next one, is again a consistent log |
| ReplayBuffers.ReplayBuffer.LoadCheckpoint | rlinf/data/replay_buffer.py:1095-1119 | A full load makes the buffer stand for the loaded log, and keeps it coherent if no window was current; it fails exactly if a recent trajectory has no file |
| ReplayBuffers.ReplayBuffer.LoadShare | rlinf/data/replay_buffer.py:1044-1119 | A distributed load makes the buffer stand for the rank's slice of the log; exactly an invalid rank or a missing file is refused |
| ReplayBuffers.ReplayBuffer.CurrentWindow | rlinf/data/replay_buffer.py:567-598 | The window is recomputed unless cached for this size and version |
| ReplayBuffers.ReplayBuffer.MissesNeedFiles | rlinf/data/replay_buffer.py:262-267 | Without auto_save the miss path is unreachable |
| ReplayBuffers.ReplayBuffer.FillHits | rlinf/data/replay_buffer.py:662-678 | The hit path fills exactly the hit positions with the drawn rows |
| ReplayBuffers.ReplayBuffer.FillMisses | rlinf/data/replay_buffer.py:680-708 | The load-and-concatenate path fills exactly the missed positions with the drawn rows |
| ReplayBuffers.ReplayBuffer.SampleChunks | rlinf/data/replay_buffer.py:552-710 | For any draws, row j of the batch is row draws[j] of the flattened window, whether it is cached or loaded; exact empty cases |
| BatchMerging.MergeBatches | rlinf/data/io_struct.py:1303-1348 | Merging appends rows and shifts each batch's trajectory numbers by its position times the group size; exact errors |
| BatchMerging.TurnPlace | rlinf/data/io_struct.py:1318-1346 | Turn k of batch b stands behind all turns of the batches before it, with its own row and its trajectory number shifted by b times the group size |
| BatchMerging.SameTrajectoryExactly | rlinf/data/io_struct.py:1329-1333 | With numbers below the group size, merged turns share a trajectory if and only if they shared it in one batch |
| BatchMerging.LargeNumbersCollide | rlinf/data/io_struct.py:1329-1333 | Any number x at or above the group size collides with x minus the group size in the next batch |
| TurnChains.ChainsOfOk | rlinf/data/io_struct.py:1377-1401 | The pack map is a set of vertex-disjoint paths of compatible turns, each inside one trajectory |
| TurnChains.ExtendOnce | rlinf/data/io_struct.py:1399 | A new link neither branches nor joins chains |
| TurnLinks.CompatibleExactly | rlinf/data/io_struct.py:1385-1398 | One turn can continue another if and only if it repeats all its tokens and their response intervals share at most one position |
| TurnLinks.TrialsInOrder | rlinf/data/io_struct.py:1369-1379 | The turns of a trajectory are tried each once, by prompt length and then by their position in the batch |
| TurnLinks.LinkedToFirstFree | rlinf/data/io_struct.py:1380-1401 | Two turns are linked if and only if the right one is the first later turn that can continue the left one and is not linked to an earlier turn |
| TurnLinks.NothingLeftToLink | rlinf/data/io_struct.py:1380-1401 | Packing is maximal: if a turn is left without a continuation, every later turn of its trajectory that could continue it continues another one |
| TurnLinks.PassesOnlyTaken | rlinf/data/io_struct.py:1381-1401 | A link goes forward, and every turn it passes over that could have continued its left end continues an earlier turn |
| Grouping.GroupBy | rlinf/data/io_struct.py:1369-1373 | One pass over the dictionary lists the keys in order of first appearance and, for each, its positions in order |
| TurnBatches.BuildChains | rlinf/data/io_struct.py:1369-1401 | The nested loops over the dictionaries build exactly the chains of the specification, whose links TurnLinks.LinkedToFirstFree determines |
| TurnPacking.LaterTurns | rlinf/data/io_struct.py:1392-1398 | In a chain of disjoint links every earlier turn's tokens are a prefix of every later row |
| TurnPacking.OwnerValues | rlinf/data/io_struct.py:1436-1464 | Each packed response token has its unique owner's advantage, logprob and token prefix, and its scale times all / own tokens |
| TurnPacking.MergedCount | rlinf/data/io_struct.py:1447-1464 | The packed mask counts all members' response tokens, and fewer exactly if two share one |
| TurnPacking.ApartIffSingle | rlinf/data/io_struct.py:1386-1391 | Linked responses are disjoint if and only if no token of the chain has two owners |
| TurnPacking.MergedValue | rlinf/data/io_struct.py:1431-1473 | Folding a disjoint chain keeps the sum of its turns' objectives; folding an overlapping one inflates it |
| TurnBatches.MergeChains | rlinf/data/io_struct.py:1431-1473 | The fold loop updates each chain's last row and stops at the first chain with unequal rewards or an empty response |
| TurnBatches.PackTurns | rlinf/data/io_struct.py:1351-1498 | The whole packing call: its rows, the group-level rescaling and its errors |
| TurnBatches.LeftOrFolded | rlinf/data/io_struct.py:1475-1485 | Every turn is left, or belongs to exactly one chain, whose last turn is left |
| TurnBatches.RowsInOrder | rlinf/data/io_struct.py:1475-1485 | The packed batch has one row for every turn that no other one continues, in the order of the turns |
| TurnBatches.FoldFailsExactly | rlinf/data/io_struct.py:1431-1457 | Folding a chain fails on differing rewards first, and else exactly on a turn without a response |
| TurnBatches.FirstFailure | rlinf/data/io_struct.py:1431-1473 | The first chain that cannot be folded decides the error of the call |
| TurnBatches.FoldedRow | rlinf/data/io_struct.py:1466-1473 | The survivor's end is unchanged, it starts where the first member does, and every member of a disjoint chain is a prefix of it |
| TurnBatches.PackKeepsMean | rlinf/data/io_struct.py:1431-1496 | For every per-token value, the mean over sequences of the scaled token mean is the same before and after packing when linked responses are disjoint |
| TurnBatches.PackKeepsMeanExactly | rlinf/data/io_struct.py:1385-1496 | With positive scales, the mean is kept for all values if and only if no two linked responses overlap |
| TurnBatches.PairsApartAllApart | rlinf/data/io_struct.py:1385-1401 | If no two turns that may be linked overlap, a check on pairs of turns, then no chain that the call builds has an overlap |
| TurnBatches.DisjointBatchKeepsMean | rlinf/data/io_struct.py:1385-1496 | If the turns of a trajectory respond at disjoint positions and agree on the reward, the call succeeds and keeps the mean of every per-token value |
| TurnBatches.OverlapChangesMean | rlinf/data/io_struct.py:1385-1391 | Any linked pair that shares a position is packed and its mean objective changes |
| TurnBatches.OverlapIsLinked | rlinf/data/io_struct.py:1385-1391 | A concrete pair that shares one position is linked all the same |
| BatchIterators.KSplitKeeps | rlinf/utils/data_iter_utils.py:136-286 | Splitting keeps the rows, their order and equal part sizes |
| BatchIterators.RowsConserved | rlinf/data/io_struct.py:1733-1837 | For any interleaving of next and prefetch, delivered, held-back and remaining rows are the fetched rows in order |
| BatchIterators.PrefetchIsTransparent | rlinf/data/io_struct.py:1733-1738 | Any interleaving of prefetches delivers the stream that plain iteration delivers |
| BatchIterators.PrefetchFailsOnlyAhead | rlinf/data/io_struct.py:1733-1738 | An interleaving with prefetches fails only where plain iteration, or one further delivery, fails, and with the same error |
| BatchIterators.BatchesAreTaken | rlinf/data/io_struct.py:1727-1750 | Between two hand-outs, the kept batches are exactly the rows taken out since, delivered or early, for any interleaving |
| BatchIterators.DoneExactly | rlinf/data/io_struct.py:1740-1761 | global_batch_done holds exactly when the rows taken are a positive multiple of the global batch size |
| BatchIterators.NextSucceeds | rlinf/data/io_struct.py:1784-1837 | When the fetched sizes line up with the global batches, filling included, a call fails only when nothing is left, and delivers exactly one micro batch |
| BatchIterators.DeliversExactly | rlinf/data/io_struct.py:1784-1837 | n deliveries in a row succeed if and only if the fetched rows hold n micro batches |
| BatchIterators.FillsWholeExactly | rlinf/data/io_struct.py:1769-1782 | Filling ends with a multiple of the global size if and only if some total of the fetched sizes is a multiple and every earlier total is positive and below the global size |
| BatchIterators.FillOvershoots | rlinf/data/io_struct.py:1769-1782 | A batch of three and one of three, with a global size of four, are filled to six rows |
| IteratorSizes.RunsThroughExactly | rlinf/data/io_struct.py:1740-1837 | For all sizes, some number of deliveries hands out every fetched row if and only if each batch, filled up if asked for, splits evenly into global and micro batches and no micro batch straddles a multiple of the global size |
| IteratorSizes.FailsOtherwise | rlinf/data/io_struct.py:1740-1837 | An iterator that does not run through reaches a delivery that fails while something is left |
| IteratorSizes.LinedUpRuns | rlinf/data/io_struct.py:1784-1837 | Sizes that line up with the global batches run through |
| IteratorSizes.UnevenRuns | rlinf/data/io_struct.py:1769-1782 | They need not line up: two rows and four, filled to six, run through global batches of four |
| BatchIterators.BatchResizingIterator.GetNext | rlinf/data/io_struct.py:1808-1837 | The mutable iterator takes exactly the step of the specification, errors included |
| BatchIterators.BatchResizingIterator.PrefetchOneBatch | rlinf/data/io_struct.py:1733-1738 | Prefetching takes exactly the step of the specification |
| BatchIterators.BatchResizingIterator.GetAllBatches | rlinf/data/io_struct.py:1727-1731 | Hands out the rows of all kept batches, which BatchesAreTaken shows to be those taken since the last call, and forgets them |
| LossScales.StagesInOrder | rlinf/algorithms/loss_scales.py:38-43 | Whatever the calls, folding_scale is a prefix of group, agent, turn |
| LossScales.NextStageOnly | rlinf/algorithms/loss_scales.py:140-149 | A stage is accepted if and only if it is the next one |
| LossScales.LossScaler.GroupScale | rlinf/algorithms/loss_scales.py:38-51 | All advantages are multiplied by one factor; exact errors |
| LossScales.GroupStageMean | rlinf/algorithms/loss_scales.py:45-50 | The mean over the ranks of their mean scaled advantages is the sum over all turns of all ranks divided by the global batch size, however the turns are spread |
| LossScales.LossScaler.AgentScale | rlinf/algorithms/loss_scales.py:79-109 | Every turn's scale is multiplied by 1 / A / T of its own agent, once |
| LossScales.LossScaler.TurnScale | rlinf/algorithms/loss_scales.py:140-182 | Every turn's scale is multiplied by its token share; the call divides by zero exactly if an agent has no response token |
| LossScales.AgentStageWeights | rlinf/algorithms/loss_scales.py:94-109 | From unit scales the agent stage leaves the agent weights |
| LossScales.TurnStageWeights | rlinf/algorithms/loss_scales.py:159-182 | And the turn stage leaves the turn weights |
| LossScales.AgentTotal | rlinf/algorithms/loss_scales.py:103-108 | After the agent stage every agent of a trajectory weighs 1 / A |
| LossScales.TokenProportional | rlinf/algorithms/loss_scales.py:168-181 | After the turn stage an agent's weights are proportional to its turns' response tokens |
| LossScales.AgentTotalKept | rlinf/algorithms/loss_scales.py:168-181 | The turn stage keeps every agent's total |
| LossScales.TrajTotal | rlinf/algorithms/loss_scales.py:94-108 | After either stage every trajectory has total weight one |
| Advantages.ComputeGae | rlinf/algorithms/advantages.py:56-79 | The reverse loop computes the backward recursion for advantages and returns |
| Advantages.GaeIsDiscountedSum | rlinf/algorithms/advantages.py:66-77 | Each advantage is the sum of (gamma * lambda)^l * delta up to the first done |
| Advantages.GaeStopsAtDone | rlinf/algorithms/advantages.py:70-76 | Rewards and values after the first done do not influence an advantage |
| Advantages.ReturnsTelescope | rlinf/algorithms/advantages.py:66-79 | With lambda one a return is the discounted rewards up to the first done plus the discounted bootstrap value |
| Advantages.ComputeCriticFree | rlinf/algorithms/advantages.py:61-79 | Without a critic, advantages and returns are the undiscounted rewards until done |
| Advantages.CalculateScore | rlinf/algorithms/utils.py:139-142 | The score loop computes the critic-free return of step 0 |
| Advantages.ScoreIsSum | rlinf/algorithms/utils.py:139-142 | That return is the sum of the rewards up to the first done |
| Advantages.ChunksRoundTrip | rlinf/algorithms/utils.py:167-172 | Flattening chunks to steps and unflattening gives the chunks back |
| Advantages.StepsRoundTrip | rlinf/algorithms/utils.py:167-172 | Unflattening steps and flattening gives the steps back |
| Advantages.DoneAligned | rlinf/algorithms/utils.py:109-113 | The done flag after step s is the flag at the same position of the next chunk |
| Advantages.ValueAligned | rlinf/algorithms/utils.py:115-119 | The value before step s is the value at the step's own position |
| Rebalance.MergedDivides | rlinf/utils/distributed.py:621-635 | The padded batch meets the partitioner's demands, so none of its checks fires |
| Rebalance.TakeShare | rlinf/utils/distributed.py:617-656 | One rank's share of the gathered batch; exact errors |
| Rebalance.SamplesConserved | rlinf/utils/distributed.py:617-656 | All ranks together hold every gathered sample once and fewer than one chunk per rank of padding |
| Rebalance.SharesAlike | rlinf/utils/distributed.py:643-656 | All ranks get equally many samples, a whole number of chunks, with loads within the partitioner's bound |
| Rebalance.TokensWithinOneSample | rlinf/utils/distributed.py:637-656 | The prompt and response tokens of any two ranks differ by at most those of the longest sample |
| Extraction.GenerateFieldMask | rlinf/data/embodied_io_struct.py:396-435 | The two writing passes compute the field mask; exact errors |
| Extraction.StepsOfFieldMask | rlinf/data/embodied_io_struct.py:408-430 | For any number of epochs, dropping the start rows from the field mask gives back the step mask |
| Extraction.StartsKept | rlinf/data/embodied_io_struct.py:419-420 | Every epoch's start row is kept |
| Extraction.SelectedAt | rlinf/data/embodied_io_struct.py:454-455 | A selected entry stands behind exactly the selected entries before it |
| Extraction.SelectedFrom | rlinf/data/embodied_io_struct.py:454-455 | And every entry of a selection was selected |
| Extraction.OneEpochCommutes | rlinf/data/embodied_io_struct.py:477-484 | For one epoch, flattening a cut done flag column is cutting the flattened column |
| Extraction.CommutesExactly | rlinf/data/embodied_io_struct.py:408-430 | For any number of epochs this holds for all columns if and only if every epoch keeps equally many steps |
| Extraction.FlatteningFailsExactly | rlinf/data/replay_buffer.py:712-731 | Flattening cut done flags fails exactly when the kept steps do not divide into the epochs |
| Extraction.UnevenEpochsFail | rlinf/data/embodied_io_struct.py:476-484 | Two epochs that keep one step and none: flattening the cut done flags fails |
| Interventions.ExtractInterveneTraj | rlinf/data/embodied_io_struct.py:437-484 | The loop over environments cuts one segment for each environment with a selected step, or stops with the first error |
| Interventions.ExtractsEveryIntervention | rlinf/data/embodied_io_struct.py:463-492 | The k-th segment is cut from the k-th environment with a selected step, and every earlier segment from an earlier environment |
| Interventions.VisitedExactly | rlinf/data/embodied_io_struct.py:441-465 | An environment has a segment if and only if one of its steps has any flag set, or, in the mode all, all of them |
| Interventions.NothingToExtract | rlinf/data/embodied_io_struct.py:438-448 | Nothing is extracted if and only if no flag is set, whatever the mode; otherwise an unknown mode is refused |
| Interventions.SegmentRow | rlinf/data/embodied_io_struct.py:454-475 | In every step field and in the flags, the row of a selected step of environment i is its own row, behind those of the selected steps before it |
| Interventions.SegmentLength | rlinf/data/embodied_io_struct.py:454-475 | And a segment has exactly as many rows as steps are selected |
| Interventions.ExtractFailsExactly | rlinf/data/embodied_io_struct.py:437-484 | A known mode fails exactly if there is something to cut and some field has the wrong shape |
| Interventions.PlainDones | rlinf/data/embodied_io_struct.py:403-404 | Without start rows a done flag is cut and flattened like any other field |
| Interventions.StepsCommute | rlinf/data/embodied_io_struct.py:466-474 | Flattening a segment's actions, rewards or observations selects from the flattened originals |
| Interventions.OneEpochExtraction | rlinf/data/embodied_io_struct.py:476-484 | For one epoch the same holds of terminations, truncations and dones |
| Interventions.EvenEpochsExtraction | rlinf/data/embodied_io_struct.py:476-484 | And for any number of epochs that keep equally many steps each |
| DownSampling.ChooseExactly | rlinf/utils/down_sampling.py:113-145 | For any quotas, negative and over-full ones included, a larger group is left with exactly n of its samples |
| DownSampling.CheapestKept | rlinf/utils/down_sampling.py:124-144 | Among samples with positive reward, no kept one has a higher penalty than a dropped one |
| SampleShares.RoundIsNearest | rlinf/utils/down_sampling.py:124-125 | A share is rounded to the nearest integer, and to the even one of two nearest |
| SampleShares.SharesKept | rlinf/utils/down_sampling.py:124-144 | Of a larger group both kinds keep their rounded share if no minimum binds and the shares add up to n; a binding minimum is kept exactly, the one for positive rewards winning |
| SampleShares.FirstOfKindKept | rlinf/utils/down_sampling.py:122-137 | When the quotas are met, the positive samples kept are the cheapest, earlier ones first among equals, and the others kept are the first ones |
| SampleShares.CheapestOfAllKept | rlinf/utils/down_sampling.py:138-144 | Exactly when they are not met, the n cheapest samples are kept, positive ones first among equals |
| SampleShares.LeftExactly | rlinf/utils/down_sampling.py:98-163 | The final mask keeps nothing of a group whose rewards are rejected as equal, all of a group of n, none of a smaller one and the chosen ones of a larger one |
| DownSampling.GroupsStayWhole | rlinf/utils/down_sampling.py:98-163 | Every original group is left with exactly n samples or none |
| DownSampling.BlocksAreGroups | rlinf/utils/down_sampling.py:165-206 | Cutting the filtered list into blocks of n recovers one original group per block |
| DownSampling.ChoiceFailsExactly | rlinf/utils/down_sampling.py:109-111 | The choice fails if and only if n is positive, no penalty is on and the first group is larger than n |
| DownSampling.WeightedGroupChoice | rlinf/utils/down_sampling.py:98-147 | The loop over groups marks exactly the chosen samples of each group, which SharesKept, FirstOfKindKept and CheapestOfAllKept determine |
| DownSampling.GroupOfPosition | rlinf/utils/down_sampling.py:24-25 | Position i lies in group g exactly if i // group_size is g |
| DownSampling.RejectEqualReward | rlinf/utils/down_sampling.py:27-43 | The mask drops exactly the groups whose rewards are all close to the first one |
| DownSampling.RolloutResult.DownSample | rlinf/utils/down_sampling.py:149-207 | Every list keeps exactly the marked samples in order, the group size becomes n, and a failing call changes nothing |

## Left out

- The `Set` objects inside a state of the differencing method are values; only states are updated in place.
- `heapq`, `sorted`, `SortedList`, `torch.bucketize` and `torch.isin` are specified by what they return; `remove_below` walks the list instead of removing entries one by one.
- Negative batch sizes and negative store sizes.
- The list form of a dynamic batch (`rlinf/utils/data_iter_utils.py:594-645`), which repeats the dictionary form.
- Collectives are the concatenation by rank, or the maximum or minimum over the ranks.
- TrajectoryCaches.TrajectoryCache.Put: all trajectories put into one cache have the same tensor keys, as one environment's trajectories do; entries that are not tensors are not modelled.
- TrajectoryCaches.TrajectoryCache.EnsureCapacity: grows for a trajectory with the tensor keys of those already cached.
- ReplayBuffers.ReplayBuffer.AddTrajectories: takes trajectories with the same tensor keys whose tensors have as many rows as samples are counted.
- ReplayBuffers.ReplayBuffer.SampleChunks: takes a coherent buffer; one whose cached window went stale in a load, which ReplayLogs.LoadedWindowIsFresh characterises, is not sampled from.
- A replay buffer with `enable_cache=False`.
- Files are a map from trajectories to rows, saved at once; thread pools, metadata files and `save_checkpoint` are not modelled, and a load takes a consistent log as its input.
- The index update and the cache update of the replay buffer are sequential; interleavings of threads are not modelled.
- Random draws are arbitrary inputs, and shuffling is off.
- The ids of missed trajectories are loaded in window order, which is their ascending order.
- TurnBatches.PackTurns: does not model attention mask, position ids, reference logprobs and extra fields, which the code copies from the surviving row.
- Batch handlers of the iterator keep the rows; fetching blocks in the code where the model reports that no batch is left.
- BatchMerging.MergeBatches: models the trajectory numbers and one tensor; other lists are appended like it and scalars are summed.
- Token scales and advantages are one factor per turn in LossScales, as every stage multiplies a whole row.
- Advantages.ComputeGae: models one environment with normalisation off; the chunk-level reward sums and maxima before flattening are not modelled.
- Advantages.ComputeCriticFree: models one environment with normalisation off.
- Advantages.CalculateScore: models one environment; the reshape of the scores into groups is not modelled.
- DownSampling.WeightedGroupChoice: penalties are inputs instead of regular expressions over the texts.
- Real arithmetic stands for floating point; `round` is taken on exact quotients, and no reward is NaN.
- DownSampling.RolloutResult.DownSample: penalties are inputs instead of regular expressions over the texts, missing rewards are not modelled, and the remaining per-sample lists are filtered like the four modelled ones.
- Rebalance.TakeShare: does not model the checks of keys, types and shapes before gathering.
- Interventions.ExtractInterveneTraj: all fields of a trajectory have the same number of environments; the fields copied unchanged are not modelled.
- State that an exception leaves behind half-updated, where a contract says nothing about it.
- Policy losses, normalisation by standard deviation, runners, workers, environments and model code.
