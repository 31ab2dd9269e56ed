# Verification of Tidecoin's core algorithms

This project models the stateful algorithms at the core of the node in Dafny and proves what their comments,
self-checks and documentation promise. Hashes, random choices and clock readings are parameters or arbitrary choices, so
that everything holds for all of them.

- **Cluster linearization** (`FeeFrac` to `Linearize`, and the files beginning with `Post`). The dependency graph keeps
  its transitive closure incrementally. The spanning forest keeps cached top sets, feerates and reachable sets. On top of
  these stand the optimality certificate, the existence of optimal states, the improvement steps and the area they gain,
  the minimal split of chunks, the output order and the post-linearization over a linked list. Diagrams are compared at
  every feerate threshold.
- **The stack of coin caches** (files beginning with `Coins`), with DIRTY and FRESH flags and the linked list of flagged
  entries, against one flat map of unspent coins.
- **The check queue** (`CheckQueue`, `CheckQueueProgress`) as a step system of one master and any number of workers.
- **The address manager** (files beginning with `Addr`): five redundant indexes, the consistency check, and what holds
  over whole runs of the tried table.
- **Headers sync** (`HeaderWindows`, `Retargeting`, `HeadersSync`): two downloads, commitments, the lookahead buffer, and
  the sliding retarget window against the consensus rule.
- **Smaller cores**: the block tree with skip pointers (`BlockChain`), 256-bit arithmetic and the proof-of-work formula
  (`Limbs`, `LimbShifts`, `ArithUint256`), base 58 (`Positional`, `Base58`), the cuckoo cache (`CuckooCache`) and compact
  blocks (`ShortIdMatches`, `CompactBlocks`).

`dafny verify dfyconfig.toml` checks the whole project.

## Where the code differs from what is said about it

- `AddrEffects.GoodAtZero`: the address manager's check fails after a success is reported at time zero;
  `AddrEffects.GoodStamped` says exactly when.
- `CompactBlocks.RetryFails`: a second call of `FillBlock` after a shortage does not work in general, although the header
  is kept; `CompactBlocks.RetryRebuilds` says exactly when it does. The counters of found transactions are not reset
  either, so that they are right exactly for an object used for the first time.
- `CoinsStacks.FlushedBestBlock`: a flush of a cache that never learned a best block loses that of the level below;
  the lemma says exactly when.
- `CuckooCache.NextPlace`: the first displacement goes to the second of the eight places, where the comment says the first.
- `Retargeting.LateUnchangedRejected`: without retargeting the consensus rule asks every block for the target of the one
  before, but the window check of headers sync asks late blocks for the limit first; `Retargeting.RequiredIsAccepted` says
  exactly when they differ. No network of src/kernel/chainparams.cpp has both modes switched on.

## Model

| member | source | states |
|---|---|---|
| `Linearization.Linearize` | src/cluster_linearize.h:1816-1853 | the result is a topological order of the cluster; with a topological old linearization its diagram is nowhere below the old one; when it is reported optimal, no topological order has a point above its diagram and no chunk can be split at equal feerate |
| `StateOptimality.Certificate` | src/cluster_linearize.h:597-606 | if no active dependency has a top set of higher feerate than its chunk, then for every threshold no ancestor-closed set gains more than the chunks above the threshold do together |
| `ImproveSteps.Improve` | src/cluster_linearize.h:1087-1119 | splitting a chunk and merging its parts again keeps every invariant and the topological state; the diagram is never worse, and unless the parts merge with each other it is higher at the feerate of the chunk by at least the gain of its top part; only the chunks put in the queue may have become improvable |
| `Improving.ResultNeverWorse` | src/cluster_linearize.h:643-661 | after the upward and the downward merges the potential of the chunks is at every threshold at least what it was |
| `Improving.ResultStrictlyBetter` | src/cluster_linearize.h:706-710 | at the feerate of the chunk that was split the potential has grown by at least the gain of the top part over the chunk, which is positive |
| `Improving.ResultTopological` | src/cluster_linearize.h:643-661 | after both merge sequences no chunk depends on another of lower or equal feerate |
| `MergeCandidates.PickMergeCandidate` | src/cluster_linearize.h:1009-1054 | the candidate is a chunk that can be merged with, of extreme feerate among all such chunks; none is returned only if there is none |
| `MergeSequences.MergeSequence` | src/cluster_linearize.h:1070-1083 | merging goes on, best candidate first, until there is no candidate left; the chunks in between are untouched |
| `Optimizing.PickDependencyToSplit` | src/cluster_linearize.h:1146-1177 | the dependency found has a top set of higher feerate than its chunk; if none is found, the chunk has no such dependency |
| `MakingTopological.MakeTopological` | src/cluster_linearize.h:1235-1302 | it terminates, and then no chunk depends on a different one of lower or equal feerate |
| `Loading.LoadLinearization` | src/cluster_linearize.h:1221-1232 | from single transactions and a topological order, the state becomes topological and its diagram is nowhere below the points of that order |
| `Construction.Initialize` | src/cluster_linearize.h:1182-1216 | the initial state satisfies every invariant, with each transaction a chunk of its own and exactly the reduced parents as dependencies |
| `ForestUpdates.Activate` | src/cluster_linearize.h:818-887 | making a dependency active keeps the whole invariant of the spanning forest and merges exactly the two chunks |
| `ForestUpdates.Deactivate` | src/cluster_linearize.h:891-946 | making a dependency inactive keeps the whole invariant and splits exactly its chunk, at the stored top set |
| `ForestCore.ActivateSane` | src/cluster_linearize.h:1646-1768 | after the writes of an activation all recomputed values agree: spanning forest, partition into chunks, top sets, feerates and reachable sets |
| `ForestCore.DeactivateSane` | src/cluster_linearize.h:1646-1768 | the same after the writes of a deactivation |
| `Forests.TopIsComponent` | src/cluster_linearize.h:1646-1768 | a stored top set is the component of the parent once its dependency is cut: it is contained in every set that has the parent and is closed under the other active dependencies |
| `Forests.DeactivateUndoesActivate` | src/cluster_linearize.h:818-946 | cutting a dependency that was just made active restores the forest |
| `Minimality.PivotDecides` | src/cluster_linearize.h:615-627 | if all dependencies with a top set of the chunk's feerate have the pivot on the same side, no part of equal feerate has it on the other side |
| `Minimizing.MinimizeStep` | src/cluster_linearize.h:1363-1453 | a step keeps optimality, the order of chunks and the diagram; when it reports that nothing is left, no chunk can be split into parts of equal feerate |
| `Minimizing.StartMinimizing` | src/cluster_linearize.h:1343-1360 | every chunk is in the queue, at most once, or cannot be split |
| `Linearizing.GetLinearization` | src/cluster_linearize.h:1471-1617 | every transaction comes out once, parents before children; chunks come out greedily by feerate and rank among those whose dependencies are out, and so do the transactions within each chunk |
| `LinearizationQuality.OutputValid` | src/cluster_linearize.h:1471-1617 | the output lists every transaction once, parents before children |
| `LinearizationQuality.OutputNoWorse` | src/cluster_linearize.h:1471-1617 | the diagram of the output is nowhere below any order that the state's diagram covers |
| `LinearizationQuality.OutputOptimal` | src/cluster_linearize.h:597-606 | the output of an optimal state is at least as good as every topological order |
| `LinearizationQuality.OptimalDiagramExact` | src/cluster_linearize.h:1619-1631 | the diagram of an optimal state is that of the linearization made from it |
| `SpanningForest.SpanningForestState.constructor` | src/cluster_linearize.h:1182-1216 | the object starts with single transactions and the dependencies of the graph |
| `SpanningForest.SpanningForestState.StartOptimizing` | src/cluster_linearize.h:1305-1320 | every chunk outside the queue satisfies the optimality condition |
| `SpanningForest.SpanningForestState.PickChunkToOptimize` | src/cluster_linearize.h:1122-1143 | none is returned only if all chunks are optimal; otherwise it is a chunk, and every chunk outside it and the queue is optimal |
| `SpanningForest.SpanningForestState.OptimizeStep` | src/cluster_linearize.h:1323-1339 | a step keeps the topological state and never lowers the diagram; returning false means that all chunks are optimal |
| `SpanningForest.SpanningForestState.MinimizeStep` | src/cluster_linearize.h:1363-1453 | returning false means that no chunk can be split |
| `SpanningForest.GetDiagram` | src/cluster_linearize.h:1632-1640 | one feerate for each chunk, exactly those of the chunks, sorted from high to low |
| `Chunking.ChunkLinearization` | src/cluster_linearize.h:449-464 | the chunks are runs of the linearization with falling feerates, and no prefix of the linearization is above their diagram |
| `Chunking.LeastConcaveMajorant` | src/cluster_linearize.h:429-464 | that diagram is below every concave curve on or above the cumulative fee and size points |
| `PostLinearization.PostLinearize` | src/cluster_linearize.h:1855-2054 | the new order is topological and nowhere worse; its groups are connected and a chunking of it; for graphs in which every transaction has at most one child, or at most one parent, it is optimal; it is at least as good as an order from which a leaf was moved to the end |
| `PostPass.Insert` | src/cluster_linearize.h:1935-2030 | inserting a transaction into the list of groups, by merging with the group before or swapping with it, keeps the list linked, valid and at no threshold worse |
| `DepGraphs.DepGraph.AddTransaction` | src/cluster_linearize.h:136-149 | the new position is free and is its own only ancestor and descendant; the rest of the graph is unchanged |
| `DepGraphs.DepGraph.RemoveTransactions` | src/cluster_linearize.h:160-174 | the graph is restricted to the transactions left |
| `DepGraphs.DepGraph.AddDependencies` | src/cluster_linearize.h:180-201 | the new ancestor relation is the least reflexive transitive relation that contains the old one and the new edges, even if these close a cycle |
| `DepGraphs.DepGraph.GetReducedParents` | src/cluster_linearize.h:211-222 | the result is an antichain whose ancestors are all proper ancestors; in an acyclic graph it is the set of covered transactions |
| `DepGraphs.DepGraph.GetReducedChildren` | src/cluster_linearize.h:232-243 | the same for descendants |
| `DepGraphs.ReducedParentsAreChildren` | src/cluster_linearize.h:203-243 | the reduced parents and the reduced children are one relation |
| `DepGraphs.DepGraph.FeeRate` | src/cluster_linearize.h:249-254 | the total over a set of transactions |
| `CoinsList.AddFlagsEffect` | src/coins.h:132-144 | flagging an entry keeps the linked list exact: it gets the flagged entries, in order, and no others |
| `CoinsList.SetCleanEffect` | src/coins.h:180-187 | unflagging takes the entry out of the list and leaves the others linked |
| `CoinsCache.AddCoin` | src/coins.cpp:72-111 | the view gets the coin, or nothing changes on a throw or an unspendable script; the flags are right afterwards if and only if overwriting was allowed, the view had no coin there, or the cache itself has one |
| `CoinsCache.FreshMisapplied` | src/coins.cpp:72-111 | a concrete misuse: with a coin only below the cache, adding without overwriting and then spending brings the lower coin back |
| `CoinsCache.SpendEntry` | src/coins.cpp:130-150 | exactly the coin leaves the view, and the flags and the list stay right, whether the entry is erased or kept as spent |
| `CoinsCache.Uncache` | src/coins.cpp:274-287 | an entry is left there only if it is modified, and the view is unchanged |
| `CoinsFlush.BatchWrite` | src/coins.cpp:183-248 | the parent afterwards stands for what the child stood for; the exception for a misapplied FRESH flag is never thrown |
| `CoinsFlush.NextAndMaybeErase` | src/coins.h:284-300 | the cursor visits every listed entry once and leaves the list exact |
| `CoinsStacks.CoinsStack.GetCoin` | src/coins.cpp:48-70 | the unspent coin of the flat view, whatever is cached on the way |
| `CoinsStacks.CoinsStack.AddCoin` | src/coins.cpp:72-111 | the stack stays right exactly if the coin may be added on top of it |
| `CoinsStacks.CoinsStack.SpendCoin` | src/coins.cpp:130-150 | the coin leaves the topmost view and is handed out; no lower view changes |
| `CoinsStacks.CoinsStack.Flush` | src/coins.cpp:250-259 | the level below stands for what the top stood for, the topmost view is unchanged, and the top is empty |
| `CoinsStacks.CoinsStack.Sync` | src/coins.cpp:261-272 | the same, but unspent entries stay cached, without flags |
| `CoinsStacks.BatchWriteDb` | src/txdb.cpp:177-240 | the database afterwards holds exactly the view of the cache written to it |
| `CoinsStacks.FlushedBestBlock` | src/coins.cpp:173-177 | after a flush the level below reports the best block that the cache reported if and only if the cache had one, the level below had none, or that one is what the levels further down report |
| `CheckQueue.StepInv` | src/checkqueue.h:72-137 | every step of every thread keeps the invariant: the counts of outstanding checks and of idle and joined threads are exact, every failed check of the session is accounted for, and a master waits without a notification only while other threads hold batches |
| `CheckQueue.RunInv` | src/checkqueue.h:72-189 | it holds in every state of every run |
| `CheckQueue.CompleteIsExact` | src/checkqueue.h:166-189 | in every run, completing returns nothing exactly if all checks of that session pass, and otherwise the result of one that failed |
| `CheckQueue.ReturnResets` | src/checkqueue.h:96-108 | when the master returns, no check, result or count of the session is left |
| `CheckQueue.SomethingCanHappen` | src/checkqueue.h:72-137 | there is no deadlock: as long as the master is in Complete, some thread can go on without a spurious wakeup |
| `AddrMan.AddrManImpl.constructor` | src/addrman.cpp:109-125 | the empty tables pass the check |
| `AddrMan.AddrManImpl.RemoveFromNew` | src/addrman.cpp:496-506 | the scan over the buckets removes every reference of the entry, wherever it starts and breaks off |
| `AddrMan.AddrManImpl.MakeTried` | src/addrman.cpp:491-548 | the entry moves to its slot in the tried table without references; an entry evicted from there gets its own place in the new table, and whatever is there loses it |
| `AddrMan.AddrManImpl.ClearNew` | src/addrman.cpp:473-489 | one reference goes, and the entry with it if it was the last |
| `AddrMan.AddrManImpl.AddSingle` | src/addrman.cpp:550-624 | the exact outcome of an announcement, for known and unknown addresses; the tables stay consistent and the tried table is unchanged |
| `AddrMan.AddrManImpl.Add` | src/addrman.cpp:681-691 | any number of announcements keep the check at zero, and no tried entry leaves |
| `AddrMan.AddrManImpl.MarkGood` | src/addrman.cpp:626-679 | the exact outcome of a success: refreshed, moved to tried, or noted as a collision |
| `AddrMan.AddrManImpl.Good` | src/addrman.cpp:1186-1193 | no entry leaves the tried table; the check stays at zero if and only if the time is right for the address |
| `AddrEffects.GoodStamped` | src/addrman.cpp:626-679 | the timestamps stay right exactly at a positive time, for an unknown address, or at time zero if the entry stays out of the tried table because its slot is taken |
| `AddrEffects.GoodAtZero` | src/addrman.cpp:626-679 | a concrete failure: at time zero with a free slot the entry in the tried table looks as if never reached |
| `AddrMan.AddrManImpl.Attempt` | src/addrman.cpp:693-711 | only the entry tried changes; the check stays at zero if and only if the time is not negative or the address is unknown |
| `AddrMan.AddrManImpl.Connected` | src/addrman.cpp:877-894 | the time of the entry advances only after twenty minutes; the check stays at zero |
| `AddrMan.AddrManImpl.SetServices` | src/addrman.cpp:896-910 | only the services of the entry change; the check stays at zero |
| `AddrMan.AddrManImpl.ResolveCollisions` | src/addrman.cpp:912-973 | no slot of the tried table becomes empty, and an entry leaves only if it was not reached for four hours at one of the clock readings; the check stays at zero at positive times |
| `AddrMan.AddrManImpl.SelectTriedCollision` | src/addrman.cpp:975-1001 | the entry returned is the one in the tried slot of a waiting entry, which is never empty |
| `AddrMan.AddrManImpl.GetAddr` | src/addrman.cpp:812-851 | entries are handed out at most once, only suitable ones, at most the limit, and all suitable ones if the limit is not reached; only the random order changes |
| `AddrMan.AddrManImpl.Size` | src/addrman.cpp:1026-1046 | the number of entries on the network and in the table asked for |
| `AddrCheck.CheckAddrman` | src/addrman.cpp:1063-1166 | it returns zero exactly if the entries, both tables and all counts are as they should be |
| `AddrCheck.ConsistentPasses` | src/addrman.cpp:1063-1166 | consistent tables with proper timestamps pass |
| `AddrCheck.CheckedIffStamped` | src/addrman.cpp:1063-1166 | of consistent tables exactly those with proper timestamps pass |
| `HeadersSync.HeadersSyncState.ProcessNextHeaders` | src/headerssync.cpp:74-145 | a first download goes on exactly while it may; a second one is stored exactly while linked, permitted and matching the commitments of the same heights; what is released are full headers of a prefix of it, with the right starting height; all but the last 15009 headers are released until the work is reached and all of them then |
| `HeadersSync.HeadersSyncState.ValidateAndProcessSingleHeader` | src/headerssync.cpp:187-232 | the header is accepted exactly if the difficulty check on the true recent targets and median times allows it and there are not too many commitments |
| `HeadersSync.HeadersSyncState.ValidateAndStoreRedownloadedHeader` | src/headerssync.cpp:234-302 | the header is stored exactly if the download with it may be; the previous target and time used are those of the header just before |
| `HeadersSync.HeadersSyncState.CheckCommitment` | src/headerssync.cpp:270-291 | the front of the queue is the bit stored for the same height in the first download |
| `HeadersSync.HeadersSyncState.PopHeadersReadyForAcceptance` | src/headerssync.cpp:304-318 | each header comes out with the hash of its predecessor, as it was received |
| `HeadersSync.ReleasedIsBacked` | src/headerssync.cpp:18-23 | the 15009 headers after a released one hold at least 23 commitments, all matching the first download |
| `HeadersSync.HeadersSyncState.AllReleasedBacked` | src/headerssync.cpp:304-318 | so it is for every header the object has released while short of the work |
| `HeadersSync.SameChainCompletes` | src/headerssync.cpp:234-302 | a peer that serves the same chain again, and perhaps more, has all of it stored and released |
| `HeadersSync.ConsensusPermitted` | src/headerssync.cpp:439-491 | a chain of headers with the targets of the consensus rule passes all difficulty checks if and only if it has no late header of unchanged target in the mode without retargeting |
| `HeaderWindows.Push` | src/headerssync.cpp:416-437 | after one more header the buffers hold the last targets, the true median times and the last times of the longer chain |
| `HeaderWindows.Reset` | src/headerssync.cpp:391-414 | filled from the last headers only, they hold what belongs to the whole chain |
| `HeaderWindows.MedianIsMiddle` | src/chain.h:283-295 | at most half of the times are below the median, and more than half up to it |
| `Retargeting.RequiredIsAccepted` | src/headerssync.cpp:439-491 | with exact buffers the check accepts the target of the consensus rule if and only if it is not that of a late block, without retargeting and above the window after activation, after a block whose target is not the limit |
| `Retargeting.LateUnchangedRejected` | src/headerssync.cpp:449-458 | a concrete late header, with the parameters of the regression test network and the late-block rule switched on, whose required target is rejected |
| `Retargeting.PermittedDifficultyTransition` | src/pow.cpp:288-328 | the check of one step of the target, from the activation height on, computed limb by limb is the one stated over numbers |
| `Retargeting.SameTargetPermitted` | src/pow.cpp:288-328 | an unchanged target is permitted wherever everything is, and as long as it is within the limit and its scaling does not overflow 256 bits |
| `Retargeting.GetNextWorkRequiredNew` | src/pow.cpp:132-171 | walking back over the window gives the target of the rule, stated over the chain |
| `Retargeting.CheckWindowAwareRetarget` | src/headerssync.cpp:439-491 | the check computed limb by limb is the one stated over numbers |
| `BlockChain.GetAncestor` | src/chain.cpp:88-113 | following skips gives what following the predecessors one by one gives, it terminates, and a predecessor always exists |
| `BlockChain.SkipSmaller` | src/chain.cpp:74-86 | a skip goes strictly down |
| `BlockChain.BlockIndex.constructor` | src/chain.cpp:120-124 | a block put on a well-linked one is well linked, with its skip pointer at the right ancestor |
| `BlockChain.Chain.SetTip` | src/chain.cpp:21-29 | despite the early exit every height holds the ancestor of the new tip |
| `BlockChain.Chain.FindFork` | src/chain.cpp:55-64 | the result is the highest block shared with the chain, or none if there is none |
| `BlockChain.LastCommonAncestor` | src/chain.cpp:158-175 | the result is the highest common ancestor |
| `BlockChain.LocatorEntries` | src/chain.cpp:31-48 | ancestors at exponentially growing distances down to genesis, their number logarithmic in the height |
| `Limbs.Add` | src/arith_uint256.h:129-139 | addition modulo 2^32 to the number of limbs, without overflow of 64 bits in between |
| `Limbs.Negate` | src/arith_uint256.h:71-78 | negation modulo the same |
| `Limbs.Sub` | src/arith_uint256.h:141-145 | subtraction modulo the same |
| `Limbs.MulSmall` | src/arith_uint256.cpp:48-57 | multiplication by 32 bits modulo the same, without overflow of 64 bits in between |
| `Limbs.Mul` | src/arith_uint256.cpp:60-73 | multiplication modulo the same, without overflow of 64 bits in between |
| `Limbs.CompareTo` | src/arith_uint256.cpp:102-111 | the order of the numbers |
| `LimbShifts.ShiftLeft` | src/arith_uint256.cpp:14-28 | multiplication by a power of two, modulo the same, for every shift |
| `LimbShifts.ShiftRight` | src/arith_uint256.cpp:31-45 | division by a power of two, rounded down, for every shift |
| `LimbShifts.Bits` | src/arith_uint256.cpp:156-168 | the position of the highest bit set |
| `ArithUint256.Div` | src/arith_uint256.cpp:76-99 | the quotient, rounded down; an error exactly for a zero divisor |
| `ArithUint256.SetCompact` | src/arith_uint256.cpp:175-193 | the stored value is the magnitude modulo 2^256, the overflow flag is set exactly if the magnitude does not fit, and the sign counts only for values other than zero |
| `ArithUint256.GetCompact` | src/arith_uint256.cpp:195-216 | the result stands for the largest number not above that has a compact form; its mantissa leaves the sign bit free and its size fits |
| `ArithUint256.GetBlockProof` | src/chain.cpp:126-139 | 2^256 / (target + 1), rounded down, and zero for targets that are negative, zero or too large; the division is never by zero |
| `Base58.EncodeBase58` | src/base58.cpp:89-127 | a one for each leading zero byte and the number in base 58; nothing is carried out of the buffer |
| `Base58.DecodeBase58` | src/base58.cpp:40-135 | the bytes of the string between spaces, or a failure exactly for a zero character, a character that is no digit or too many bytes; nothing is carried out of the buffer |
| `Base58.DecodeEncode` | src/base58.cpp:40-127 | decoding undoes encoding for every byte string within the length limit |
| `Base58.EncodeDecode` | src/base58.cpp:40-127 | encoding undoes decoding up to the spaces around the string |
| `Base58.EncodeRoom` | src/base58.cpp:98-100 | 138/100 digits in base 58 and one more have room for any number of bytes |
| `Base58.DecodeRoom` | src/base58.cpp:53-55 | 733/1000 bytes and one more have room for any number of digits |
| `Base58.MultiplyAdd` | src/base58.cpp:64-72 | the step in place multiplies and adds, and leaves no leading zero within the length |
| `CuckooCache.Cache.Insert` | src/cuckoocache.h:397-448 | every element stays in one of its eight places; apart from what the end of an epoch erases, at most one element is lost, be it another or the new one; the elements of the current epoch stay bounded |
| `CuckooCache.Cache.EpochCheck` | src/cuckoocache.h:286-318 | exactly the elements of the epoch before are erased, if the counter has run out and the epoch is full, and nothing otherwise; there is room in the epoch for one more element |
| `CuckooCache.Cache.Contains` | src/cuckoocache.h:474-484 | an element other than the default one, which fills unused places, is found exactly if it is in the table; erasing takes only it from those kept |
| `CuckooCache.Cache.constructor` | src/cuckoocache.h:336-349 | a new cache is empty, has at least two places, and an epoch of 45 percent of them but at least one |
| `CompactBlocks.PartiallyDownloadedBlock.InitData` | src/blockencodings.cpp:55-176 | exactly which messages are invalid or fail; after success the prefilled transactions are in their places, every place holds what the transactions looked at make of it, and if no transaction was counted before, every place with exactly one transaction for it is filled; the counts are those of the places filled if and only if they were zero before |
| `CompactBlocks.PartiallyDownloadedBlock.FillBlock` | src/blockencodings.cpp:186-228 | the block of what was found and what was missing, exactly if the number fits and the block is not mutated; after a shortage the places before it are empty |
| `CompactBlocks.NextFree` | src/blockencodings.cpp:92-94 | the scan for the next free place never leaves the block |
| `CompactBlocks.BlockRebuilt` | src/blockencodings.cpp:20-30 | for the compact form of a block, if no short identifier is confused, what was found and the missing transactions in order give the block |
| `CompactBlocks.PartiallyDownloadedBlock.Rebuilt` | src/blockencodings.cpp:186-228 | so it is for the object after it has taken up the compact form |
| `CompactBlocks.RetryRebuilds` | src/blockencodings.cpp:196-204 | after a shortage the right transactions rebuild the block if and only if none of the places up to the shortage had been filled |
| `CompactBlocks.RetryFails` | src/blockencodings.cpp:196-204 | a concrete block of two for which they do not |
| `Linearization.Optimize` | src/cluster_linearize.h:1834-1839 | the loop never makes the state worse than the order to be kept up with; leaving it below the cost limit means that the state is optimal |
| `Linearization.Minimize` | src/cluster_linearize.h:1843-1851 | the same; done means that all chunks are optimal and cannot be split |
| `Optimality.NoGain` | src/cluster_linearize.h:597-606 | a part of an optimal chunk that contains the parents of its members has at most the feerate of the chunk |
| `Optimality.AllOrNothing` | src/cluster_linearize.h:597-606 | at every threshold such a part gains no more than all of the chunk or nothing of it |
| `ForestUpdates.GetReachable` | src/cluster_linearize.h:805-814 | the transactions outside a set that it depends on, and those that depend on it |
| `MergeSequences.MergeChunks` | src/cluster_linearize.h:950-993 | two chunks linked by a dependency become one, and no other changes; two optimal chunks of equal feerate give an optimal one |
| `MergeSequences.MergeStep` | src/cluster_linearize.h:1059-1066 | the chunk merges with the best candidate, and nothing changes only if there is none |
| `Minimality.NoPartOfTop` | src/cluster_linearize.h:672-686 | what was found out about the pivot still holds for the top of a split |
| `Minimality.NoPartOfBottom` | src/cluster_linearize.h:672-686 | the same for the bottom |
| `LinearizationQuality.AtLeastTheDiagram` | src/cluster_linearize.h:1621-1622 | the output is at least as good as the diagram of the state |
| `SpanningForest.SpanningForestState.LoadLinearization` | src/cluster_linearize.h:1221-1232 | the object becomes topological and covers the order loaded |
| `SpanningForest.SpanningForestState.MakeTopological` | src/cluster_linearize.h:1235-1302 | the object becomes topological |
| `SpanningForest.SpanningForestState.StartMinimizing` | src/cluster_linearize.h:1343-1360 | every chunk is queued or cannot be split |
| `SpanningForest.SpanningForestState.GetLinearization` | src/cluster_linearize.h:1471-1617 | the greedy order is topological |
| `PostLinearization.RaisedNoWorse` | src/cluster_linearize.h:1866-1871 | being at least as good as an order includes being at least as good as it was before a fee was raised |
| `PostLinearization.TreeShapes` | src/cluster_linearize.h:1864-1865 | if every transaction has at most one child, or parent, those on one side of it form a chain |
| `DepGraphs.ClosureWithEdges` | src/cluster_linearize.h:180-201 | what the two loops write is that closure |
| `DepGraphs.ReducedParentsUnique` | src/cluster_linearize.h:203-222 | in an acyclic graph there is only one such antichain |
| `DepGraphs.ReducedChildrenUnique` | src/cluster_linearize.h:224-243 | the same for descendants |
| `DepGraphs.ClosedUnderParents` | src/cluster_linearize.h:203-222 | a set is closed under ancestors exactly if it is closed under reduced parents |
| `CoinsList.EraseEffect` | src/coins.h:172-187 | erasing an entry takes it out of the list and keeps the others in order |
| `CoinsCache.Enter` | src/coins.cpp:48-64 | caching a coin of the base changes neither the view nor the list |
| `CoinsCache.FreshIsSafe` | src/coins.cpp:76-104 | FRESH is set although the base has the coin exactly where it may not be added |
| `CoinsFlush.WriteEntry` | src/coins.cpp:184-245 | an entry of the child written to the parent changes its view exactly there |
| `CoinsStacks.GetCoinAt` | src/coins.cpp:66-70 | at every level the coin of the flat view, with all views unchanged |
| `CoinsStacks.FetchCoin` | src/coins.cpp:48-64 | an entry is found exactly if the view has the coin or the cache an entry; all views are unchanged |
| `CoinsStacks.SyncedOk` | src/coins.cpp:261-272 | what stays cached agrees with what was written |
| `CoinsStacks.CoinsStack.Push` | src/coins.cpp:37-42 | a new cache on top stands for what the one below stands for |
| `CoinsStacks.CoinsStack.Pop` | src/coins.cpp:37-42 | dropping the top without a flush leaves the levels below as they are |
| `CoinsStacks.CoinsStack.Uncache` | src/coins.cpp:274-287 | no view changes |
| `CoinsStacks.CoinsStack.Write` | src/coins.cpp:250-272 | the level below, cache or database, stands for what the top stood for and takes its best block |
| `AddrMan.AddrManImpl.Create` | src/addrman.cpp:416-430 | a new entry under the next identifier, at the end of the random order |
| `AddrMan.AddrManImpl.SwapRandom` | src/addrman.cpp:432-454 | two entries exchange their places in the random order and know them |
| `AddrMan.AddrManImpl.Delete` | src/addrman.cpp:456-471 | the entry leaves all indexes |
| `AddrMan.AddrManImpl.Evict` | src/addrman.cpp:514-540 | the entry in the way goes back to its place in the new table, and what was there loses that reference |
| `AddrMan.AddrManImpl.Place` | src/addrman.cpp:601-622 | a place is taken exactly if it is free or what is there may be overwritten; a new entry without a place is deleted |
| `AddrMan.AddrManImpl.ResolveCollision` | src/addrman.cpp:919-971 | an entry leaves the tried table only if it was not reached for four hours |
| `AddrEffects.GoodKeepsTried` | src/addrman.cpp:626-679 | with testing first no entry leaves the tried table |
| `HeadersSync.HeadersSyncState.constructor` | src/headerssync.cpp:28-52 | a sync starts in its first download with nothing seen |
| `HeadersSync.HeadersSyncState.Finalize` | src/headerssync.cpp:57-69 | the state is final, and the commitments, the buffered headers and their hashes, the last header and the height are cleared |
| `HeadersSync.HeadersSyncState.StartRedownload` | src/headerssync.cpp:173-181 | the buffers are those of the start of the chain again |
| `HeadersSync.HeadersSyncState.ValidateAndStoreHeadersCommitments` | src/headerssync.cpp:147-185 | all headers are taken in exactly if the first one connects and each is acceptable; with enough work the second download begins |
| `HeadersSync.HeadersSyncState.Store` | src/headerssync.cpp:293-301 | the buffers follow the longer download |
| `HeadersSync.HeadersSyncState.ProcessRedownload` | src/headerssync.cpp:109-140 | exactly what may be stored is stored; the height given is that of the first header released |
| `HeaderWindows.SuffixSuffices` | src/headerssync.cpp:391-414 | the end of a chain, eleven headers longer than the window needs, determines the buffers |
| `Retargeting.CalculateNextWorkRequired` | src/pow.cpp:173-203 | the new target computed limb by limb is the damped, clamped and limited one stated over numbers |
| `Retargeting.TotalTarget` | src/headerssync.cpp:460-464 | the sum of the targets, modulo 2^256 |
| `Retargeting.Close` | src/headerssync.cpp:474-483 | the comparison with a slack of four, including the wrap-around of the upper end |
| `BlockChain.LowestOne` | src/chain.cpp:75 | what is taken away is the largest power of two that divides the number |
| `Limbs.Not` | src/arith_uint256.h:63-69 | the complement |
| `Limbs.Increment` | src/arith_uint256.h:167-174 | addition of one modulo the same |
| `ArithUint256.CompactLargest` | src/arith_uint256.cpp:195-216 | no number with a compact form lies strictly between the result and the number |
| `CuckooCache.FastRangeBelow` | src/cuckoocache.h:240-250 | the places computed from hashes are within the table |
| `CuckooCache.Cache.Refresh` | src/cuckoocache.h:402-410 | an element that is there is kept, and no other changes |
| `CuckooCache.Cache.Displace` | src/cuckoocache.h:411-445 | at most one element is lost along the displacements |
| `CompactBlocks.PlacePrefilled` | src/blockencodings.cpp:68-84 | the differential indices are accepted exactly if they make sense, and then the transactions are at their places |
| `CompactBlocks.AssignPlaces` | src/blockencodings.cpp:90-108 | the identifiers get the free places in order, unless a bucket is crowded |
| `CompactBlocks.SearchPool` | src/blockencodings.cpp:116-141 | each place holds a transaction exactly if one of those looked at has its identifier and no second one has; the search stops early only when the count is that of the places |
| `CompactBlocks.SearchExtra` | src/blockencodings.cpp:143-171 | the same together with the pool, where a second copy of a transaction does not contend |
| `CompactBlocks.FindTransactions` | src/blockencodings.cpp:86-171 | the search goes ahead exactly if the identifiers are distinct and no bucket is crowded |
| `CompactBlocks.Assemble` | src/blockencodings.cpp:194-204 | the places are filled in order exactly if there are enough transactions; otherwise those passed are left empty |
| `CompactBlocks.FillRebuilds` | src/blockencodings.cpp:194-204 | filling any part of a block with the rest gives the block |
| `StateAreas.AreaImproves` | src/cluster_linearize.h:706-710 | a step that is nowhere worse and better by some gain at the feerate of a chunk raises twice the area under the diagram by at least that gain; with the contract of Improve, the area grows by at least half the gain of the split |
| `StateAreas.AreaStays` | src/cluster_linearize.h:706-710 | states neither of which is worse than the other, as after a self-merge, have the same area |
| `StateAreas.GainOfParts` | src/cluster_linearize.h:706-710 | the gain of a split is the difference of the feerates of its parts times both sizes |
| `DiagramAreas.AreaIsSpread` | src/cluster_linearize.h:706-710 | twice the area under a concave curve is its fee times its size and what its chunks gain over each other |
| `DiagramAreas.SpreadSymmetric` | src/cluster_linearize.h:706-710 | what the chunks of one curve gain over those of another differs from the opposite only by the gain of the ends |
| `OptimalStates.OptimalStateExists` | src/cluster_linearize.h:602-606 | for every graph there is a sane state over it that is topological and has no active dependency with a top set of higher feerate than its chunk |
| `OptimalStates.Realized` | src/cluster_linearize.h:602-606 | every spanning forest of the dependencies is that of some sane state |
| `OptimalStates.ActivateUndoesDeactivate` | src/cluster_linearize.h:818-946 | activating a dependency that was just deactivated restores the forest |
| `OptimalForests.OptimalExists` | src/cluster_linearize.h:602-606 | every graph has a spanning forest with strictly topological chunks and no higher top set |
| `BalancedForests.FeasibleExists` | src/cluster_linearize.h:602-606 | if no set that contains the parents of its members has positive weight and all together weigh nothing, some spanning forest has chunks of no weight and top sets of none or negative weight |
| `PostLinearization.GroupsAreChunks` | src/cluster_linearize.h:1862 | the connected groups of the result are a chunking of it: concave, nowhere below it, and touching it at their ends |
| `CheckQueueProgress.Progress` | src/checkqueue.h:79-136 | while the master is in Complete, every step that is not its return lowers the work left, except for a thread that wakes up for nothing, which changes nothing |
| `CheckQueueProgress.CanProgress` | src/checkqueue.h:79-136 | as long as the master is in Complete, a step that is not futile is possible |
| `CheckQueueProgress.CompleteReturns` | src/checkqueue.h:164-169 | in every run Complete returns before there were more useful steps than work left when it began |
| `ShortIdMatches.PoolStep` | src/blockencodings.cpp:118-134 | one more transaction of the pool leaves a place with what it should hold: the first match fills it and the second empties it for good |
| `ShortIdMatches.ExtraStep` | src/blockencodings.cpp:143-165 | the same for an extra transaction, where only a different one contends |
| `CompactBlocks.MatchIsFound` | src/blockencodings.cpp:116-171 | a search that began with no count fills every place that has exactly one transaction, although it may stop early |
| `CompactBlocks.PartiallyDownloadedBlock.FullSearch` | src/blockencodings.cpp:116-171 | after a search through everything exactly the places with one transaction are filled, and those with several are empty |
| `CompactBlocks.PartiallyDownloadedBlock.KnownAreFound` | src/blockencodings.cpp:116-171 | if no identifier is confused, no transaction of the block that the pool or the extra ones have is missing |
| `CompactBlocks.PartiallyDownloadedBlock.LookFor` | src/blockencodings.cpp:86-171 | the search of the object goes ahead exactly if the identifiers are distinct and no bucket is crowded, and adds to the counts the places filled |
| `CuckooCache.NextPlace` | src/cuckoocache.h:435 | the next displacement goes to the place after the last one, and to the second place if there is no last one; with different places it never moves what was just put in |
| `CoinsStacks.FlushLosesBestBlock` | src/coins.cpp:173-177 | a concrete stack whose best block is lost by a flush |

## Left out

- Integer widths: fees and sizes are unbounded integers, so overflow of 64-bit fees and 32-bit sizes is not modelled;
  neither is the wrap-around of chain work in headers sync at 2^256, of counters and of identifiers.
- Random picks and queues: heaps, bit sets, deques and shuffles are sets and sequences with arbitrary choices; the cost
  model of the linearization is an arbitrary bound on the number of steps, and nothing is said about running time.
- SpanningForest.SpanningForestState.OptimizeStep: the vectors of set information and transaction data are one value that
  the object replaces, not arrays updated in place; the same holds for the other operations of the spanning forest.
- PostPass.Insert: the entries of the linked list are a sequence that is replaced, not an array updated in place.
- Linearization.Linearize: an old linearization that is not topological is only required to be one of the cluster's
  transactions; nothing is promised about quality then, as in the source.
- ChunkLinearizationInfo, FindConnectedComponent, AppendTopo and the remapping constructor of DepGraph would only add easy
  members.
- Coins: memory accounting, EmplaceCoinInternalDANGER, sibling caches on one parent and interrupted database writes.
- Check queue: the stop path, and mutexes and condition variables beyond atomic steps with wait and notify.
- Address manager: Select_, GetChance, GetEntries_, FindAddressEntry_, serialization and the null test of the key; slots
  are maps from occupied slots, and the error numbers of the check are not told apart.
- HeadersSync: the auxiliary proof of a header is dropped before anything compared here; locators and logging. The work of
  a target is a parameter.
- Retargeting.PermittedDifficultyTransition: only the branch from the activation height on, as the window check never calls
  it below.
- Retargeting.RequiredIsAccepted: the rule before the activation height (GetNextWorkRequiredOld) is not modelled, as the
  check accepts everything there; without retargeting an unchanged target has to be a permitted step, as
  Retargeting.SameTargetPermitted shows for the only network in that mode.
- The word "gain" of src/cluster_linearize.h:710 is not defined there; it is taken as in StateAreas.GainOfParts.
- Block tree: skip pointers are set when a block is created, and FindEarliestAtLeast is not modelled.
- CompactBlocks.PartiallyDownloadedBlock.InitData: requires at most 65535 transactions, which reading a message enforces
  (src/blockencodings.h:124-126); the rejection of uneven hash buckets is an arbitrary choice at each identifier.
- Compact blocks: transactions are identified with their witness hashes; DifferenceFormatter is not modelled.
- Cuckoo cache: setup_bytes, the limit on the depth as a logarithm, and concurrent lookups.
- Base 58 with checksum, and bech32, would only add easy members.
