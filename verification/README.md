# A verified model of CalvinFS

CalvinFS keeps file-system metadata in a replicated, deterministic store: requests are queued, batched into blocks, ordered by
consensus, split per shard and executed by every shard in the same order. This project models its three cores and the pieces
they stand on, and proves what they are for.

**The B-tree** (`src/btree/btree.h`). `BTreeNode.Node` is the node class with its value and child arrays, counts, parent
pointer and position, and the in-place operations on it; `BTree.BTree` is the tree with its insertion, erasure, iteration and
searches. The tree's shape is a predicate over the heap (`BTreeShape.Tree`): every node covers a stretch of the in-order
sequence `elems`, a leaf's values or an inner node's children and delimiters tile that stretch, parent and position point back,
counts are between 1 and the node's capacity, all leaves are at height 0, the root holds leftmost, rightmost and size. The
node operations are proved against two neighbouring rows joined by their delimiter; `BTreeResplit`, `BTreeMerge`,
`BTreeSplit`, `BTreeRoot` and `BTreeEdit` prove that what each leaves behind is again a tree over the same sequence (or over
the edited one); `BTreeRecut`, `BTreeFuse`, `BTreeHalve` and `BTreeRegrow` connect the methods with those facts;
`BTreeSteps`, `BTreeRootSteps`, `BTreeRoom` and `BTreeErase` are the tree's own steps; `BTreeContents` and `BTreeMeaning` say
what the sequence and the shape mean. An iterator is a node and a position; `Points` says which gap of the sequence it is at,
`Stands` that it is where the iterator operations leave one (`end()` being one past the last value of the rightmost leaf).

**Metadata execution** (`src/fs/metadata_store.cc`). `Metadata` says what each action reads, writes and answers;
`MetadataStore` is the code, proved to do that; `MetadataEffects` says what becomes of the whole store and of the bytes of files; `MetadataLaws` proves footprints and commutation; `Namespace` proves exactly
which actions keep the directory tree, and `Hazards` reaches each of the others; `DistributedExecution` is the cluster, as a transition system whose messages arrive in
any order, proved to compute what one store would; `DistributedContext` is the code of one participant. A participant is a
machine together with an origin, as in the low-latency system; in the original system there is one origin.
`ParticipantReplay` shows that participants that see only their own part of the log do the same. `FileBytes` says what files
read as, `ResizeWraps` reaches a file that a resize makes too long, `BlockIds` says which block ids coincide, and `Appends` what that means for machines that append to files at once.

**The log** (`src/fs/block_log.h`, `src_lowlatency/fs/block_log.h`). `ActionLog` and `LogReplay` are replay with versions,
`Voting` is when a block is handed to consensus, `AtomicQueue` and `AtomicQueueSteps` are the request queue, alone and with its
two threads interleaved, and `AtomicQueueLimit` is how many elements it can take. `LowLatency` is routing and the low-latency handlers; `LowLatencyOrder`, `LowLatencySteps`,
`LowLatencyDelivery`, `LowLatencyClients`, `LowLatencyProgress`, `LowLatencyEnds`, `LowLatencyShards` and
`LowLatencyExecution` are the system of replicas with one log each, what it delivers, who answers the clients, that it goes on
and ends, and what executing it gives; `TotalOrder` weaves the
logs into one order. `GlobalBarrier`, `Placement` and `Varint` are the supporting pieces, `Collections`, `Numbers` and `Paths` shared facts.

## What turned out

- The check in `ParentDir` for a path without a slash compares a 32-bit offset with the 64-bit `npos` and never fails there, so
  such a path is its own parent (`Paths.NoSlashIsOwnParent`); the low-latency copy keeps 64 bits and dies. On every path with a
  slash they agree (`Paths.ParentDirsAgree`).
- Some actions that succeed break the directory tree. `Namespace.Hazard` is the exact condition: an action on a tree leaves a
  tree if and only if it has no hazard (`Namespace.TreeKept`). `Hazards` gives for each hazard a run from the first store that
  meets it, such as creating "/a" and renaming it to "/b".
- `Resize` to zero changes nothing (`FileBytes.ResizeToZeroKeepsBytes`). Resizing to a positive size gives exactly that size if
  and only if the 64-bit running total of the part lengths does not wrap before the size is reached (`FileBytes.ResizedLength`);
  a new file resized to 2^64 - 2, appended 4 bytes to and resized to 2^64 - 1 gets almost twice that length
  (`ResizeWraps.ResizeTooLong`).
- Versions pass through a C++ `int`: a block's first version survives exactly below 2^31 and in the top 2^31 of 64 bits
  (`ActionLog.IntKeepsVersion`). An action's version is its place in the log if and only if its block begins at such a version
  and the place fits 64 bits (`ActionLog.VersionIsPlace`), so a block that begins below 2^31 and ends above it is right; a log of
  2^31 actions in two blocks, numbered from 1, is not (`ActionLog.VersionLost`).
- Block ids keep the low 63 bits of the numbers that `GetGUID` gives. The ids that the machines of a cluster draw with counters
  from 1000 up to N are pairwise different if and only if there are at most 2^63 such numbers (`BlockIds.DifferentIffFits`), and
  none is the id of the all-zero block if and only if no multiple of 2^63 is among them (`BlockIds.NoneZeroIffSkips`). Exactly
  then every run of appends reads right (`Appends.SafeIffBounded`); past the bound a run overwrites another file's block.
- The request queue takes 2^31 - 1 elements. The push that finds it full then doubles the 32-bit size to 0, empties the vector
  and writes out of bounds. In any interleaving a push can come to its end if and only if none has found the queue so full
  (`AtomicQueueLimit.EndsIffNeverOverfilled`); beginning pushes whenever there are fewer than n elements is safe if and only
  if n < 2^31 (`AtomicQueueLimit.SafeIffBelowLast`), and a run from the empty queue reaches the failure (`OneTooMany`).
- A request that crosses replicas is answered by replica 0 alone if it involves it, and by every replica it involves if not
  (`LowLatencyClients.AnsweredBy`).
- A Lookup run through `Run` is not answered: an action with an empty writeset returns before it (`MetadataStore.MetadataStore.Run`).

## Model

| member | source | states |
|---|---|---|
| BTreeNode.Node.InsertValue | src/btree/btree.h:1419-1436 | inserting at i puts the value into the row and a gap for a child behind it; the children right of it know their new positions |
| BTreeNode.Node.RemoveValue | src/btree/btree.h:1438-1454 | removing value i removes it and the child right of it from the rows and renumbers the children behind |
| BTreeNode.Node.RebalanceRightToLeft | src/btree/btree.h:1456-1501 | the joint row left ++ delimiter ++ right is cut toMove later: both sides, the delimiter and the children are exactly its parts, and the moved children know their new parent and position |
| BTreeNode.Node.RebalanceLeftToRight | src/btree/btree.h:1503-1546 | the same joint row cut toMove earlier |
| BTreeNode.Node.Split | src/btree/btree.h:1548-1587 | the row is cut by the biased rule (empty, all, or half, by insert position) into the node, the delimiter that goes to the parent, and the new node |
| BTreeNode.Node.SplitShares | src/btree/btree.h:1551-1563 | at the beginning nothing stays on the left, at the end nothing goes right, otherwise the sides have as many values or the right one more |
| BTreeNode.Node.Merge | src/btree/btree.h:1589-1619 | the left node gets the whole joint row, and the parent loses the delimiter and the right child |
| BTreeNode.Node.Swap | src/btree/btree.h:1621-1658 | two nodes exchange counts, values and children, whichever is longer, and the children follow their parents |
| BTreeResplit.ResplitKeepsTree | src/btree/btree.h:1456-1546 | after moving values between siblings the heap is again a well-formed tree over the same in-order sequence |
| BTreeMerge.MergeKeepsTree | src/btree/btree.h:1589-1619 | after a merge the heap without the right node is a well-formed tree over the same sequence |
| BTreeSplit.SplitKeepsTree | src/btree/btree.h:1548-1587 | after a split the heap with the new node is a well-formed tree over the same sequence |
| BTreeEdit.InsertKeepsTree | src/btree/btree.h:1419-1436 | a value put into a leaf makes a tree over the sequence with that value inserted in that gap |
| BTreeEdit.RemoveKeepsTree | src/btree/btree.h:1438-1454 | a value taken from a leaf makes a tree over the sequence without it |
| BTreeEdit.ExchangeKeepsTree | src/btree/btree.h:1863-1871 | exchanging a delimiter with the last value below it makes a tree over the sequence with those two neighbours exchanged |
| BTreeEdit.DelimiterUnique | src/btree/btree.h:1863-1871 | every gap between leaves has one delimiter in the tree |
| BTreeRoot.RaiseInnerKeepsTree | src/btree/btree.h:2062-2073 | a root split off into a child below a new top keeps the tree, one level higher |
| BTreeRoot.DropInnerKeepsTree | src/btree/btree.h:2158-2183 | a root whose only child takes its place keeps the tree, one level lower |
| BTreeSearch.LinearSearch | src/btree/btree.h:592-604 | linear search in a sorted row finds the lower or upper bound |
| BTreeSearch.BinarySearch | src/btree/btree.h:623-637 | binary search finds the same bound |
| BTreeSearch.BinarySearchCompareTo | src/btree/btree.h:639-660 | recursive three-way search finds the lower bound, and its flag says exactly whether the key is there |
| BTreeSearch.OneBound | src/btree/btree.h:592-660 | a sorted row has only one lower and one upper bound, so all searches agree |
| BTreeIter.Increment | src/btree/btree.h:777-791 | the next iterator is at the next element in order, or at end() |
| BTreeIter.IncrementSlow | src/btree/btree.h:1662-1683 | climbing out of an exhausted leaf, or down from a delimiter, reaches the next place; at end() the iterator stays |
| BTreeIter.IncrementBy | src/btree/btree.h:1685-1700 | jumping by count lands count elements further, whenever that does not pass end() |
| BTreeIter.Decrement | src/btree/btree.h:777-791 | the previous iterator is at the previous element |
| BTreeIter.InternalLast | src/btree/btree.h:2185-2195 | climbing from past the end of a node reaches the delimiter of the same gap, or none at the end of the tree |
| BTreeIter.Locate | src/btree/btree.h:2234-2262 | descending with early exit on an exact match ends at the gap of the key's lower bound, and says exactly whether the key is present |
| BTreeIter.DescendTo | src/btree/btree.h:2264-2295 | descending to a leaf ends at the gap of the lower or upper bound over the whole tree |
| BTreeIter.OnePlace | src/btree/btree.h:777-791 | an element has one place: iterators that stand at the same gap are equal |
| BTree.BTree.RebalanceOrSplit | src/btree/btree.h:1984-2091 | a full node gets room through siblings, a recursive split or a new root, the sequence and everything below that node's level unchanged; the returned place is the same gap in a node with room; nodes are added exactly when no sibling can take values |
| BTreeRoom.ShiftToLeft | src/btree/btree.h:1993-2019 | room by moving values to the left sibling: the same sequence and gap, in the node or its sibling |
| BTreeRoom.ShiftToRight | src/btree/btree.h:2021-2044 | room by moving values to the right sibling |
| BTreeRoom.SplitOff | src/btree/btree.h:2074-2091 | room by splitting under a parent that has some |
| BTree.BTree.InternalInsert | src/btree/btree.h:2197-2226 | inserting at an iterator's gap inserts into the sequence exactly there, after making room, and returns the value's place |
| BTree.BTree.InsertUnique | src/btree/btree.h:1740-1761 | insert-if-absent: the sequence gains the value at its lower bound, or nothing changes; as a map it is exactly that; the iterator is at the key; the tree is valid again |
| BTree.BTree.InsertHint | src/btree/btree.h:1763-1787 | with any hint the result is that of insertion without one |
| BTreeErase.MergeNodes | src/btree/btree.h:2093-2104 | merging keeps the tree, its sequence and its leftmost and rightmost |
| BTreeErase.TryMergeOrRebalance | src/btree/btree.h:2106-2156 | a short node is merged with or filled from a sibling; the returned iterator is at the gap it was at before; it merges exactly if a sibling fits, and otherwise evens out with a sibling that has values to spare on the side not emptied |
| BTree.BTree.TryShrink | src/btree/btree.h:2158-2183 | an empty root is replaced by its child, or the tree becomes empty; the sequence stays |
| BTree.BTree.TakeOut | src/btree/btree.h:1860-1877 | the element is removed, a delimiter by way of the last value below it, and the place left is known |
| BTree.BTree.CloseGap | src/btree/btree.h:1886-1914 | the chain of merges and rebalances up the tree ends in a valid tree and keeps the gap of the result |
| BTree.BTree.Erase | src/btree/btree.h:1860-1920 | the sequence loses exactly the element at the iterator, and the result stands at its in-order successor or at end() |
| BTree.BTree.EraseUnique | src/btree/btree.h:1931-1940 | deletes the key from the map if it is there and says whether it was |
| BTree.BTree.ForwardAndBack | src/btree/btree.h:777-791 | decrementing undoes incrementing |
| BTree.BTree.StepsAgree | src/btree/btree.h:1685-1700 | increment_by(n) and n increments give the same iterator |
| BTree.BTree.Walk | src/btree/btree.h:944-954 | iterating from begin() to end() visits exactly the sequence |
| BTree.BTree.FindUnique | src/btree/btree.h:2297-2313 | find gives the key's place, or end() exactly when it is absent |
| BTree.BTree.BoundOf | src/btree/btree.h:2264-2295 | lower_bound and upper_bound give the specification's place in the whole sequence |
| BTree.BTree.Size | src/btree/btree.h:1130-1142 | the stored size is the number of elements |
| BTree.BTree.Height | src/btree/btree.h:1144-1158 | the walk through the parent pointers, which is circular at the root, ends with the common leaf depth plus one, and a tree of height h has at least 2^h - 1 elements |
| BTreeMeaning.WalkIsStretch | src/btree/btree.h:2363-2390 | walking the nodes in order by their children and values gives exactly the sequence |
| BTreeMeaning.VerifyHolds | src/btree/btree.h:2363-2390 | what internal_verify checks holds of every well-formed tree with sorted contents |
| BTreeMeaning.LeavesEquallyDeep | src/btree/btree.h:1144-1158 | every leaf is as many parent steps from the root as the root is high |
| BTreeMeaning.TallIsFull | src/btree/btree.h:1144-1158 | a node of height h covers at least 2^(h+1) - 1 elements |
| BTreeContents.InsertIntoMap | src/btree/btree.h:1740-1761 | inserting at the lower bound of an absent key keeps the order and adds that key to the map |
| BTreeContents.RemoveFromMap | src/btree/btree.h:1931-1940 | removing an element keeps the order and removes just its key from the map |
| AtomicMap.AtomicMap.PutNoClobber | src/common/atomic.h:172-180 | adds the value if the key is absent and returns what the key then has |
| AtomicMap.AtomicMap.Perform | src/common/atomic.h:144-190 | any sequence of operations gives the answers and contents of a plain map |
| AtomicMap.KeysCounted | src/common/atomic.h:182-186 | the tree has as many elements as the map has keys |
| Paths.SplitJoin | src/fs/metadata_store.cc:258-278 | parent and name of a directory joined with a name are that directory and name |
| Paths.JoinSplit | src/fs/metadata_store.cc:258-278 | a path with a slash is its parent joined with its name, and the parent is shorter |
| Paths.NoSlashIsOwnParent | src/fs/metadata_store.cc:258-278 | without a slash a path is its own parent and its own name |
| Paths.ParentDirsAgree | src_lowlatency/fs/metadata_store.cc:37-46 | the 32-bit and the 64-bit ParentDir agree on short paths, except without a slash |
| MetadataStore.MetadataStore.Run | src/fs/metadata_store.cc:529-616 | running an action leaves the store and gives the answer of the specification, for every action |
| MetadataStore.CreateFileInternal | src/fs/metadata_store.cc:618-662 | buffers exactly the specified change, or fails with the specified error, for the root PermissionDenied, and buffers nothing |
| MetadataStore.EraseInternal | src/fs/metadata_store.cc:664-719 | the same for erasing, the root included, with the name swapped to the end and dropped |
| MetadataStore.RenameInternal | src/fs/metadata_store.cc:764-831 | the same for renaming, with parents updated in the code's order |
| MetadataStore.ResizeInternal | src/fs/metadata_store.cc:852-904 | the same for resizing, with parts cut off or a zero part added |
| MetadataStore.LookupInternal | src/fs/metadata_store.cc:833-850 | returns the entry as read, or that it does not exist |
| MetadataEffects.Footprints | src/fs/metadata_store.cc:453-527 | the paths each action declares to read and write, in terms of directories and names |
| MetadataEffects.AppendEffect | src/fs/metadata_store.cc:913-942 | an Append of any parts succeeds, reads as the old bytes and then those of all the new parts, and changes no other record or field |
| MetadataEffects.ResizeEffect | src/fs/metadata_store.cc:852-904 | a Resize to n > 0 succeeds, gives length n if and only if the running total does not wrap, and changes no other record or field |
| MetadataEffects.ResizeReads | src/fs/metadata_store.cc:852-904 | the file then reads as the old bytes cut off or filled up, if and only if the running total does not wrap |
| MetadataEffects.FileAnswers | src/fs/metadata_store.cc:852-942 | appending and resizing are refused exactly without a record, or on a directory, each with its error, and change nothing then |
| MetadataEffects.LookupEffect | src/fs/metadata_store.cc:833-850 | a lookup answers with the record and changes nothing |
| MetadataEffects.CreateFileEffect | src/fs/metadata_store.cc:618-662 | a created record has the permissions and type asked for and nothing in it, its name is listed once more in its directory and all else is as before; or the error for what was wrong |
| MetadataEffects.EraseEffect | src/fs/metadata_store.cc:664-719 | the record and one listing of its name are gone and all else is as before; or the error |
| MetadataEffects.CopyEffect | src/fs/metadata_store.cc:721-762 | the other path has the same record and is listed; or the error |
| MetadataEffects.RenameEffect | src/fs/metadata_store.cc:764-831 | the record has moved, one listing of the old name is gone and the new name is listed, as far as the directories differ; or the error |
| MetadataLaws.ReadsOnlyReadSet | src/fs/metadata_store.cc:453-527 | an action's change and answer depend only on its declared readset |
| MetadataLaws.WritesOnlyWriteSet | src/fs/metadata_store.cc:453-527 | it puts and deletes only in its declared writeset |
| MetadataLaws.FailureChangesNothing | src/fs/metadata_store.cc:76-101 | a failing action leaves the store as it was |
| MetadataLaws.Commute | src/fs/metadata_store.cc:453-942 | actions without a read-write or write-write overlap give the same store and the same answers in both orders |
| MetadataLaws.SwapInLog | src/fs/metadata_store.cc:453-942 | exchanging two neighbouring independent actions anywhere in a log changes neither the final store nor any answer |
| Namespace.TreeKept | src/fs/metadata_store.cc:618-831 | an action on a directory tree leaves a tree if and only if it has no hazard |
| Namespace.RunKeepsTree | src/fs/metadata_store.cc:618-942 | every run without hazards, from a tree, ends in a tree |
| Namespace.RenameMovesOnePath | src/fs/metadata_store.cc:764-831 | a successful rename turns the paths P into P - {from} + {to}, the entry unchanged |
| Namespace.RenameIsCopyThenErase | src/fs/metadata_store.cc:721-831 | renaming is copying, then erasing |
| Hazards.CreateBelowFile | src/fs/metadata_store.cc:618-662 | a run reaches a tree in which creating below a file succeeds and breaks the tree |
| Hazards.CopyBelowFile | src/fs/metadata_store.cc:721-762 | the same for copying to below a file |
| Hazards.CopyNonEmptyDirectory | src/fs/metadata_store.cc:721-762 | the same for copying a directory with a file in it |
| Hazards.RenameWithinDirectory | src/fs/metadata_store.cc:764-831 | the same for renaming within one directory |
| Hazards.RenameIntoItself | src/fs/metadata_store.cc:764-831 | the same for renaming a directory into itself |
| Hazards.RenameBelowFile | src/fs/metadata_store.cc:764-831 | the same for renaming to below a file |
| Hazards.RenameNonEmptyDirectory | src/fs/metadata_store.cc:764-831 | the same for renaming a directory with a file in it |
| DistributedExecution.StepInv | src/fs/metadata_store.cc:134-242 | every step of the cluster, in every order of messages, keeps the invariant: stores, reads collected, messages in flight and answers are those of one serial store |
| DistributedExecution.CheckNeverFires | src/fs/metadata_store.cc:206-219 | a message popped has no key that the reader already has |
| DistributedExecution.WriterHasAllReads | src_lowlatency/fs/metadata_store.cc:235-258 | a writer that has popped its count has exactly the read map that one store would give, and so computes the serial change |
| DistributedExecution.ChannelEmptyAtClose | src_lowlatency/fs/metadata_store.cc:235-258 | when a writer closes its channel no message of that action is in flight to it |
| DistributedExecution.BeginFlying | src_lowlatency/fs/metadata_store.cc:218-235 | the messages sent are exactly one from each reader to each other writer, none twice |
| DistributedExecution.RunIsSerial | src/fs/metadata_store.cc:529-616 | after every complete run the union of the participants' stores is the store that has run the log serially, and every writer's answer is the serial one |
| DistributedExecution.NoDeadlock | src/fs/metadata_store.cc:196-223 | as long as some participant is not done, some step is possible |
| DistributedExecution.RunsEnd | src/fs/metadata_store.cc:196-223 | every run is shorter than a bound |
| DistributedExecution.UntouchedPassedOver | src/fs/metadata_store.cc:134-242 | an action that does not touch a participant changes nothing but its place in the log |
| ParticipantReplay.LocalStepInv | src_lowlatency/fs/metadata_store.cc:162-279 | a step of a participant in its own sequence is a step of the cluster, after which it passes over what does not touch it |
| ParticipantReplay.LocalRunIsSerial | src_lowlatency/fs/metadata_store.cc:162-279 | when all participants have gone through their own sequences, in any interleaving, stores and answers are the serial ones of the whole log |
| ParticipantReplay.LocalNoDeadlock | src_lowlatency/fs/metadata_store.cc:235-258 | until then some participant can take a step in its own sequence |
| DistributedContext.DistributedExecutionContext.Broadcast | src_lowlatency/fs/metadata_store.cc:218-235 | the context sends exactly the messages of the transition system |
| DistributedContext.DistributedExecutionContext.Absorb | src_lowlatency/fs/metadata_store.cc:235-258 | receiving adds a message's records to the read map |
| DistributedContext.DistributedExecutionContext.InstallLocal | src_lowlatency/fs/metadata_store.cc:262-279 | installing writes exactly what this participant owns of the change |
| FileBytes.ReadParts | src/fs/calvinfs.cc:215-231 | the reading loop gives the concatenated parts, or the first failure |
| FileBytes.PartReads | src/fs/calvinfs.cc:215-231 | a part reads as zeros or as what the block has from the offset on, up to the length, or fails for a missing block or an offset past its end |
| FileBytes.FirstFailure | src/fs/calvinfs.cc:215-231 | reading fails exactly if a part does, and as the first that does |
| FileBytes.AppendedReads | src/fs/calvinfs.cc:215-231 | a part that names a whole block reads as that block's data, after what is there already |
| FileBytes.FreshBlockHarmless | src/fs/calvinfs.cc:294-297 | a block put under an unused id changes what no file reads as |
| FileBytes.ResizedLength | src/fs/metadata_store.cc:852-904 | a resized file has exactly the size if and only if the running total does not wrap |
| FileBytes.ResizeCutsOrFills | src/fs/metadata_store.cc:852-904 | a resized file reads as the old bytes cut off or filled up with zeros, if and only if the running total does not wrap |
| FileBytes.ResizeToZeroKeepsBytes | src/fs/metadata_store.cc:875-878 | resizing to zero answers success and changes nothing |
| ResizeWraps.ResizeTooLong | src/fs/metadata_store.cc:852-904 | create, resize, append and resize from the first store: the total wraps, the second resize succeeds and leaves a file of another length than asked for |
| BlockIds.Machine.GetGUID | src/machine/machine.h:95-98 | every call gets the number of the next one of the unbounded numbers from 1000 on, though the 64-bit counter may wrap |
| BlockIds.SameIdWhen | src/fs/calvinfs.cc:295-297 | two calls get one id exactly when the blocks are of one kind and the numbers agree in their low 63 bits |
| BlockIds.DifferentIffFits | src/machine/machine.h:95-98 | for machines a < size and counters from 1000 up to N, ids are pairwise different if and only if size * (N - 1000) <= 2^63 |
| BlockIds.NoneZeroIffSkips | src/machine/machine.h:95-98 | and none is zero if and only if no multiple of 2^63 lies in size * 1000 + 1 .. size * N |
| BlockIds.IdsRepeat | src/machine/machine.cc:116-118 | in a cluster of two the first id drawn comes again after 2^62 more calls |
| Appends.NewIdIsFresh | src/fs/calvinfs.cc:294-297 | in every reachable state within the bound, the id of a call about to put its block is not in the block store and not 0 |
| Appends.AppendsNeverDisturb | src/fs/calvinfs.cc:294-316 | in every interleaving of appends within the bound every file reads as its old bytes followed by what was appended to it in action order, and nothing else changes |
| Appends.SafeIffBounded | src/fs/calvinfs.cc:294-316 | every run of a cluster reads right if and only if its machines stay within the bound |
| Appends.OddIfLarge | src/fs/calvinfs.cc:295-297 | a block id is odd exactly for more than 1024 bytes |
| ActionLog.StampIs | src_lowlatency/fs/block_log.h:126-140 | storing a block changes of each action only the origin and, unless it is fake, the offset, to the number of such actions before it |
| ActionLog.StampNumbers | src_lowlatency/fs/block_log.h:126-140 | in a stored block the executed actions are numbered without gaps, fakes excepted |
| ActionLog.IntKeepsVersion | src/fs/block_log.h:39-64 | a version survives the int exactly below 2^31 or in the top 2^31 of 64 bits |
| ActionLog.ShardIsFilteredLog | src/fs/block_log.h:218-243 | replaying a shard's parts of the blocks gives the whole log filtered to what touches the shard, in log order, with the same versions |
| ActionLog.ShardIsEntries | src/fs/block_log.h:377-379 | what a shard replays is the executed entries of the logged blocks that touch it, in their order, each unchanged but for version and offset |
| ActionLog.VersionIsPlace | src/fs/block_log.h:39-64 | an action of the replayed log has its place, counted from the base, as its version if and only if the first version of its block survives the int and the place fits 64 bits |
| ActionLog.VersionIsLogIndex | src/fs/block_log.h:39-64 | so the whole log counts from the base if and only if every block with an action begins where versions survive, up to the end of 64 bits |
| ActionLog.VersionLost | src/fs/block_log.h:39-64 | a log numbered from 1 with a block that begins at 2^31 gives its action another version |
| LogReplay.SequenceSource.Get | src/fs/block_log.h:39-64 | the source yields the pairs of all sequences in order, with running versions, and false only when there is none |
| LogReplay.BlockLogApp.HandleSubBatch | src/fs/block_log.h:267-271 | a part may arrive at any time, before or after its sequence |
| LogReplay.BlockLogApp.Get | src/fs/block_log.h:325-389 | every call keeps emitted ++ still to come == the log replayed; nothing comes only if all is out or the next block's part is missing |
| LogReplay.EmittedIsPrefix | src/fs/block_log.h:325-389 | what a machine has emitted is a prefix of the log filtered to its shard |
| LogReplay.EmittedEntries | src/fs/block_log.h:325-389 | the k-th action emitted is the k-th executed entry of the logged blocks that touches the machine, with offset 0 and another version and nothing else changed; when nothing is left all are out |
| LogReplay.EmittedVersions | src/fs/block_log.h:325-389 | the k-th action a machine emits is the k-th of the whole log that touches it, and its version is its place there if and only if its block begins where versions survive and the place fits 64 bits |
| LogReplay.EmittedCount | src/fs/block_log.h:325-389 | so while all blocks begin there, an emitted version points back to its action in the whole log, on every machine |
| Voting.Leader.HandleVote | src/fs/block_log.h:245-265 | a vote counts up, clears the count at all replicas and appends at exactly a majority |
| Voting.StepInv | src/fs/block_log.h:198-265 | every delivery, in any order, keeps: counts are the votes so far, and a block is in the log exactly from its majority vote on |
| Voting.AppendedOnceByMajority | src/fs/block_log.h:198-265 | a block is appended at most once, with its own size, exactly when the votes of a majority have been counted, and so only after a majority of replicas has stored it |
| Voting.AllVotesIn | src/fs/block_log.h:245-265 | when all its messages are handled a block was appended exactly once and the vote map is clean of it |
| AtomicQueue.AtomicQueue.Push | src/common/atomic.h:52-70 | in 32-bit arithmetic, appends the item, doubling the ring exactly when it is full; goes out of bounds, with the vector emptied, exactly when 2^31 - 1 elements are there |
| AtomicQueue.AtomicQueue.Grow | src/common/atomic.h:55-66 | moving to the larger ring keeps the contents; a ring of 2^31 places is resized to 0 and, unless it is empty, accessed out of bounds |
| AtomicQueue.AtomicQueue.Pop | src/common/atomic.h:75-83 | takes the first element, or says that there is none |
| AtomicQueueSteps.StepInv | src/common/atomic.h:41-83 | every field access of a Push interleaved with Size and Pop, also while the ring grows, is in bounds, and keeps the queue's meaning if and only if it is not the check that finds 2^31 - 1 elements |
| AtomicQueueSteps.Linearizable | src/common/atomic.h:41-83 | each operation takes effect in one step between its start and end |
| AtomicQueueSteps.FirstInFirstOut | src/common/atomic.h:41-83 | in every interleaving in which no push finds 2^31 - 1 elements, what was popped is a prefix of what was pushed, and after Size said n the next n pops succeed |
| AtomicQueueSteps.NeverStuck | src/common/atomic.h:41-83 | the mutexes never stop both threads |
| AtomicQueueLimit.LockedAtLast | src/common/atomic.h:56-63 | at 2^31 places the resize drops all elements, and if there are any the copying is out of bounds |
| AtomicQueueLimit.KeptOrLost | src/common/atomic.h:41-83 | a run keeps the invariant as long as no push finds 2^31 - 1 elements and is lost from then on |
| AtomicQueueLimit.EndsIffNeverOverfilled | src/common/atomic.h:41-83 | after any run the push can come to its end if and only if no push has found 2^31 - 1 elements; otherwise the two threads going on access the queue out of bounds |
| AtomicQueueLimit.SafeIffBelowLast | src/common/atomic.h:41-83 | all runs in which pushes begin with fewer than n elements stay in bounds if and only if n < 2^31 |
| AtomicQueueLimit.OneTooMany | src/common/atomic.h:52-70 | a run from the empty queue that goes out of bounds |
| LowLatency.GetMachineForReplica | src_lowlatency/fs/metadata_store.cc:371-418 | an action gets the ascending list of the replicas mastering its paths and goes to a machine of its only replica, or of replica 0, this one if it can be; it is fake exactly if it crosses replicas and 0 is not one of them |
| LowLatency.SplitBatch | src_lowlatency/fs/block_log.h:245-281 | every machine gets exactly the non-fake actions that touch it under the action's origin, in block order |
| LowLatency.CopiesFor | src_lowlatency/fs/block_log.h:283-309 | the head node gets exactly the cross-replica actions, not themselves copies, that involve its replica, in block order |
| LowLatency.BlockLogApp.MakeBatch | src_lowlatency/fs/block_log.h:119-140 | a block is the front of the queue, stamped with origin and offsets |
| LowLatency.BlockLogApp.AppendMultireplicaActions | src_lowlatency/fs/block_log.h:330-402 | one turn of the handler takes the copies of the remote sequence's blocks in order as far as they are here and stops where it would poll; after the last one the new block is all of them, made real and stamped; exactly the copies taken are gone |
| TotalOrder.LogsArePrefixes | src_lowlatency/fs/block_log.h:330-434 | logs that hold their parts of the shared actions in one order are prefixes of the parts of one woven order |
| LowLatencyOrder.OneTotalOrder | src_lowlatency/fs/block_log.h:330-434 | in a state satisfying the invariant one order of all requests, none twice, has every replica's log as a prefix of the part that involves it |
| LowLatencyOrder.NeverOpposite | src_lowlatency/fs/block_log.h:330-434 | no two replica logs order two requests differently |
| LowLatencySteps.CopiedRequests | src_lowlatency/fs/block_log.h:357-402 | the block made of a sequence has exactly the sequence's cross-replica requests that involve the replica |
| LowLatencySteps.StepInv | src_lowlatency/fs/block_log.h:219-434 | storing, BATCH, SUBMIT, FAKEACTIONBATCH, proposing and APPEND_MULTIREPLICA_ACTIONS, in any order of messages, keep the invariant: each log's cross-replica requests are replica 0's, filtered, in its order |
| LowLatencySteps.RunsHaveOneOrder | src_lowlatency/fs/block_log.h:330-434 | so after every run there is one order of all requests, and no two replica logs disagree |
| LowLatencyDelivery.RunsLoseNothing | src_lowlatency/fs/block_log.h:219-434 | a run that comes to rest has logged every stored request in every replica it involves, and each log is its whole part of the order |
| LowLatencyClients.ClientsKept | src_lowlatency/fs/block_log.h:357-402 | in every run an executed entry is the request submitted with its id, with origin and offset, real, and a copy exactly if it crosses replicas outside replica 0; its client is cleared exactly in copies of what involves replica 0 |
| LowLatencyClients.AnsweredBy | src_lowlatency/fs/block_log.h:357-402 | at rest exactly these replicas have an entry with the client to answer: replica 0 alone if a crossing request involves it, otherwise all it involves |
| LowLatencyClients.EveryClientAnswered | src_lowlatency/fs/block_log.h:357-402 | at rest every request submitted has a replica that executes it with its client |
| LowLatencyClients.OffsetsCount | src_lowlatency/fs/block_log.h:119-140 | in every run the executed entries of each block are numbered from 0, which replaying with versions takes for granted |
| LowLatencyProgress.RunsGoOn | src_lowlatency/fs/block_log.h:340-356 | after every run the system is at rest or has a step other than storing new requests, so the polling for copies never waits for one that cannot come |
| LowLatencyEnds.RunsEnd | src_lowlatency/fs/block_log.h:219-434 | without new requests a run from a reachable state is no longer than the work left in that state |
| LowLatencyExecution.ReplicasExecuteTheOrder | src_lowlatency/fs/metadata_store.cc:162-279 | at rest, in every replica, each participant replays its own sequence over the one order, and when all have gone through theirs, stores and answers are the serial ones of that order |
| LowLatencyShards.ReplaysFollowOrder | src_lowlatency/fs/block_log.h:245-281 | what a machine replays per origin, in any replica, is a prefix of the one order filtered to what touches it |
| LowLatencyShards.EmittedFollowsOrder | src_lowlatency/fs/block_log.h:499-575 | and so is what its block log emits |
| GlobalBarrier.NobodyLeavesEarly | src/machine/machine.cc:272-292 | when a machine has left its k-th barrier all machines have entered theirs |
| GlobalBarrier.ChannelDoneAtClose | src/machine/machine.cc:205-212 | when the channel is closed it is empty and nothing for it is in flight |
| GlobalBarrier.NoDeadlock | src/machine/machine.cc:272-292 | while all machines are in barriers some machine can go on |
| Placement.MakeCalvinFSConfig | src_lowlatency/fs/calvinfs.cc:158-178 | machine m has shard m % n of replica m / n, for blocks and metadata |
| Placement.CalvinFSConfigMap.constructor | src_lowlatency/fs/calvinfs.cc:89-108 | the lookup maps give back that layout: each shard of each replica is found on its one machine |
| Placement.StringToIntIff | src_lowlatency/common/utils.cc:137-144 | a string is read as x exactly if it is the decimal form of the 32-bit x; the process dies on all others |
| Placement.MasterIff | src_lowlatency/fs/calvinfs.cc:110-122 | a path is mastered by replica r exactly if its top directory has the decimal form of a 32-bit x behind two characters and x, unsigned, is in r * shards .. (r + 1) * shards - 1 |
| Placement.MasteredByItsMachine | src_lowlatency/fs/calvinfs_client_app.h:304-307 | below a slash, a letter and the digits of machine m everything is mastered by the replica that the layout gives m |
| Placement.ChildMasteredWithParent | src_lowlatency/fs/calvinfs.cc:110-122 | below the root a path is mastered where its directory is |
| Placement.OneReplicaBelowTop | src_lowlatency/fs/calvinfs.cc:110-122 | creating or erasing below a top directory never crosses replicas |
| Placement.RenameInvolves | src_lowlatency/fs/calvinfs.cc:110-122 | renaming below top directories crosses replicas exactly if the two directories are mastered differently |
| Varint.Append64 | src/common/varint.h:41-52 | appends the encoding that the lemmas below are about |
| Varint.Parse64 | src/common/varint.h:56-87 | reads what the specification decodes, the signed ninth byte included |
| Varint.DecodeIsNumber | src/common/varint.h:56-87 | any complete bytes, canonical or not, are read as the number they stand for, in 64 bits |
| Varint.EncodedBytes | src/common/varint.h:41-52 | the bytes written are the value's groups of seven bits, low ones first, the high bit on all but the last, and eight bits in a ninth |
| Varint.RoundTrip | src/common/varint.h:41-87 | any 64-bit value, wherever its encoding stands, is read back and exactly its bytes are used |
| Varint.RoundTripAll | src/common/varint.h:41-87 | so for the concatenated encodings of any sequence |
| Varint.PrefixFree | src/common/varint.h:41-52 | no encoding is a proper prefix of another, and different values have different encodings |
| Varint.EncodedSize | src/common/varint.h:41-52 | an encoding has n bytes or fewer, up to eight, exactly if the value is below 128^n |

## Left out

- Consensus itself (Paxos2), ZeroMQ, protobuf, leveldb and the thread pool: a log is assumed to append what its leader proposes, to deliver its sequences in order, and messages to arrive exactly once, in any order; a head node's appends to its own consensus leader, which are messages too, take effect in the order it makes them (`LowLatencySteps.RunsHaveOneOrder` and what follows from it rest on this).
- The locking scheduler: each participant of `DistributedExecution` runs the actions that touch it one after the other; `MetadataLaws.SwapInLog` says why independent ones may overlap.
- Versioned reads: a store is one map, the state at the version that the action reads at.
- `~ExecutionContext` is not virtual but `Run` deletes through the base pointer; what is modelled is the documented step, installing all local writes.
- Exceptions while parsing, allocation failures and destructors; the chain of mutexes in `AtomicMap`, whose methods each hold one mutex throughout.
- Weak memory: in `AtomicQueueSteps` each access to a field is one sequentially consistent step. `Empty`, which takes no mutex, is modelled only alone.
- AtomicQueue.AtomicQueue.Push: what happens after an access out of bounds; the model stops there..
- The hash functions: who owns a path is an arbitrary function, restricted in `Placement` to the mastering by top directory.
- Keys of the B-tree are reals; the code's are of any type with a strict order, and the proofs use nothing but the order. The exact-match bit of the searches is a separate result. Duplicate-key variants, copying, clear, swap of trees, dump and `safe_btree` only add easy members.
- BTree.BTree.InsertUnique: nodes removed by merging leave the set of the tree's nodes; memory is not freed.
- BTree.BTree.RebalanceOrSplit: the branch for the root and the split below a parent are methods of their own, for which the code has one body.
- LogReplay.BlockLogApp.Get: the state of the one action source is part of the block log object here, and its pointer into the map of parts is a flag; fetching, dropping, reversing and releasing are methods of their own.
- LowLatency.BlockLogApp.AppendMultireplicaActions: the sleep between two polls; a turn ends where the code would sleep and the next one goes on there. In `LowLatencyOrder` the step happens when all copies are there.
- The acknowledgements with which head nodes exchange sequences: a replica takes the sequences of each other replica one after the other.
- Block ids and action ids that repeat in the logs: `BlockIds.DifferentIffFits` says when they do not, and the log models take fresh ones.
- WRITE and CHANGE_PERMISSIONS, which are not implemented, and permissions checks, of which there are none.
- Read-your-writes of the distributed block store: a put waits for a majority but a get asks one replica.
- A data channel is the set of messages delivered to it and not yet popped; the map of inboxes, in which a channel appears on first use, is not modelled.
- Timing, benchmarks, deployment, the HDFS and local wrappers.
