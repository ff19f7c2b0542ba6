# Masstree: a verified model

Masstree keeps keys in a trie of B+trees. A key is cut into eight-byte slices, each *layer* is a B+tree over one slice, and
a leaf slot holds a value, a value with the rest of its key, or the next layer. Leaves are unsorted slots under a packed
permutation; slot 0 doubles as the lower bound of the leaf's range. On top of it the repository builds a directory
namespace in which every directory is a layer of its own. This project models those parts, and the small protocols around
them, and proves what their comments, tests and design promise.

Each module is one file.

* `PermSpec`, `Permuter`: permutations with a size, and the one-word form the code computes on, nibble by nibble, with the
  carries and borrows of its additions.
* `LayerModel`, `LayerGrow`, `LayerShrink`, `LayerLeaf`, `LayerSplit`, `LayerRemoval`, `Layer` (module `LayerTree`): one
  B+tree layer for any leaf and internode width. `Struct` is the well-formedness: separators ascend, each node's range is
  cut exactly by its separators, parents and the leaf list agree with the tree. Ranges are ghost maps, so every step is
  checked locally. `Mode` says what is unfinished while an operation climbs: a new right sibling not yet hung in
  (`Pend`), or a dead node with at most one child left (`Hole`).
* `LeafList`: the lock-free list under the leaves; any number of leaves and operations, each pointer access one step.
* `Key`, `Trie`, `Scan`: strings as slices, layers stacked as a trie, creation of a new layer, the scan loop with its stack
  and its key buffer.
* `NodeVersion`: the 32-bit version word on bit-vectors.
* `Epochs`, `Limbo`: epoch-based reclamation across threads, and one thread's limbo queue.
* `Timestamps`, `LogReplay`: phantom epochs and per-key timestamps, the log's delta chain.
* `JsonIndex`, `MsgPack`: the hash index behind JSON objects, the MessagePack writer and incremental parser ("Formats" in
  the MessagePack specification).
* `Namespace`: directories, their edges and metadata, rename.

Concurrent parts are state machines whose actions are single loads, stores and compare-and-swaps; a theorem about runs
holds for every interleaving. Sequential parts are classes and methods proved against functions on values.

## Where the code does not do what is said of it

* The comment above `rotate` has it turn the positions up to `size()`; the code turns all W of them.
  `PermSpec.RotateComment`: the two agree exactly when the permutation is full or nothing moves.
* The `next` chain from the leftmost leaf is not always the abstract list: an unlink can go through a new right half that
  its left half does not point to yet, and the unlinked leaf stays in the chain. `LeafList.StaleHappens` is such a run;
  `LeafList.Chain` says exactly when the chain is the list.
* Timestamps of one key can go back. `apply_remove` tests and stores a phantom epoch without regard to a concurrent
  `remove_leaf`, and `make_split` copies it early. `Timestamps.StoreLost` and `Timestamps.HeirNotHanded` are such runs.
  The condition is exact at each step and over runs: where a leaf becomes responsible for keys, its epoch must be above
  the last timestamp of each of them that is gone (`Timestamps.StepIff`, `Timestamps.RunIff`). On what the code has at
  hand that is a comparison of two epochs, and no weaker one will do (`Timestamps.KeptCovers`, `Timestamps.KeptIsNeeded`).
* A full leaf of width at most 9 can have all its entries and the new key on ikey 0 (the empty key and keys of zero
  bytes), and then the search for a split point runs off both ends. `LayerSplit.StuckIff` says that this is so exactly up
  to width 9; `LayerTree.RunIntoStuck` gets there by insertions into an empty layer.
* A directory rename whose source edge still points to an old root of the directory's layer attaches, rewrites the
  metadata and then returns false: the directory has its new name, and what is below it is found by both paths
  (`Namespace.Table.RenameDirectory`). One file more than a leaf holds is enough to get there (`Namespace.UnderTwoNames`).

## Model

| member | source | states |
|---|---|---|
| PermSpec.InsertFromBackOk | kpermuter.hh:137-146 | inserting the back element at any position keeps a permutation of 0..W-1 |
| PermSpec.RemoveOk | kpermuter.hh:181-195 | removing a live position keeps a permutation of 0..W-1 |
| PermSpec.RemoveToBackOk | kpermuter.hh:213-223 | so does removing to the back |
| PermSpec.ExchangeOk | kpermuter.hh:248-251 | so does swapping two positions |
| PermSpec.InsertUndoesRemove | kpermuter.hh:137-223 | insert_from_back(i) after remove_to_back(i) gives back the very same permutation and size |
| PermSpec.RemoveUndoesInsert | kpermuter.hh:137-223 | and the other way round |
| PermSpec.RotateComment | kpermuter.hh:226-246 | rotate does what its comment says exactly when size is W or i is j |
| Permuter.SortedUnpacks | kpermuter.hh:78-94 | make_sorted's masks and shifts give the sorted permutation of the given size |
| Permuter.InsertionUnpacks | kpermuter.hh:137-146 | the word expression is the sequence operation, for every valid packed permutation |
| Permuter.SelectionUnpacks | kpermuter.hh:152-163 | likewise insert_selected |
| Permuter.RemovalUnpacks | kpermuter.hh:181-195 | likewise remove, including the shortcut for the last live position and the decrement that shrinks the size |
| Permuter.RemovalToBackUnpacks | kpermuter.hh:213-223 | likewise remove_to_back |
| Permuter.RotationUnpacks | kpermuter.hh:239-246 | likewise rotate, turning positions i to W |
| Permuter.ExchangedUnpacks | kpermuter.hh:248-251 | likewise exchange, whose xor of two shifts swaps two nibbles and nothing else |
| Permuter.Packed16.Remove | kpermuter.hh:181-195 | the stored word stays a packed permutation and stands for the sequence operation's result |
| Permuter.Packed16.ExchangeValues | kpermuter.hh:253-260 | the loop that builds the difference word swaps two values wherever they are |
| LayerModel.Step | masstree_struct.hh:834-860 | the child that upper() picks is never null and its range holds the key |
| LayerModel.RouteUnique | masstree_struct.hh:808-860 | routing from the root reaches a leaf exactly for the keys of that leaf's range: one leaf per key |
| LayerGrow.SplitLeaf | masstree_split.hh:197-201 | putting a right half into the leaf list leaves a well-formed tree but for the pending sibling |
| LayerGrow.GrowRoot | masstree_split.hh:218-236 | a new root over both halves completes the tree |
| LayerGrow.InterposeUnder | masstree_split.hh:218-236 | an extra internode between a node and a parent more than one level above completes the tree |
| LayerGrow.AttachUnder | masstree_split.hh:245-250 | so does a separator and child put into the parent |
| LayerGrow.CutNode | masstree_split.hh:238-244 | cutting an internode leaves a tree with its right part pending, one level up |
| LayerSplit.SplitPieces | masstree_split.hh:124-175 | the three cases of internode::split_into (new child left of, at, right of the middle) all give the halves of "insert, then cut" |
| LayerLeaf.FindMid | masstree_split.hh:76-100 | the midpoint search finds the boundary between different ikeys that is nearest to where it began, the right one of two equally near |
| LayerLeaf.AtMostTen | masstree_split.hh:60-100 | at most 10 entries of a leaf share an ikey: nine lengths and one suffix or layer |
| LayerLeaf.AtMostNine | string_slice.hh:46-65 | at most 9 if the ikey is not zero, because shorter keys are padded with zeros |
| LayerLeaf.SliceIsProper | string_slice.hh:46-65 | the slice and length of every string obey the padding rule that the leaf model asks of its keys |
| LayerLeaf.BuildRight | masstree_split.hh:101-121 | the copying loop puts exactly the upper part of "entries with the new key at its rank" into the new leaf |
| LayerLeaf.SplitContent | masstree_split.hh:50-121 | left live entries followed by right live entries are the old ones with the new key, and every left ikey is below split_ikey, every right one not |
| LayerLeaf.StripKeepsBound | masstree_split.hh:257-270 | taking the moved slots off the left leaf's permutation keeps slot 0 at or below every live ikey |
| LayerSplit.CutLeaf | masstree_split.hh:50-121 | split_into of a leaf: the boundary nearest to the middle, or to the end at which keys come in order; the right half, and the right split type |
| LayerSplit.WideIsMixed | masstree_split.hh:76-100 | a leaf of width 10 or more that has to split never has all entries and the new key on one ikey |
| LayerSplit.StuckIff | masstree_split.hh:76-100 | a leaf that has to split, on which the search has no boundary to stop at, exists if and only if the width is at most 9 |
| LayerSplit.SearchNeverStops | masstree_split.hh:82-100 | on such a leaf no distance of the search finds a boundary |
| LayerSplit.SlotZeroFixed | masstree_insert.hh:47-58 | keeping the starts means: slot 0 of a leaf with predecessor has the same ikey as before, and is its lower bound |
| LayerSplit.Lower | ksearch.hh:105-123 | the linear lower search returns the rank of the key and finds it exactly when it is live |
| LayerSplit.LowerBinary | ksearch.hh:63-87 | so does the binary search, with the same answer |
| LayerShrink.UnlinkLeaf | masstree_remove.hh:307-308 | taking a leaf out of the list leaves a well-formed tree with a hole for it |
| LayerShrink.Close | masstree_remove.hh:325-337 | removing the hole's slot gives its range to the left neighbour and leaves every other range alone |
| LayerShrink.Cascade | masstree_remove.hh:342-349 | an internode that loses its last child becomes the hole itself |
| LayerShrink.Collapse | masstree_remove.hh:342-349 | an internode with one child left becomes a hole with that child to hand over |
| LayerShrink.Replace | masstree_remove.hh:325-328 | putting the remaining child in the hole's place completes the tree |
| LayerShrink.Comparable | masstree_remove.hh:357-375 | of two nodes whose ranges start at one place, one is above the other |
| LayerShrink.NothingInside | masstree_remove.hh:321-337 | no node's range starts or ends inside the range that is given away, apart from the dead ones |
| LayerShrink.RedirectAll | masstree_remove.hh:356-375 | redirect's climb renames exactly the separators equal to the removed bound, as far up as they occur |
| LayerRemoval.CloseResult | masstree_remove.hh:316-350 | the in-place stores of one round equal the abstract step |
| LayerRemoval.SurvivorRoutes | masstree_remove.hh:277-375 | after a removal every surviving leaf keeps its keys, and the removed leaf's keys go to its list predecessor |
| LayerTree.Layer.constructor | masstree_struct.hh:380-388 | an empty layer is well-formed and empty, and no leaf but the leftmost is empty |
| LayerTree.Layer.ReachLeaf | masstree_struct.hh:808-860 | the descent ends in the one leaf whose range holds the key |
| LayerTree.Layer.SplitInternode | masstree_split.hh:124-175 | in place: half the children move to a new internode, with their parent pointers |
| LayerTree.Layer.ParentStep | masstree_split.hh:206-251 | one round of make_split's climb keeps the tree well-formed and all leaves as they were; its whole new state: a new root, an extra internode, a separator in the parent, or the parent cut in the middle or at its end |
| LayerTree.Layer.ClimbAndStrip | masstree_split.hh:202-303 | the whole climb is such rounds up to one that finds its place, with the left leaf stripped after the first, and ends in a well-formed tree |
| LayerTree.Layer.SplitAndClimb | masstree_split.hh:196-303 | a leaf split and its climb: contents unchanged, the new key in the leaf of its range, neither half empty but for the one that waits for it, cut and split type as above |
| LayerTree.Layer.AvoidSlotZero | masstree_split.hh:185-195 | the slot exchange of make_split keeps slot 0, or declines |
| LayerTree.Layer.MakeSplit | masstree_split.hh:178-303 | after it the new key has its slot in the leaf of its range, and the contents are unchanged |
| LayerTree.Layer.Get | masstree_get.hh:22-56 | lookup returns a value exactly when the pair is in the contents |
| LayerTree.Layer.FindInsert | masstree_insert.hh:23-60 | no content changes before finish_insert; the found flag is exact |
| LayerTree.Layer.FinishInsert | masstree_insert.hh:284-292 | publishing the permutation adds exactly the new pair |
| LayerTree.Layer.Insert | masstree_insert.hh:23-60 | an absent key is added and nothing else changes, through any splits; a present key changes nothing; slot 0 of every leaf with predecessor stays; no leaf with a predecessor becomes empty |
| LayerTree.RunIntoStuck | masstree_insert.hh:23-60 | for every width from 3 to 9: insertions into an empty layer that lead to such a leaf |
| LayerTree.Layer.Redirect | masstree_remove.hh:356-375 | the separator-rewriting climb terminates and rewrites all and only the occurrences of the old bound |
| LayerTree.Layer.RemoveLeaf | masstree_remove.hh:277-354 | an emptied leaf with a predecessor goes, any other stays; both climbs terminate in a well-formed tree |
| LayerTree.Layer.FinishRemove | masstree_remove.hh:249-264 | the slot is freed, and the leaf goes exactly when that empties it and it has a predecessor |
| LayerTree.Layer.Remove | masstree_remove.hh:249-354 | the contents lose exactly the pairs of the key; a leaf goes exactly when it has a predecessor and held nothing else, so no leaf with a predecessor is ever left empty; no internode is newly left without separators; routes of all other leaves' keys and all slot-0 bounds stay |
| LeafList.StepInv | btree_leaflink.hh:38-96 | every step of any link_split or unlink keeps the invariant of cells, marks and pending operations |
| LeafList.AlwaysChain | btree_leaflink.hh:38-96 | in every reachable state the mark-stripped chain from the leftmost leaf ends, and its live part is the abstract list |
| LeafList.Chain | btree_leaflink.hh:60-96 | the chain is exactly the abstract list if and only if no pending split is stale |
| LeafList.ListChanges | btree_leaflink.hh:60-96 | the abstract list changes only at the final next store: link_split inserts after n, unlink deletes n |
| LeafList.Quiescent | btree_leaflink.hh:55-96 | with no operation pending, next and prev are mutual inverses, nothing is marked and the chain is the list |
| LeafList.StaleHappens | btree_leaflink.hh:60-96 | a concrete reachable state in which the chain is not the list |
| LeafList.NoDeadlock | btree_leaflink.hh:38-54 | whenever operations are pending, one of them can finish in at most five steps of its own |
| Key.CompareIsLess | masstree_key.hh:133-148 | slice-wise compare with shifting is lexicographic order on byte strings of any length |
| Key.BytesOfNum | masstree_key.hh:200-204 | storing a slice's number in network order puts back the slice's bytes |
| Trie.ItemsAscend | masstree_key.hh:133-148 | the items of a trie of layers, in tree order, ascend strictly as byte strings |
| Trie.GetFinds | masstree_get.hh:22-56 | a lookup through the layers returns a value exactly when that item is stored |
| Trie.MakeNewLayer | masstree_insert.hh:217-282 | the twig loop ends where the keys part; before finish_insert the new layer holds exactly the old key, after it both, in order, with one slot more in the last layer |
| Trie.NewLayerLookups | masstree_insert.hh:217-292 | replacing a suffix by the new layer changes no lookup; finish_insert then changes exactly the new key's |
| Trie.PutLookups | masstree_get.hh:22-56 | a layer at the end of any path that differs for one key makes the whole trie differ for exactly that key after the path's slices |
| Trie.DeepLayerLookups | masstree_insert.hh:217-292 | so a collision in a layer however deep changes exactly one lookup of the whole trie, and only at finish_insert |
| Scan.Scanner.FindInitial | masstree_scan.hh:180-243 | where a scan starts in a layer: emit, go on, or go down, with exactly the due items still pending |
| Scan.Scanner.FindNext | masstree_scan.hh:258-315 | skipping duplicates, taking the next entry or the next leaf loses and repeats nothing, and makes progress |
| Scan.Scanner.GoUp | masstree_scan.hh:356-369 | unshift restores the parent's prefix and slice from the buffer, and the scan goes on after the layer's entry |
| Scan.Run | masstree_scan.hh:317-387 | the scan ends and delivers exactly the stored items at (or only after) the first key and beyond |
| Scan.ScanMeans | masstree_scan.hh:317-387 | in words: a tail of the items, strictly ascending, each once, every key at or after the first one and no other |
| NodeVersion.InsertUnlock | nodeversion.hh:129-142 | unlocking after an insert adds one to the joint counter, carrying from the insert into the split counter |
| NodeVersion.SplitUnlock | nodeversion.hh:129-142 | unlocking after a split adds one to the split counter and clears the insert counter |
| NodeVersion.RunCounts | nodeversion.hh:87-185 | over any run the counters have moved by the number of marked sections, modulo their widths |
| NodeVersion.StableMeansUntouched | nodeversion.hh:36-75 | from a stable version, if has_changed is false and fewer than 2^19 marked sections ended, none ended and none is under way |
| NodeVersion.NoSplitMissed | nodeversion.hh:79-86 | has_split is true whenever a split ended in between, within the same bound |
| NodeVersion.StepFlags | nodeversion.hh:129-185 | for every word with the unused bit clear, and every step: the root flag goes exactly at mark_nonroot and at the end of a split or delete; the leaf and deleted flags survive every unlock |
| NodeVersion.RootFlag | nodeversion.hh:129-185 | over any run the root flag is set at the end exactly when it was set and no such step followed |
| NodeVersion.Version.Unlock | nodeversion.hh:129-142 | the stored word is the run's next one, unlocked and clean; root flag kept unless the section was a split or delete, leaf and deleted flags kept |
| NodeVersion.Version.TryLock | nodeversion.hh:113-127 | succeeds exactly on an unlocked word, and only then adds a step to the word's run |
| NodeVersion.Version.Changed | nodeversion.hh:72-75 | false only if no section was marked since the reader's stable load, true only if something but locking and unlocking happened |
| NodeVersion.Version.Split | nodeversion.hh:79-86 | false only if no split or delete section ended since the load, true only if a marked section ended or a flag was stored |
| NodeVersion.BoundIsExact | nodeversion.hh:72-86 | 2^19 splits bring back the same word, so the bound cannot be raised |
| Epochs.StepInv | kvthread.hh:263-276 | every load, store and scan step keeps: who holds a retired object is protected by the active epoch |
| Epochs.FreeIsSafe | kvthread.cc:106-118 | an object that may be freed has no holder |
| Epochs.NotFreedUnderFoot | kvthread.hh:340-377 | in any run, an object recorded while a thread is in a section is not freed before that section ends |
| Epochs.OneScan | kvthread.hh:368-377 | if no thread is in, or starting again from, a section entered by the object's epoch, one scan makes it free for its owner |
| Epochs.Reclaimable | kvthread.hh:263-276 | over runs: after a record, once the global epoch has moved on and every thread then in a section has stopped or started anew, one scan lets the owner free the object |
| Limbo.DrainBound | kvthread.cc:81-104 | a call frees nothing above the bound, and one that stops short of its count leaves nothing at or below it |
| Limbo.DrainOrder | kvthread.cc:81-104 | what was waiting followed by what callbacks recorded meanwhile is what is freed followed by what waits, in order |
| Limbo.FirstInFirstOut | kvthread.hh:340-377 | over any run of records and quiesces, whatever the epochs do: freed followed by waiting is recorded, so each recording is freed at most once and in order |
| Limbo.EachQuiesce | kvthread.hh:263-276 | each call of any run frees at most 128 entries, none at or above the active epoch, and leaves no eligible one if it stops short of 128 |
| Limbo.GoesOn | kvthread.cc:134-140 | quiesces repeated at one active epoch free 128 entries each, going on where the one before had to stop, until no eligible entry is left, and then nothing |
| Limbo.LimboList.ValidInStep | kvthread.hh:340-377 | every state of the groups and marks stands for a plain queue in step with what was recorded and freed |
| Limbo.LimboList.RecordRcu | kvthread.hh:340-350 | recording appends exactly one entry with the current epoch, through marks and group changes |
| Limbo.LimboList.RefillRcu | kvthread.cc:71-79 | taking the next group, or a new one, changes nothing that waits |
| Limbo.LimboList.CleanUntil | kvthread.cc:81-104 | cleaning in place one group is a stretch of the plain queue's drain, though callbacks record meanwhile |
| Limbo.LimboList.HardQuiesce | kvthread.cc:106-141 | a whole call frees in order, at most 128, none at or above the active epoch; groups after the tail are empty again |
| Limbo.LimboList.RcuQuiesce | kvthread.hh:263-276 | with any newly loaded global epoch, and any active epoch not above it, the call in place is the plain queue's step; an unmoved epoch frees nothing |
| Limbo.LimboList.Serve | kvthread.hh:263-377 | any sequence of records and quiesces in place is the plain queue's run |
| Timestamps.StampGrows | kvrow.hh:153-165 | under the invariant an operation's timestamp exceeds the key's last one |
| Timestamps.LeastStamp | kvthread.hh:128-140 | and is the least even one that the thread's clock and the key's row, or the leaf's epoch, allow |
| Timestamps.ThreadInOrder | kvthread.hh:128-140 | in any run a thread's own timestamps never go back, whatever keys they are for |
| Timestamps.RunEpochsNear | kvrow.hh:252-265 | in any run no phantom epoch is more than two beyond the newest timestamp |
| Timestamps.StepIff | masstree_remove.hh:292-305 | a step keeps the invariant (a leaf's epoch exceeds the last timestamp of every key of its that is gone) if and only if it covers the keys that change hands |
| Timestamps.KeptCovers | masstree_split.hh:196-198 | two epochs compared at the link of a new leaf, and at an unlink, are enough for that |
| Timestamps.KeptIsNeeded | masstree_remove.hh:292-305 | and nothing weaker is, without the keys' histories: where the comparison fails, some history of a key without a row is one that the step does not cover |
| Timestamps.StampsIncrease | kvthread.hh:128-140 | over any run whose steps cover such keys a key's timestamps strictly increase, across removal, splits, merges and re-insertion |
| Timestamps.RunIff | kvthread.hh:128-140 | the steps of a run all cover if and only if at each of its points no covering continuation, by whatever threads, gives any key timestamps out of order |
| Timestamps.AtomicStampsIncrease | kvrow.hh:166-265 | runs of whole operations, one at a time, always cover, and so increase |
| Timestamps.StoreLost | masstree_remove.hh:292-305 | a reachable good state in which the next unlink does not cover: apply_remove has stored over the epoch remove_leaf handed on, and a new thread's write goes back |
| Timestamps.HeirNotHanded | masstree_split.hh:196-198 | another: the right half carries an epoch copied before the hand-over, and becomes the heir |
| LogReplay.Replayed.Apply | log.cc:526-602 | the chain rewriting in place equals the function on entry sequences |
| LogReplay.Replayed.CleanUp | log.cc:581-602 | joining deltas to the row stops exactly where the next delta's predecessor is missing |
| LogReplay.OneMore | log.cc:526-602 | a chain that stands for a set of records stands for one more after applying it, whatever arrived before |
| LogReplay.OrderDoesNotMatter | log.cc:526-602 | every record once, in any order: the row of timestamp order, with no delta left |
| LogReplay.PerformLogged | log.cc:336-343 | the record kind written for each operation keeps the log a well-formed history of the row |
| LogReplay.LogThenReplay | log.cc:493-602 | replaying what any run of operations logged, in any order, gives the live row back |
| LogReplay.LogIsRecords | log.cc:336-343 | the log of any run, from the operations alone: a put on a key with a row is a modify that names the operation before it, other puts are puts, a replace is a replace, a remove of an absent key logs nothing |
| LogReplay.LastWriteWins | kvrow.hh:176-247 | after any run each column holds what the last put that wrote it gave, unless a replace or remove came later, and otherwise what that one gave |
| LogReplay.ReplayedColumns | log.cc:493-602 | so do the columns of the row that replay makes of the log, in any order |
| JsonIndex.ChainIsBucket | json.cc:125-136 | a bucket's chain is its live items in ascending order, and links only go forward |
| JsonIndex.EraseUndoesInsert | json.cc:138-214 | erasing a key just inserted gives back the list |
| JsonIndex.ObjectJson.Find | json.hh:453-465 | find agrees with a linear search over the live items |
| JsonIndex.ObjectJson.FindInsert | json.cc:138-161 | an absent key goes to the end of the list, a present one changes nothing; the table doubles exactly when the absent key's bucket had more than four items |
| JsonIndex.ObjectJson.Grow | json.cc:98-123 | doubling the buffer keeps every item |
| JsonIndex.ObjectJson.Rehash | json.cc:125-136 | doubling the table rebuilds every chain and changes no item |
| JsonIndex.ObjectJson.EraseAt | json.cc:188-198 | erasing by position takes out that entry and keeps the order of the rest |
| JsonIndex.ObjectJson.EraseKey | json.cc:200-214 | erasing by key does so exactly when the key is there |
| JsonIndex.ObjectJson.Clear | json.cc:302-327 | clear empties the list and keeps the table |
| MsgPack.EatConcat | msgpack.cc:19-54 | reading byte by byte, two pieces are as good as one |
| MsgPack.RoundTrip | msgpack.hh:545-579 | reading what was written for any value ends in an equal value exactly at the last byte |
| MsgPack.EatSigned | msgpack.hh:87-119 | every signed 64-bit integer is read back from its shortest form |
| MsgPack.EatUnsigned | msgpack.hh:72-111 | every unsigned one too |
| MsgPack.EatPairs | msgpack.hh:569-577 | an object with distinct keys is read back pair by pair, in order |
| MsgPack.Unparser.Write | msgpack.hh:545-579 | the writer with its loops appends exactly the value's bytes |
| MsgPack.StreamingParser.Add | msgpack.cc:166-199 | completing a value completes every container it was the last element of, and no other |
| MsgPack.StreamingParser.Consume | msgpack.cc:19-207 | one chunk leaves the parser where the bytes it took lead a byte-at-a-time reader, and takes at least one |
| MsgPack.StreamingParser.Feed | msgpack.hh:646-671 | so does any sequence of chunks, fed again where not taken |
| MsgPack.ReadBack | msgpack.hh:660-688 | however the bytes of a value are cut, and whatever follows them, parsing gives an equal value and takes exactly those bytes |
| MsgPack.EatEncoded | msgpack.cc:57-190 | any form of a value that the format allows, shortest or not, bin or str, is read as that value; integer keys become their decimal text, repeated keys are assigned again |
| MsgPack.WrittenEncodes | msgpack.hh:61-200 | what is written is a form of an equal value |
| MsgPack.LastValueCounts | msgpack.cc:170-178 | a key that comes more than once has the last value given for it |
| MsgPack.DecimalDigits | msgpack.cc:170-178 | the text of an integer key is its digits without leading zeros, after a minus sign if it is negative |
| Namespace.UniquePath | lhm_namespace.hh:1136-1158 | a directory is at one path only |
| Namespace.ParentIsDir | lhm_namespace.hh:857-886 | in every state the parent of an entry is a directory |
| Namespace.MoveDir | lhm_namespace.hh:678-763 | attach, metadata and detach together: new·s is what old·s was, old·s is gone, all else is unchanged |
| Namespace.AttachedTwice | lhm_namespace.hh:728-763 | without the detach: new is the directory with its new name and old inode, old is none (unless the last names agree), everything below is found by both paths, and no other path changes |
| Namespace.RemovableIff | lhm_namespace.hh:765-812 | the code's test is right: nothing lies below a path exactly for files and for directories without slots |
| Namespace.Table.LookupEntry | lhm_namespace.hh:857-886 | the walk by hashes and the check of the last name give the tree's entry |
| Namespace.Table.Mkdir | lhm_namespace.hh:938-970 | succeeds exactly for a free name under a directory, and adds just that entry; the parent's edge goes stale exactly when its root splits |
| Namespace.Table.Creat | lhm_namespace.hh:888-936 | likewise for files |
| Namespace.Table.Remove | lhm_namespace.hh:765-812 | succeeds exactly for files and empty directories, and removes just that entry |
| Namespace.Table.RenameDirectory | lhm_namespace.hh:678-763 | true exactly for a legal move over a current edge, and then the subtree has moved and the new edge is current; a legal move over a stale edge always ends with every path as without the detach, and an illegal one changes nothing |
| Namespace.Table.MakeRoom | masstree_split.hh:213-241 | an insertion into a full leaf that is the directory's root leaves the edge stale, and every path leads where it did |
| Namespace.Table.RootMoves | lhm_namespace.hh:563-581 | a directory that has outgrown its leaf is found as before through its old edge when it gets yet another root |
| Namespace.UnderTwoNames | lhm_namespace.hh:678-763 | a run from an empty table, with eight files in one directory: a rename returns false, the directory has its new name and inode, the old name is not found, and every file is found by both paths |

## Left out

- LayerTree.Layer.Insert: for leaf widths below 10 it requires that no leaf is stuck for the key, that is, has to split for it with all its entries and the key on one ikey; `LayerSplit.StuckIff` and `LayerTree.RunIntoStuck` show that the split search needs this.
- Timestamps.StampsIncrease: requires that the steps of the run cover the keys that change hands, because the claim fails for every other run (`Timestamps.RunIff`), and `StoreLost` and `HeirNotHanded` are such runs of the code.
- Concurrency inside a layer: insertions, removals and lookups of one layer are sequential operations; locking order, retries and readers that meet half-done splits are not modelled, nor is the stale root pointer of a layer (`maybe_parent`) outside `Namespace`.
- Nodes are values in a map from identifiers that the methods update, not heap objects; aliasing is the sharing of identifiers. Leaf widths are at least 3.
- The collection of empty layers (`gc_layer`), destruction of trees, and the phantom epoch's place in a layer outside `Timestamps`.
- Key-suffix storage: suffixes are byte sequences; leaf slots of `Layer` hold abstract words with a length class.
- Trie.Tree has each layer's entries in order with its leaf boundaries; the slots and permutations below them are in `Layer`.
- Scans: the reverse helper, a visitor that stops early, and concurrent changes. The key buffer grows as needed; the code's is fixed and longer than any key.
- The circular comparison of timestamps and epochs near 2^63: both are unbounded here. Weak memory and fences: every access is one atomic step.
- Permuter words are sequences of W+1 nibbles; storage wider than that (the unused top nibbles of 16-bit and 32-bit forms) and operations on it are not modelled.
- Records in the log have abstract payloads; the changeset bytes, log files, epochs of the logger and its threads are not modelled.
- JSON: text parser and printer, arrays, copy on write, copying an object (`grow(true)`). `EraseKey` requires the hash array, as the code does.
- MessagePack: lengths of 2^31 and more, which the code reads into a signed int; reals are kept as bytes. The parser's pointers into the value under construction are frames that hold the unfinished containers.
- Namespace: where the metadata record lies when a layer's root changes (it is copied to the new root), hash-collision chains (names are assumed never to share a component hash), path parsing, `readdir`, rename of a single file, and the cursors below attach and detach; a directory's slots are a map, and which insertions and removals move its root again, after the first split, is left open.
- Pool allocation, thread counters, checkpoints, networking, clients, benchmarks.
