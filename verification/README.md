# PLIN index, verified models

PLIN is a learned index with a B+ tree for overflow, served by Ends, Edges and a Cloud that answer lookups
together. This project models its six hard parts in Dafny and proves what they promise, for every input, every
interleaving and every reachable state.

* **Streaming piecewise-linear fit** (`Geometry`, `Envelope`, `Fit`, `Model`, `Segmentation`). `AddPoint` keeps two
  extreme lines and two pruned hulls. It accepts a point exactly when some line is within ε of the whole segment. The
  emitted line is within ε of every point, and the greedy segmentation has the fewest segments of all partitions.
* **Learned index** (`Placement`, `InnerNode`, `PlinTree`, `InnerTree`, `LeafNode`, `LeafData`, `PlinIndex`). Placement
  by a corrected model never leaves the slot array, the walk from the predicted block finds the exact predecessor, also
  after leaves have been put into the inner tree, and bulk load, lookup, upsert and range query act as an ordered map.
  The process can end inside an operation; that is an outcome of the operation, and each one says exactly when.
* **Overflow B+ tree** (`SortedRecords`, `TreePages`, `PageRecords`, `PageLevels`, `BPlusTree`, `OverflowTree`). The
  heap is a sequence of pages with parent, child and leaf-chain page numbers. The shape is described by *levels of
  links* (fence key, page number): each level expands to the one below, so equal depth, parents, separators and chain
  are statements about sequences, and an insertion is a short sequence of steps with at most one pending link.
  Operations refine functions on the leaf pages in key order (`TreePages.Put`, `Lookup`, `Stops`), which the learned
  index uses for its overflow trees and buffers, and these refine functions on sorted records (`Upserted`, `FindSorted`,
  `FilterShown`).
* **Cuckoo hash map** (`CuckooIndex`, `CuckooMap`, `CuckooSafety`, `CuckooStripe`, `CuckooDoubling`, `CuckooLazy`,
  `CuckooProgress`, `CuckooPath`). A state machine with any number of threads and any hash function: locks, searches
  with no lock held, guarded hops and doublings. A second machine migrates a doubled table lock by lock while all
  operations go on in it, and refines the first. What a search shows decides which step can follow, and an insertion
  left alone with an accurate path completes. The breadth-first search is proved with its path codes.
* **Lookup protocol** (`RangeMap`, `Protocol`, `ProtocolSafety`, `ProtocolFailures`, `ProtocolProgress`). Ends, Edge
  handlers, Cloud workers and control connections with FIFO channels, connection failures and re-registrations.
  Responses carry no request identity that anyone looks at. A provenance tag that is not on the wire states which key
  each answer was computed for. A lookup fails only after a failure that touches it, and none is ever stuck.
* **Snapshot for remote reads** (`ParamStream`, `Snapshot`) and the **structure-modification lock** (`SmoLock`).

What the source changes in place is changed in place: `OptimalPiecewiseLinearModel`, `Index`, `BTree` and `Records`
are classes; inner slots, page records, the search queue and the snapshot arrays are arrays. Leaf blocks are the
exception: they are values. Concurrent code is a state machine over its atomic steps. Keys are reals, with exact
arithmetic.

## What the proofs found

* A segment reports the length of its run exactly when the run has two different keys or a single position; a run of one
  repeated key reports one record (`Segmentation.NumberIff`, `Segmentation.TwoCopiesReportOne`).
* A value of 0 stored in a tree page is a null pointer there: the page count then differs from the record number, and
  the next search that reaches the page ends the process. Some lookup or upsert of the index ends the process exactly
  when some tree holds a 0 (`PlinIndex.NullIsFatal`, `TreePages.NullStops`, at a concrete input
  `PlinIndex.NullUpsertIsFatal`), and a bulk load does exactly when a 0 goes to an overflow tree and a later record to
  the same block (`LeafNode.BuildLeaf`, `PlinIndex.Index.BulkLoad`). Range queries leave such a record out. A 0 in a
  slot of a leaf is an ordinary value.
* Upserting exactly the least or the greatest loaded key writes to the right buffer, where lookups do not look
  (`PlinIndex.Index.Upsert`, `PlinIndex.BoundUpsertIsLost`). Every other key behaves as a map update. A range query that
  reaches past the loaded range then lists such a key twice, and otherwise never (`PlinIndex.Index.RangeQuery`).
* `snapshot_and_lock_two` loads the table size and the resize counter one after the other. A doubling between the two
  loads passes the counter comparison. This is harmless exactly when both sizes give the key the same two buckets: then
  all runs are safe (`CuckooSafety.RunsAreSafe`, and `CuckooLazy.LazyRunsAreSafe` with lazy migration); otherwise some
  run from the initial state puts the key where no lookup searches, or stores it twice (`CuckooSafety.TornBreaks`, for
  every size and any number of doublings in between; at concrete values `CuckooSafety.TornSnapshotMisplaces`). For one
  doubling the condition is a test of one bit of the hash and of the word of the second bucket
  (`CuckooSafety.DoublingKeepsPairIff`).
* Path codes are faithful exactly up to eight slots per bucket; the compile-time guard also accepts nine, because it
  does not count the leading digit for the start bucket (`CuckooPath.RoundTripIff`). With nine a path that starts in the
  second bucket is decoded as one from the first (`CuckooPath.NineStartsWrong`).
* Keys pushed by the Cloud to an End are always keys of that End's own range, which are answered before the hot cache is
  asked, so a push never changes what the hot-cache stage answers (`ProtocolSafety.PushesServeNobody`).
* The binary search over key ranges can walk past the range that holds the key when a wide range comes before narrow
  ones (`RangeMap.NestedRangesAreMissed`). It is exact for a key if and only if, whenever it turns away from positions
  that hold the key, the positions it keeps hold it too (`RangeMap.LocateIsExact`), and for all keys if and only if no
  range lies in a window of keys where the search gives up, which can be computed from the ranges
  (`RangeMap.AllKeysExactIff`). Ascending bounds are sufficient for that (`RangeMap.AscendingNeverLost`) but not
  necessary (`RangeMap.TwoNestedAreFound`). `ProtocolSafety` assumes nothing of this: it speaks of the keys the search
  routes.
* The comment on the page cardinality says 14; the layout gives 13 (b_plus.h:102). The tree is proved for every
  cardinality from 3 on.

## Model

| member | source | states |
|---|---|---|
| Geometry.LessIsGrade | src/core/index/piecewise_linear_model.h:43-64 | comparing point differences by cross multiplication is comparing the slopes seen from a point to the right |
| Geometry.CrossIsTurn | src/core/index/piecewise_linear_model.h:94-98 | a positive cross product of three points from left to right is a turn to a steeper slope |
| Envelope.Decline | src/core/index/piecewise_linear_model.h:184-190 | on a convex chain the grade to the new point, once it drops, keeps dropping, so the early exit of the scan loses nothing |
| Envelope.RotateMin | src/core/index/piecewise_linear_model.h:180-194 | rotating the flattest line about the tangent point keeps it feasible for all points and lets the chain before the tangent point be dropped |
| Envelope.PopDominates | src/core/index/piecewise_linear_model.h:173-175 | a hull point on or above the chord to the new point can be removed without weakening the hull |
| Fit.FeasibleIsBetween | src/core/index/piecewise_linear_model.h:121-122 | a line is within ε of all points exactly when it passes between all lowered and all raised points |
| Fit.ScanUpper | src/core/index/piecewise_linear_model.h:182-190 | the early-exit scan over the active upper chain finds its point of greatest grade |
| Fit.ScanLower | src/core/index/piecewise_linear_model.h:158-166 | the early-exit scan over the active lower chain finds its point of least grade |
| Fit.PruneUpper | src/core/index/piecewise_linear_model.h:173-177 | pruning the upper chain leaves a convex chain that bounds every line as the unpruned one does |
| Fit.PruneLower | src/core/index/piecewise_linear_model.h:197-201 | the same for the lower chain |
| Fit.ExtremeLines | src/core/index/piecewise_linear_model.h:146-149 | the two lines of the rectangle bound the slope and, to the right of their anchors, the height of every feasible line |
| Fit.RejectIsFinal | src/core/index/piecewise_linear_model.h:146-154 | a point outside the extreme lines fits no line at all together with the segment |
| Fit.SkipLower | src/core/index/piecewise_linear_model.h:180 | a lowered point on or below the flattest line leaves the whole hull state correct |
| Fit.PushLower | src/core/index/piecewise_linear_model.h:180-202 | after the rotation the hull state is correct, and the tangent grade is the extreme grade over every point of the segment, including those dropped from the hull |
| Model.PushUpper | src/core/index/piecewise_linear_model.h:156-178 | the same for the steepest line, by reflection |
| Model.TurnSteepest | src/core/index/piecewise_linear_model.h:156-178 | the code of the rotation of the steepest line: state correct, least grade over all lower points |
| Model.TurnFlattest | src/core/index/piecewise_linear_model.h:180-202 | the code of the rotation of the flattest line: state correct, greatest grade over all upper points |
| Model.Sides | src/core/index/piecewise_linear_model.h:148-180 | the four slope comparisons say on which side of an extreme line the new point lies |
| Model.OptimalPiecewiseLinearModel.constructor | src/core/index/piecewise_linear_model.h:104-110 | an empty model for any ε that is not negative |
| Model.OptimalPiecewiseLinearModel.AddFirstTwo | src/core/index/piecewise_linear_model.h:124-144 | the first two points of a segment are taken in and always fit |
| Model.OptimalPiecewiseLinearModel.Rotate | src/core/index/piecewise_linear_model.h:156-205 | a point between the extreme lines is taken in, and the extended segment fits |
| Model.OptimalPiecewiseLinearModel.AddPoint | src/core/index/piecewise_linear_model.h:112-206 | throws exactly for a key that does not increase; otherwise accepts exactly when some line is within ε of the segment with the point; a rejection closes the segment |
| Model.OptimalPiecewiseLinearModel.GetSegment | src/core/index/piecewise_linear_model.h:208-212 | the segment of the points taken in, also right after a rejection |
| Model.SegmentIsSound | src/core/index/piecewise_linear_model.h:247-284 | the line of get_floating_point_segment is within ε of every point of the segment |
| Model.SegmentClimbs | src/core/index/piecewise_linear_model.h:266-284 | over increasing ranks the emitted slope is positive |
| Segmentation.MakeSegmentation | src/core/index/piecewise_linear_model.h:292-320 | fails exactly on keys that are not sorted; otherwise the segments are sound, cover the input in order and are greedy, with the rewinding index |
| Segmentation.SubRunFits | src/core/index/piecewise_linear_model.h:305-316 | a run inside a run that fits also fits |
| Segmentation.GreedyAhead | src/core/index/piecewise_linear_model.h:305-316 | the greedy cuts are never behind the cuts of any other partition into runs that fit |
| Segmentation.GreedyIsOptimal | src/core/index/piecewise_linear_model.h:292-320 | no partition into consecutive runs that fit has fewer runs |
| Segmentation.NumbersAreRunLengths | src/core/index/piecewise_linear_model.h:229-232 | on distinct keys the number of a segment is the length of its run |
| Segmentation.NumberIff | src/core/index/piecewise_linear_model.h:229-232 | a segment reports the length of its run exactly when the run has two different keys or one position |
| Segmentation.TwoCopiesReportOne | src/core/index/piecewise_linear_model.h:229-232 | two copies of one key are reported as one record |
| Segmentation.ShortRunFits | src/core/index/plin_index.h:283 | any 2ε+1 consecutive ranks fit one line |
| Segmentation.LongRuns | src/core/index/plin_index.h:283 | every segment but the last covers at least 2ε+1 keys |
| Segmentation.LevelShrinks | src/core/index/plin_index.h:323-358 | a level has strictly fewer nodes than the level below, so the loop over the levels ends |
| Placement.CorrectSpans | src/core/index/utils.h:96-111 | the corrected model never contracts, sends the first key to at most 0 and the last to at least size−1, and overshoots the old model by at most one |
| Placement.CorrectNear | src/core/index/utils.h:96-111 | the corrected model stays near the old one: not lower than the first key was moved down, not higher than the last was moved up, or one |
| Placement.PredictBlock | src/core/index/inner_node.h:33-40 | the predicted block is at most the last but one |
| Placement.HomeMonotone | src/core/index/inner_node.h:33-40 | greater keys have home slots no smaller |
| Placement.BlockIsReached | src/core/index/inner_node.h:33-40 | a predicted block past the first two is backed by a model position that far |
| Placement.PredictsItsBlock | src/core/index/inner_node.h:33-40 | the predicted block is the one the model position lies in, shifted by one; positions outside are collected in the first and the last but one block |
| Placement.RoomForAll | src/core/index/inner_node.h:175-192 | for an ε-accurate segment of two or more keys, any d later keys still fit behind the home of a key |
| Placement.InnerPositions | src/core/index/inner_node.h:45-50 | every key of an accurate segment is predicted within a constant distance of five times its rank |
| InnerNode.NothingBehind | src/core/index/inner_node.h:96-110 | behind a free slot or a greater key at or after the home of a key only greater keys follow |
| InnerNode.FindSlot | src/core/index/inner_node.h:96-110 | the walk stays in bounds and ends at the occupied slot with the greatest key at or below the key sought |
| InnerNode.DataPlacement | src/core/index/inner_node.h:175-192 | writes to the first free slot at or after the home and nowhere else; fails only if there is none |
| InnerNode.PlacedNext | src/core/index/inner_node.h:175-192 | placement in key order keeps slots ordered and packed behind their homes |
| InnerNode.Build | src/core/index/inner_node.h:42-77 | the constructor places every key of a fitted segment; its final assertion holds; the slots hold exactly the given nodes |
| InnerNode.ShiftKeepsInv | src/core/index/inner_node.h:152-167 | shifting inside the block and writing the new node keeps order and packing |
| InnerNode.ShiftRedirects | src/core/index/inner_node.h:152-167 | the shift adds the new node and changes no other |
| InnerNode.UpsertNode | src/core/index/inner_node.h:120-173 | descends exactly when the predecessor of the key is an inner child; otherwise replaces exactly under an equal key, refuses exactly when there is none and the home block is full, and inserts by shifting else; the invariant is kept in each case |
| InnerNode.ShiftIn | src/core/index/inner_node.h:160-163 | the shifting loop moves the slots from the target up to the free one and writes the node |
| PlinTree.FindLeafNode | src/core/index/inner_node.h:96-117 | the recursive descent ends at the leaf with the greatest first key at or below the key |
| PlinTree.SegmentModels | src/core/index/plin_index.h:329-341 | an emitted segment is an accurate climbing model of its keys |
| PlinTree.BuildNode | src/core/index/plin_index.h:334-341 | a node over one segment reaches exactly the leaves below the segment |
| PlinTree.BuildLevel | src/core/index/plin_index.h:323-358 | a level is built over the level below and is strictly shorter |
| PlinTree.BuildRoots | src/core/index/plin_index.h:316-376 | the loop over the levels ends with at most ROOT_SIZE roots that reach every leaf |
| InnerTree.FindLeaf | src/core/index/inner_node.h:96-117 | in every tree that satisfies the invariant, upserted or built, the search ends at the leaf with the greatest first key at or below the key |
| InnerTree.UpsertLeaf | src/core/index/inner_node.h:120-173 | the recursive upsert refuses exactly when the node above the leaves that the predecessor slots lead to has no slot with the key and a full home block; otherwise the tree leads to the new leaf under its key and to every other leaf as before; the invariant is kept at every level |
| InnerTree.FindAfterUpsert | src/core/index/inner_node.h:96-173 | after an upsert a search returns the predecessor among the old first keys and the new one |
| InnerTree.BuiltTreeLeads | src/core/index/plin_index.h:334-341 | a tree of the bulk load satisfies the invariant and leads exactly to its leaves under their first keys |
| LeafNode.LeafBlockMonotone | src/core/index/leaf_node.h:178-185 | greater keys are predicted into blocks no smaller |
| LeafNode.LeafPredictsItsBlock | src/core/index/leaf_node.h:178-185 | the predicted block is the one the model position lies in, shifted by one, with the rest collected at the ends |
| LeafNode.LeafModelIsMonotone | src/core/index/leaf_node.h:187-198 | the corrected model of every leaf is monotone over at least three blocks |
| LeafNode.LeafPositions | src/core/index/leaf_node.h:187-198 | every record of an accurate segment is predicted within a constant distance of 32/15 times its rank, the initial fill ratio |
| LeafNode.FindInBlock | src/core/index/leaf_node.h:294-323 | slots, then overflow tree: ends the process exactly when the tree page searched holds a 0, and otherwise is exact for the block |
| LeafNode.FindHere | src/core/index/leaf_node.h:274-324 | looking in the predicted block alone is exact for the leaf, unless that search ends the process |
| LeafNode.UpsertInBlock | src/core/index/leaf_node.h:402-437 | ends the process exactly when the tree page searched holds a 0; otherwise replaces the records of the key by the new one; 1 exactly for a key in a slot, 2 exactly for a new key with a vacant slot, 3 exactly for a key in the tree; an overflow tree exists only when all slots are full, and no key is in both |
| LeafNode.UpsertHere | src/core/index/leaf_node.h:375-461 | a map update of the leaf, unless the search ends the process; the overflow count stays exact; 4, 5 and 6 exactly for a key new to a full block, by whether the count stays within 0.3 of the record slots and whether the leaf was reached by forwarding |
| LeafNode.PlaceInBlock | src/core/index/leaf_node.h:528-543 | placing a new record adds it to the first vacant slot or the tree and keeps the block sound; ends the process exactly when the tree page holds a 0 |
| LeafNode.FillStops | src/core/index/leaf_node.h:528-543 | during construction the search of a block's tree ends the process exactly when a 0 was spilled to that tree before |
| LeafNode.BuildLeaf | src/core/index/leaf_node.h:187-224 | ends the process exactly when a 0 goes to an overflow tree and a later record to the same block; otherwise the leaf holds exactly its records, its overflow count is exact and its limit is 0.3 of the record slots, rounded down |
| LeafNode.RangeInBlock | src/core/index/leaf_node.h:352-367 | the matching records of the slots and those of the overflow tree that have a value, each once; a stop shows a key above the bound |
| LeafNode.RangeHere | src/core/index/leaf_node.h:327-371 | from the predicted block on, exactly the matching records the leaf shows, each once; after a stop nothing matching is left |
| LeafData.BlockData | src/core/index/leaf_node.h:547-587 | sorted slots merged with the overflow records: the contents of the block in key order |
| LeafData.MergeSorted | src/core/index/leaf_node.h:555-576 | the two-finger merge is sorted and loses nothing |
| LeafData.GetData | src/core/index/leaf_node.h:544-598 | exactly the contents of the leaf, each once, in key order |
| TreePages.LookupIs | src/core/index/b_plus.h:307-321 | searching the one page a key belongs to is searching all records |
| TreePages.PutIs | src/core/index/b_plus.h:356-369 | an upsert into that page, cut in two when full, keeps the pages ordered and is the sorted upsert of all records |
| TreePages.NullStops | src/core/index/b_plus.h:142-147 | some search of a tree ends the process exactly when the tree holds a 0, namely the search for its key |
| TreePages.AppendStops | src/core/index/b_plus.h:142-147 | in a tree filled in key order a search ends the process exactly when the last record is a 0 |
| PlinIndex.FindFrom | src/core/index/leaf_node.h:279-292 | forwarding along the leaf chain ends at the responsible leaf; unless the search there ends the process, the answer is exact for all leaves |
| PlinIndex.UpsertFrom | src/core/index/leaf_node.h:382-395 | a map update of the chain that keeps the chain invariant, unless the search in the responsible leaf ends the process; the code is the right one for that leaf and for whether it was reached by forwarding |
| PlinIndex.RangeFrom | src/core/index/leaf_node.h:330-371 | the scan over the chain yields exactly the matching records the leaves show, each once |
| PlinIndex.SegmentKeys | src/core/index/plin_index.h:274-283 | the segmentation of the loaded keys is greedy, and every segment is accurate and climbs |
| PlinIndex.BuildLeaves | src/core/index/plin_index.h:274-311 | ends the process exactly at the first segment of the greedy segmentation with a 0 in an overflow tree and a later record for the same block, under the models of the emitted segments; otherwise the leaves hold exactly the loaded records |
| PlinIndex.Index.BulkLoad | src/core/index/plin_index.h:274-384 | a bulk load of strictly increasing keys ends the process exactly in that case; otherwise the index shows exactly the loaded records |
| PlinIndex.Index.Locate | src/core/index/plin_index.h:389-397 | root scan and descent lead to the leaf responsible for the key |
| PlinIndex.Index.Find | src/core/index/plin_index.h:386-419 | ends the process exactly when the tree page searched holds a 0; otherwise returns a payload exactly when a visible record has it |
| PlinIndex.Index.Upsert | src/core/index/plin_index.h:510-574 | ends the process exactly when the tree page searched already holds a 0; otherwise a map update exactly for keys other than the two bounds; at a bound nothing visible changes; a split is due exactly when the overflow count of the responsible leaf passes its limit |
| PlinIndex.Index.RangeQuery | src/core/index/plin_index.h:486-508 | the records in the range that are in slots or have a value, together with the strayed bounds the scan meets, each key once exactly when no stray repeats a key of the leaves; so exactly the visible records as long as no bound and no 0 was upserted |
| PlinIndex.NullIsFatal | src/core/index/plin_index.h:386-419 | some lookup or upsert ends the process exactly when some tree or buffer holds a 0 |
| PlinIndex.NullUpsertIsFatal | src/core/index/plin_index.h:510-574 | a concrete run: a 0 upserted below the loaded range, and the lookup of the same key ends the process |
| PlinIndex.BoundUpsertIsLost | src/core/index/plin_index.h:557-573 | a concrete lost update at a bound |
| PageRecords.CountAgreesIff | src/core/index/b_plus.h:133-207 | after an insertion or a replacement the count is the record number exactly when the new payload is not 0 |
| PageRecords.CountIsNumberIff | src/core/index/b_plus.h:133-147 | the count is the record number exactly when no live record has the value 0 |
| PageRecords.Records.constructor | src/core/index/b_plus.h:112-118 | an empty page of the given cardinality |
| PageRecords.Records.Count | src/core/index/b_plus.h:133-140 | the number of non-null values of the whole array |
| PageRecords.Records.LowerBound | src/core/index/b_plus.h:142-154 | ends the process exactly when a live record has the value 0; otherwise returns the first record not below the key |
| PageRecords.Records.InsertPair | src/core/index/b_plus.h:209-221 | the in-place shift inserts at the index and moves the rest up; out of range nothing changes |
| PageRecords.Records.InsertInNode | src/core/index/b_plus.h:186-207 | unless the count ends the process, the live records become the sorted upsert; stale keys behind them do not matter |
| PageRecords.Records.SplitInto | src/core/index/b_plus.h:251-261 | the upper half moves to the sibling in order; both pages stay consistent |
| PageLevels.JoinInsert | src/core/index/b_plus.h:342-345 | a child inserted after its left neighbour in the father appears after it in the level below, with its parent set |
| PageLevels.JoinCut | src/core/index/b_plus.h:231-277 | cutting an inner page lists the same children in the same order, each pointing to its new parent |
| PageLevels.LeafSplit | src/core/index/b_plus.h:231-249 | a leaf split leaves the tree the same but for one pending link |
| PageLevels.Settles | src/core/index/b_plus.h:342-351 | inserting the pending link into the father settles the tree |
| PageLevels.Splits | src/core/index/b_plus.h:346-348 | splitting a full inner page moves the pending link one level up |
| PageLevels.NewRoot | src/core/index/b_plus.h:324-340 | a new root settles a split root, one level higher everywhere |
| BPlusTree.Descends | src/core/index/b_plus.h:156-184 | the child chosen with the first separator ignored has fences that enclose the key |
| BPlusTree.Around | src/core/index/b_plus.h:307-321 | left of the leaf whose fences enclose a key all keys are smaller, right of it all are greater |
| BPlusTree.InsertedIsUpserted | src/core/index/b_plus.h:186-207 | inserting or replacing at the lower bound is the sorted upsert |
| BPlusTree.LeafUpserts | src/core/index/b_plus.h:356-362 | upserting into the enclosing leaf upserts into the contents of the whole tree |
| BPlusTree.LeafCuts | src/core/index/b_plus.h:231-261 | a leaf split keeps chain, fences, order and contents |
| BPlusTree.LeavesOrdered | src/core/index/b_plus.h:231-249 | the leaves of every valid tree are ordered pages that hold exactly its contents |
| BPlusTree.CoveringPage | src/core/index/b_plus.h:307-316 | the leaf whose fences enclose a key is the page the key belongs to in the sequence of leaf pages |
| OverflowTree.StepUpsert | src/core/index/b_plus.h:356-362 | the leaf change keeps the whole tree invariant, up to one full page |
| OverflowTree.StepLeafCut | src/core/index/b_plus.h:364-367 | splitting the full leaf leaves pages of legal size and a pending link |
| OverflowTree.StepSettle | src/core/index/b_plus.h:342-351 | the link in the father keeps the whole invariant, up to one full page |
| OverflowTree.StepSplit | src/core/index/b_plus.h:346-348 | splitting the full father keeps the invariant with the link pending one level up |
| OverflowTree.StepRoot | src/core/index/b_plus.h:324-340 | the new root restores the invariant |
| OverflowTree.InnerNeverNull | src/core/index/b_plus.h:156-161 | no inner page holds a null pointer, so the descent never ends the process |
| OverflowTree.LowerBound | src/core/index/b_plus.h:142-154 | the first record not below the key |
| OverflowTree.InnerLookup | src/core/index/b_plus.h:156-184 | the last child whose separator is at most the key, scanning from the second separator |
| OverflowTree.FindChildRank | src/core/index/b_plus.h:223-229 | the first record that holds the child, or −1 exactly when there is none |
| OverflowTree.BTree.constructor | src/core/index/b_plus.h:548-558 | an empty tree satisfies the invariant |
| OverflowTree.BTree.FindLeafPage | src/core/index/b_plus.h:307-316 | ends at the leaf whose fences enclose the key |
| OverflowTree.BTree.Find | src/core/index/b_plus.h:318-321 | ends the process exactly when the leaf of the key holds a 0; otherwise equals lookup in the ordered contents |
| OverflowTree.BTree.Split | src/core/index/b_plus.h:231-277 | the exact heap after the split: halves, chain, or children with their new parent |
| OverflowTree.BTree.GrowRoot | src/core/index/b_plus.h:324-340 | a new root above the two halves of the old one makes a pending tree valid, with the same leaf pages and contents |
| OverflowTree.BTree.InsertIntoParent | src/core/index/b_plus.h:323-354 | from any pending tree to a valid one with the same leaf pages and contents |
| OverflowTree.BTree.SplitLeaf | src/core/index/b_plus.h:364-367 | a full leaf is cut in two and linked in; all other leaf pages stay |
| OverflowTree.BTree.Upsert | src/core/index/b_plus.h:356-369 | ends the process exactly when the leaf of the key already holds a 0; otherwise keeps depth, parents, separators, chain and occupancy, and pages and contents change as an ordered map; 3 for a known key, 4 for a new one |
| OverflowTree.BTree.GetData | src/core/index/b_plus.h:517-529 | the contents in strictly increasing key order, by the leaf chain |
| OverflowTree.BTree.RangeQuery | src/core/index/b_plus.h:531-541 | exactly the records of the interval with a value other than 0, in key order |
| CuckooIndex.AltIsInvolution | libcuckoo/libcuckoo/cuckoohash_map.hh:785-796 | the alternate of the alternate bucket is the bucket |
| CuckooIndex.AltStaysInPair | libcuckoo/libcuckoo/cuckoohash_map.hh:768-796 | moving to the alternate bucket keeps a key in its pair |
| CuckooIndex.DoublingAddsTopBit | libcuckoo/libcuckoo/cuckoohash_map.hh:764-796 | doubling adds at most the top bit to each of a key's two buckets |
| CuckooIndex.TopBitIsFree | libcuckoo/libcuckoo/cuckoohash_map.hh:1788-1793 | the upper candidate is one table size further and maps back to the old bucket |
| CuckooIndex.StripeIsClosed | libcuckoo/libcuckoo/cuckoohash_map.hh:1129-1131 | the upper candidate shares the lock of the old bucket |
| CuckooStripe.StripeHas | libcuckoo/libcuckoo/cuckoohash_map.hh:980-983 | the buckets l, l + size, … below the table size are exactly those whose low bits are l |
| CuckooStripe.StripeSteps | libcuckoo/libcuckoo/cuckoohash_map.hh:980-983 | each bucket of the stripe is one stride behind the one before, and the loop ends behind the last |
| CuckooStripe.StripeDistinct | libcuckoo/libcuckoo/cuckoohash_map.hh:980-983 | no bucket of the stripe is visited twice |
| CuckooSafety.HopKeeps | libcuckoo/libcuckoo/cuckoohash_map.hh:1499-1565 | a guarded hop keeps the invariant and the abstract map |
| CuckooSafety.AddKeeps | libcuckoo/libcuckoo/cuckoohash_map.hh:1253-1316 | an insertion after the second duplicate search keeps every key unique and in its pair, and the counter sum exact |
| CuckooSafety.EraseKeeps | libcuckoo/libcuckoo/cuckoohash_map.hh:2009-2012 | an erasure keeps the invariant |
| CuckooSafety.TakeLockKeeps | libcuckoo/libcuckoo/cuckoohash_map.hh:1018-1077 | taking locks with the counter comparison keeps the invariant |
| CuckooSafety.OtherKeeps | libcuckoo/libcuckoo/cuckoohash_map.hh:1371-1424 | what another thread relies on is behind its own locks and survives |
| CuckooSafety.StepKeeps | libcuckoo/libcuckoo/cuckoohash_map.hh:1253-1424 | every step of every thread keeps the invariant, unless it completes a snapshot torn by a resize that changed the key's buckets |
| CuckooSafety.ResizeKeeps | libcuckoo/libcuckoo/cuckoohash_map.hh:1699-1781 | a doubling that moves every bucket keeps each key in one of its buckets, no key twice and the same entries; old snapshots become outdated |
| CuckooSafety.RunsAreSafe | libcuckoo/libcuckoo/cuckoohash_map.hh:1253-1565 | in every run where resizes inside a snapshot leave the key's buckets the same, each key sits in one of its two buckets, no key is stored twice, and the counters sum to the number of entries; `CuckooLazy.LazyRunsAreSafe` carries this over to tables migrated lock by lock |
| CuckooSafety.LookupIsExact | libcuckoo/libcuckoo/cuckoohash_map.hh:1079-1100 | under the pair locks the two buckets tell whether the key is in the table |
| CuckooSafety.FindReturnsStored | libcuckoo/libcuckoo/cuckoohash_map.hh:463-473 | a find returns the value stored under its key, and nothing exactly when the key is not stored |
| CuckooSafety.StepEffect | libcuckoo/libcuckoo/cuckoohash_map.hh:1253-1565 | an insertion adds one entry, under an absent key; an erasure removes the one entry of its key; no other step changes the entries; an erasure that reports nothing and an insertion that reports a duplicate tell the truth |
| CuckooProgress.LookingDecides | libcuckoo/libcuckoo/cuckoohash_map.hh:510-523 | with both buckets locked, an erasure can report a miss exactly when the key is not stored and a hit exactly when it is; an insertion can report a duplicate exactly when the key is stored, take a slot exactly when it is not and there is room, and search for a path exactly when both buckets are full |
| CuckooProgress.FreedDecides | libcuckoo/libcuckoo/cuckoohash_map.hh:1294-1303 | after a path has freed a slot, the second search stops exactly when the key has come in meanwhile |
| CuckooProgress.SearchingCan | libcuckoo/libcuckoo/cuckoohash_map.hh:1368-1424 | every acceptable path can be taken, and a search can give up |
| CuckooProgress.CallReaches | libcuckoo/libcuckoo/cuckoohash_map.hh:1086-1100 | an operation left alone gets the locks of both buckets under an up-to-date snapshot |
| CuckooProgress.InsertionCompletes | libcuckoo/libcuckoo/cuckoohash_map.hh:1499-1565 | an insertion with an accurate path, left alone, moves the keys out of the way hop by hop and puts in exactly its entry; no lock stays behind |
| CuckooSafety.DoublingKeepsPairIff | libcuckoo/libcuckoo/cuckoohash_map.hh:764-796 | for one doubling a key keeps its two buckets exactly when neither its hash nor the word of its second bucket has the new top bit |
| CuckooSafety.TornInsertLands | libcuckoo/libcuckoo/cuckoohash_map.hh:1086-1100 | whatever size an insertion has loaded, the counter check passes, the entry lands in a bucket of that size, and nothing else changes |
| CuckooSafety.TornMisplaces | libcuckoo/libcuckoo/cuckoohash_map.hh:1086-1100 | from any torn snapshot with a free slot in a bucket that is no longer the key's, the insertion alone goes through and breaks placement |
| CuckooSafety.TornDuplicates | libcuckoo/libcuckoo/cuckoohash_map.hh:1086-1100 | when the key is stored where the old size does not look, the insertion goes through and stores it twice |
| CuckooSafety.TornBreaks | libcuckoo/libcuckoo/cuckoohash_map.hh:1086-1100 | the condition is exact: for every size, every number of doublings between the two loads and every key that these give different buckets, some run from the initial state ends with the key misplaced or stored twice |
| CuckooSafety.TornSnapshotMisplaces | libcuckoo/libcuckoo/cuckoohash_map.hh:1086-1100 | a complete run at concrete values in which a doubling between the two loads misplaces a key |
| CuckooDoubling.DestinationIsRight | libcuckoo/libcuckoo/cuckoohash_map.hh:1804-1821 | the chosen bucket is one of the key's two buckets in the doubled table |
| CuckooDoubling.MovedToIs | libcuckoo/libcuckoo/cuckoohash_map.hh:1783-1827 | moving a bucket writes only free slots, keeps what was there and moves each entry once |
| CuckooDoubling.MoveBucket | libcuckoo/libcuckoo/cuckoohash_map.hh:1783-1827 | the loop computes that move |
| CuckooDoubling.SpreadIsAllMoved | libcuckoo/libcuckoo/cuckoohash_map.hh:1783-1827 | the doubled table holds every old entry at the place move_bucket gives it, and nothing else; no two go to the same place |
| CuckooDoubling.MovedIsPart | libcuckoo/libcuckoo/cuckoohash_map.hh:1783-1827 | moving one bucket adds exactly the part of the doubled table that this bucket becomes |
| CuckooDoubling.MoveStripe | libcuckoo/libcuckoo/cuckoohash_map.hh:980-983 | the strided loop adds exactly the part of the doubled table that its stripe becomes, whatever else the new array holds |
| CuckooDoubling.RehashLock | libcuckoo/libcuckoo/cuckoohash_map.hh:968-989 | rehashing a lock fills exactly the part of the new array that the lock guards, whatever has been inserted or erased behind other locks; a migrated lock is left alone |
| CuckooDoubling.PairKeepsStripes | libcuckoo/libcuckoo/cuckoohash_map.hh:1018-1034 | the locks of a key's buckets are the same before and after the doubling |
| CuckooDoubling.AllMovedIs | libcuckoo/libcuckoo/cuckoohash_map.hh:1699-1781 | the doubled table has every key in its doubled pair, no key twice, and the same entries |
| CuckooDoubling.DoubleNow | libcuckoo/libcuckoo/cuckoohash_map.hh:1759-1764 | the loop over a small table computes the doubled table at once |
| CuckooLazy.MigrationPreserves | libcuckoo/libcuckoo/cuckoohash_map.hh:968-989 | rehashing a lock changes no entry of the map, at any time of the migration |
| CuckooLazy.StepRefines | libcuckoo/libcuckoo/cuckoohash_map.hh:1018-1077 | every step of a thread in a half-migrated table, with the locks it takes rehashed, is the same step in the table with everything moved |
| CuckooLazy.MigrationCan | libcuckoo/libcuckoo/cuckoohash_map.hh:999-1008 | a bucket can be looked into exactly when its lock is free, and the table can double exactly when no lock is held |
| CuckooLazy.DoubleRefines | libcuckoo/libcuckoo/cuckoohash_map.hh:1699-1781 | a doubling, migrated lazily or at once, on top of an unfinished migration or not, is a resize of the whole table |
| CuckooLazy.RunRefines | libcuckoo/libcuckoo/cuckoohash_map.hh:1018-1077 | every run of the lazily migrated table without a harmful torn snapshot is a run of the map with the same thread steps and doublings |
| CuckooLazy.LazyRunsAreSafe | libcuckoo/libcuckoo/cuckoohash_map.hh:1253-1565 | in all these runs finds, insertions, erasures and hops in a half-migrated table keep each key in one of its two buckets, no key twice, and the counters exact |
| CuckooLazy.LiveIs | libcuckoo/libcuckoo/cuckoohash_map.hh:968-989 | the entries of the map are those of the new array and those of the old one whose lock has not been rehashed |
| CuckooLazy.FindDuringDoubling | libcuckoo/libcuckoo/cuckoohash_map.hh:463-473 | a find in a half-migrated table returns the live value of its key, and nothing exactly when there is none |
| CuckooLazy.ReturnsDuringDoubling | libcuckoo/libcuckoo/cuckoohash_map.hh:510-523 | what erasures and insertions report in a half-migrated table is true of the live entries |
| CuckooLazy.LookingDuringDoubling | libcuckoo/libcuckoo/cuckoohash_map.hh:510-523 | and each of these reports is possible exactly when it is true |
| CuckooPath.GeometricSum | libcuckoo/libcuckoo/cuckoohash_map.hh:1624-1638 | the closed form of the queue size is the number of entries two starting buckets can produce |
| CuckooPath.ScanBucket | libcuckoo/libcuckoo/cuckoohash_map.hh:1664-1687 | one bucket never overruns the queue; every entry queued codes a walk from a starting bucket through keys really seen, and holds its end bucket; without a free slot every slot was seen taken |
| CuckooPath.SlotSearch | libcuckoo/libcuckoo/cuckoohash_map.hh:1656-1692 | for every table, even one that changes during the search, the queue is never overrun; the result codes a walk really taken from a starting bucket to a slot seen free; no result means that every bucket queued showed full |
| CuckooPath.FailureIsFinal | libcuckoo/libcuckoo/cuckoohash_map.hh:1656-1692 | in a table that does not change, the search fails only when no walk of at most five buckets leads to a free slot |
| CuckooPath.Decode | libcuckoo/libcuckoo/cuckoohash_map.hh:1443-1458 | the digits decoded are those of the code; on an exact code they are the start bucket and the slots walked |
| CuckooPath.LookAgain | libcuckoo/libcuckoo/cuckoohash_map.hh:1459-1488 | the second look records the hashes it finds, follows their alternate buckets along the decoded slots, and stops early only at a free slot |
| CuckooPath.CuckooPathSearch | libcuckoo/libcuckoo/cuckoohash_map.hh:1434-1489 | search, decoding and second look together give a path that the moves of an insertion accept, cut short only at a slot seen free; with at most eight slots it starts in the bucket and goes through the slots the search walked |
| CuckooPath.CodeIsExact | libcuckoo/libcuckoo/cuckoohash_map.hh:1574-1600 | with at most eight slots no code overflows 16 bits |
| CuckooPath.RoundTripIff | libcuckoo/libcuckoo/cuckoohash_map.hh:1582-1585 | among the slot numbers the guard accepts, codes are faithful exactly up to eight |
| CuckooPath.NineStartsWrong | libcuckoo/libcuckoo/cuckoohash_map.hh:1443-1458 | with nine slots the code of a walk from the second bucket is decoded as another walk, from the first |
| SmoLock.StepKeeps | src/core/index/plin_index.h:97-127 | every atomic step keeps the word equal to the writer bit plus the number of readers |
| SmoLock.RunsKeep | src/core/index/plin_index.h:97-127 | so do all runs of fewer than 2^31 threads |
| SmoLock.WriterIsAlone | src/core/index/plin_index.h:97-110 | a writer that returned true excludes all readers and all other writers |
| SmoLock.NoReaderEnters | src/core/index/plin_index.h:113-121 | while a writer waits or writes, no step lets a reader in |
| SmoLock.RefusedByOwner | src/core/index/plin_index.h:97-121 | a call gives up exactly when some thread waits to write or writes; a waiting writer goes on waiting exactly while some thread reads |
| SmoLock.ReaderGetsIn | src/core/index/plin_index.h:113-121 | a reader left alone gets in when nobody waits to write or writes |
| SmoLock.WriterGetsIn | src/core/index/plin_index.h:97-110 | a writer left alone gets the lock when nobody is in |
| SmoLock.ReadersOverflow | src/core/index/plin_index.h:113-121 | the bound is exact: the 2^31st reader, and no earlier one, sets the writer bit |
| RangeMap.LocateEnd | src/common/range_map.cpp:236-246 | the loop computes the binary search |
| RangeMap.LocateIsExact | src/common/range_map.cpp:236-246 | a key goes to a range that holds it; it goes to none exactly when none holds it, if and only if the search never turns away from the only ranges that hold it |
| RangeMap.SearchIff | src/common/range_map.cpp:236-246 | the same for every interval of the search |
| RangeMap.GapsClearIff | src/common/range_map.cpp:236-246 | for every interval the search comes to: it is exact for all keys that lead there if and only if no range lies where it gives up |
| RangeMap.AllKeysExactIff | src/common/range_map.cpp:236-246 | a condition on the ranges alone: every key some range holds is routed if and only if no range lies where the search gives up |
| RangeMap.AscendingNeverLost | src/common/range_map.cpp:236-246 | ascending lower and upper bounds suffice |
| RangeMap.TwoNestedAreFound | src/common/range_map.cpp:236-246 | they are not necessary: two nested ranges are searched exactly |
| RangeMap.NestedRangesAreMissed | src/common/range_map.cpp:236-246 | sorted lower bounds alone are not enough |
| RangeMap.EdgeOfIs | src/common/range_map.cpp:248-252 | with unique ids the scan returns the End's own Edge |
| RangeMap.SameEdgeIff | src/common/range_map.cpp:264-266 | two Ends share an Edge exactly when both are configured and name the same one |
| Protocol.BuildHotUpdate | src/cloud/cloud_server.cpp:332-351 | the pushed pairs are the first dataset records at hot positions routed to the target, all of them or up to the limit; empty exactly when no position qualifies |
| ProtocolSafety.EdgeIsExact | src/edge/edge_server.cpp:467-476 | the Edge of the End a key is routed to holds all the dataset has for it |
| ProtocolSafety.ReceiveOk | src/end/end_node.cpp:112-137 | reading a frame keeps the End's invariant, and a finished lookup tells the truth |
| ProtocolSafety.AnsweredIsMine | src/end/end_node.cpp:184-224 | a response at the head of the channel was computed for the one key the End waits for, and no other follows |
| ProtocolSafety.HandleOk | src/edge/edge_server.cpp:356-422 | each request the handler reads gets one answer about its key |
| ProtocolSafety.RepliesOk | src/edge/edge_server.cpp:370-377 | the handler passes on the Cloud's answer, or an error, for the key it was asked |
| ProtocolSafety.LocksOk | src/cloud/cloud_server.cpp:277-281 | a worker writes its request only while it holds the control connection |
| ProtocolSafety.ReadsOk | src/cloud/cloud_server.cpp:280-283 | the frame a worker reads under the lock answers its own request |
| ProtocolSafety.AcceptsOk | src/cloud/cloud_server.cpp:285-298 | routing in the Cloud leads to the control connection of the right Edge |
| ProtocolSafety.RegistersOk | src/cloud/cloud_server.cpp:255-262 | a registration replaces the control connection of an Edge at any time; workers go on with the one they hold |
| ProtocolSafety.AcknowledgesOk | src/cloud/cloud_server.cpp:263-266 | the acknowledgement, written without the lock, may follow requests already under way |
| ProtocolSafety.ServeOk | src/edge/edge_server.cpp:168-222 | the control thread answers the one outstanding request and forwards pushes to their target only |
| ProtocolSafety.StepKeeps | src/end/end_node.cpp:269-330 | every action of every process, failures included, keeps the invariant |
| ProtocolSafety.RunsKeep | src/edge/edge_server.cpp:341-425 | so do all interleavings |
| ProtocolSafety.LookupsAreExact | src/end/end_node.cpp:269-330 | in every interleaving a lookup not cut short by a connection failure finds exactly the routable keys of the dataset, with their payloads |
| ProtocolFailures.NewError | src/edge/edge_server.cpp:356-422 | an error on its way to a lookup was on its way before, or the action is a failure that touches the lookup, or a control connection of the responsible Edge is broken |
| ProtocolFailures.FailuresHaveCauses | src/end/end_node.cpp:112-137 | in every interleaving a lookup fails only if the End's own connection or a control connection of the responsible Edge has broken, or since it began its handler could not reach the Cloud, gave up, or found that Edge unregistered |
| ProtocolFailures.CalmLookupsAreExact | src/end/end_node.cpp:269-330 | in a run without such failures every lookup that answers finds exactly the routable keys of the dataset, with their payloads |
| ProtocolProgress.NoLookupIsStuck | src/edge/edge_server.cpp:356-422 | in every interleaving, while an End waits, an action that brings lookups forward is possible |
| ProtocolProgress.EveryKeyHasAStage | src/end/end_node.cpp:269-330 | every lookup an End may begin has its stage, in the order of the four stages |
| ProtocolProgress.AnswersWarm | src/end/end_node.cpp:297-325 | a payload found by another process is in the hot cache afterwards |
| ProtocolProgress.PushGoesDown | src/edge/edge_server.cpp:168-184 | a pushed list goes on to its target unless that End is not there |
| ProtocolProgress.PushArrives | src/end/end_node.cpp:356-377 | every pair of a pushed list is in the hot cache once the End has read it |
| ProtocolSafety.ResponsesMatch | src/end/end_node.cpp:112-137 | in every interleaving a response about to be read answers the outstanding key, although request ids are ignored |
| ProtocolSafety.CachesAgree | src/end/end_node.cpp:356-377 | in every interleaving hot caches agree with the dataset |
| ProtocolSafety.PushesServeNobody | src/cloud/cloud_server.cpp:343-350 | a push never changes what the hot-cache stage answers |
| ParamStream.SerializeParameter | src/core/index/serialize.h:26-42 | the loops write the byte encoding |
| ParamStream.DeserializeParameter | src/core/index/serialize.h:44-64 | the loops read it back, with the exception for more than 100 levels |
| ParamStream.RoundTripIff | src/core/index/serialize.h:26-64 | a table survives the wire exactly when it has at most 100 levels; otherwise the reader throws |
| ParamStream.LayoutIs | src/core/index/serialize.h:26-42 | on the wire: the number of levels, then per level its length and per parameter first key, slope, intercept and block number, as little-endian 64-bit words with nothing in between |
| Snapshot.AgreesWithNode | src/core/index/cache_model.h:123-130 | the shipped model predicts the block the node itself predicts |
| Snapshot.PredictPosLoop | src/core/index/cache_model.h:96-121 | the nested loops compute the level-by-level prediction |
| Snapshot.PredictFollows | src/core/index/cache_model.h:96-121 | the prediction follows, on every level, the home that the node of the first segment above the value, or of the last one, has for it; there is exactly one such trail, and the result is where it ends |
| Snapshot.LeafIsNearest | src/edge/edge_server.cpp:269-276 | the leaf of a record is the one whose number is nearest to its prediction |
| Snapshot.PredictsNonNegative | src/core/index/cache_model.h:96-121 | with at least one level the prediction is never negative |
| Snapshot.CountLeaves | src/edge/edge_server.cpp:269-276 | the counts are the sizes of the groups |
| Snapshot.PrefixSums | src/edge/edge_server.cpp:278-283 | the offsets are contiguous |
| Snapshot.Scatter | src/edge/edge_server.cpp:285-290 | the records are the groups one after the other, each in dataset order |
| Snapshot.BuildSnapshot | src/edge/edge_server.cpp:258-292 | the records are a permutation of the dataset grouped by predicted leaf, with exact offsets and counts |
| Snapshot.JoinedPermutes | src/edge/edge_server.cpp:285-290 | the groups together are a permutation of the dataset |
| Snapshot.GroupFinds | src/edge/edge_server.cpp:269-276 | the first record with a key in its group is the first one in the dataset |
| Snapshot.EndLookup | src/end/end_node.cpp:139-182 | unavailable without snapshot, prediction or descriptor; a hit is a record of the snapshot |
| Snapshot.SnapshotIsExact | src/end/end_node.cpp:139-182 | with successful reads a lookup hits exactly the dataset keys, with the first payload, and is unavailable exactly when the leaf of the key is empty |
| Snapshot.EndHitsExactly | src/end/end_node.cpp:139-182 | the same with the parameters the End read from the pushed bytes |

## Left out

- Floating-point rounding, including the narrowing of intercepts to `float`: all arithmetic is exact over the reals.
- Conversion of a prediction outside the range of `int64_t` or `int`, which is undefined in the source.
- A node over one key divides by a key range of zero; its model is taken to predict one fixed position, an arbitrary parameter of the build.
- Update in place of leaf slots: blocks and leaves are values that the operations return changed, so aliasing of a leaf between threads is not captured.
- Block version locks, the node locks of leaves, and the packed `info` word of `InnerSlot`.
- Background split, rebuilding of inner nodes, abandoned and orphan leaves: upsert reports that a split is due, and the split itself is not part of the model.
- B+ tree deletion and `LeafNode::remove`: the insertion invariants do not carry over to them.
- Pages of the tree (`OverflowTree`) keep their live records as a sequence; the in-place array with its stale slots is `PageRecords`, tied to the same functions on sequences.
- `CuckooLazy` rehashes a lock when it is taken; `lock_two` and `lock_three` do so after the last of their locks, and nobody else can look behind the first ones in between.
- CuckooLazy.RunRefines: does not cover runs with a torn snapshot that changes a key's buckets, because such runs break the map itself (`CuckooSafety.TornBreaks`).
- `rehash`, `reserve` and `cuckoo_expand_simple`, which build a second map and swap it in.
- Lock acquisition order and freedom from deadlock: only safety is stated.
- `make_segmentation_par`, the parallel variant of the segmentation.
- Descriptor counts are 32-bit words in the source and unbounded here: datasets of 2^32 or more records per leaf are not captured.
- The `stale` flag of responses is always 0 in the source, so the parameter request it would trigger after a lookup is left out; parameter requests between lookups are included.
- Frames are written and read whole: bytes of two frames written at the same time without a common lock do not mix.
- The receiver thread an End starts after its last lookup, and connection setup retries.
- LSTM training and prediction, workload replay, YAML and file loading, sockets, RDMA verbs, logging and benchmarks.
