# The MultiMLton memory manager, modelled and proved

This project models the garbage collectors of the MultiMLton runtime (`runtime/gc`) and the machinery that lets
several processors share a heap, and proves that they do what they are for. The target is the 64-bit native model:
object pointers, headers and array lengths take eight bytes.

**The heap.** Memory maps byte addresses to the words that start there (`Memory`). Headers are integers whose bits
are taken apart by division and remainder, with every field at its place (`Objects`). Sizes, slots and the walk over
an object are those of `object-size.c` and `foreach.c` (`Layout`), and a heap is a sequence of objects that tile it
(`HeapObjects`). The alignment is a parameter. An object that has been lifted to the shared heap leaves a header of
all ones and a pointer behind; `Forwarding` follows such pointers. `Arithmetic` and `Sequences` hold what several
parts share.

**The collectors.** Each algorithm is a class whose methods rewrite the memory in place, with the loops, branches
and writes of the C code. Each method is proved against a logical memory or a ghost state. The central idea is the
same each time: the scrambled heap in the middle of a pass *represents* an orderly one, and every write keeps the
representation.

- Mark-compact. `Threading` gives a heap with headers threaded into chains its logical contents. `ForwardPass` and
  `BackwardPass` are the two passes of Jonkers' algorithm, `MarkCompact` the code, `Compacted` the outcome.
- Marking. `DepthFirst` is the walk as a recursive function. `PointerReversal` represents a heap with reversed
  pointers and counters in headers, `MarkState` and `MarkSteps` have what each step keeps, `DfsMark` the state machine,
  proved to do what the recursive walk does. `Cleanliness` has the walks that mark and unmark again, `MarkSize` what
  their byte counts are worth.
- The whole collection. `MarkRoots` marks from all roots in turn, `MarkWeaks` clears weak pointers, `MajorPlan`
  derives the compaction from the marked heap, and `MajorMarkCompact` puts them together. Any of the pointers may
  lead to an object that has been lifted.
- Copying. `CopyJob` and `CopySteps` hold what a copy and an updated slot keep, `CopyScan` the scan, `CheneyCopy`,
  `CheneyWeaks` and `Cheney` the collectors. `LiftRanges` and `Lift` reuse this for lifting a closure to the shared
  heap in chunks that need not be contiguous; `LiftRuns` places such a lift in a run of the shared allocator.
- Generations. `CrossMap` is the map from cards to objects, `CardScan` the scan of the marked cards, and
  `MinorCollection` the two together with the copying collector.

**The protocols.** `SharedAlloc` (bump allocation by compare-and-swap), `Barrier` (the ticket barrier with sleep and
wake-up), `QueueLock` (a re-entrant lock) and `QueueRuns` (a scheduler queue under that lock) are state machines over
the single reads and writes of any number of processors. Their theorems hold in every state of every run, under
sequential consistency. `SharedAlignment` says over all runs of the allocator which frontiers and gaps are aligned.
`SharedTiles` adds memory to them: objects where something has been allocated, fillers where chunks have been given
up, and what a collection of the shared heap then finds.

**Tables, queues, accounts.** `Probing`, `HashTable` and `HashCons` are the hash-consing table; `LinkedLists`,
`Buckets`, `Expansion` and `UtHash` the chained hash table; `SchedulerQueue` the growable ring buffers; `IntInf` the
encoding of big integers; `Profiling` the lazy tick accounting.

**Examples.** `SmallHeap` is a heap of three objects, which shows that what the collectors ask for can be met and what
a collection makes of it. `LiftedHeap` and `Mishaps` are small heaps on which operations that accept them do not do
what they are for.

## What the proofs brought to light

Where code and comment disagree, the model follows the code. Each of these is stated exactly by the member named.

- A marking passes over a pointer to a lifted object, because the forwarding header of all ones reads as marked. An
  unmarking does not: it takes the lifted object for one still to be unmarked, changes its forwarding header and looks
  its type up past the end of the table. So marking and then unmarking leaves memory as it was if and only if none of
  the objects visited has a pointer to a lifted one (`Cleanliness.MarkThenUnmark`; a heap on which it does not:
  `LiftedHeap.WalkGoesWrong`). For `GC_isObjectClosureClean`, `__GC_isThreadClosureClean`, `GC_sizeInLocalHeap` and
  `estimateSizeForLifting` this becomes a condition on what can be reached.
- From a root that has been lifted itself, `estimateSizeForLifting` marks nothing and then, unmarking, marks the object
  in the shared heap that the root was lifted to (`Cleanliness.UnmarkingFromLifted`, `Cleanliness.EstimateSizeForLifting`).
- Mark-compact collection serves pointers to lifted objects: they end up with the forwarding address. It goes wrong
  exactly if a surviving slot leads back to a lifted object whose header is among the first three words of a run of
  garbage of 32 bytes or more, before a surviving object: by then the run has been made a byte vector, the forwarding
  header is gone, and the slot is threaded to the vector (`MajorMarkCompact.MajorMarkCompactGC`; such a heap:
  `LiftedHeap.CollectionGoesWrong`).
- The last entry of the cross map is wrong exactly when the old generation ends at the end of a card, since the cast
  to eight bits comes before the division (`CrossMap.LastEntryIsRight`; such a heap: `Mishaps.CrossMapGoesWrong`). No
  other entry is affected.
- `dfsMarkByMode` returns the bytes of what it has marked exactly when nothing that can be reached is weak; weak
  objects are marked but not counted (`MarkSize.SizeIsExact`; such a heap: `MarkSize.WeakAddsNothing`).
- While immutable objects are being copied, forwarding a slot fails its assertion exactly when the slot leads to an
  object that has already been forwarded, because `hasIdentity` then keeps its initial value
  (`Lift.Lifter.ForwardObjptrToSharedHeap`; such a heap: `Mishaps.ForwarderAssertionFails`). `liftObjptr` follows
  forwarding pointers first, so it never comes to that.
- `fillGap` leaves a walkable heap exactly when a gap that takes a byte vector is a multiple of the alignment
  (`FillGap.FillGap`). Between two collections every frontier and every gap of the shared heap stays aligned, in all
  runs, if and only if the bonus slop is a multiple of the alignment (`SharedAlignment.RunsStayAligned`). It is twelve
  bytes here: with an alignment of four a collection finds the heap tiled by objects
  (`SharedTiles.CollectionFindsTiles`), with eight there is a run after which it finds a filler that the walk steps
  past the end of (`SharedTiles.CollectionFindsNoTiles`). The assertion that frontiers laid out after a collection are
  aligned holds under the same condition, or for a single processor (`SharedAlignment.LaidOutAligned`).
- The length of a queue is computed with a 32-bit difference and a 64-bit size. This is right for every position
  exactly when the size divides two to the thirty-second (`SchedulerQueue.WrapIsHarmless`).
- The hash-consing table counts elements again when it moves them, so a table that has just grown is already due to
  grow at the next call (`HashCons.Fits`, kept by `HashCons.ObjectHashTable.GrowHashTableMaybe`).
- `IntInf_equal` is right against every canonical number exactly for a canonical one (`IntInf.EqualDecides`); a small
  number in a vector is not found equal to the tagged word for it (`IntInf.UncanonicalFive`). Every result of
  `finiIntInfRes` is canonical, so that does not arise.
- A weak pointer into the shared heap is cleared by a local mark-compact collection although its target is alive
  there: nothing in the shared heap is marked (`MarkWeaks.SharedTarget`; such a heap: `Mishaps.SharedTargetIsLost`).
- The copy of a lifted weak object keeps its pointer into the local heap (`Lift.WeakPointerStays`; such a lift:
  `Mishaps.WeakPointerIsLeftBehind`).
- `COUNTER_BITS` is ten but `COUNTER_MASK` has eleven bits. The model follows the mask: an object has at most 2048
  pointers to an element.

## Model

| member | source | states |
|---|---|---|
| Memory.CopyCells | runtime/gc/mark-compact.c:441 | copying downwards over an overlapping range delivers the words that were there before |
| Objects.ToggleMarkKeepsTheRest | runtime/gc/object.h:64-79 | flipping the mark bit changes no other header field and undoes itself |
| Objects.SetCounterKeepsTheRest | runtime/gc/object.h:64-79 | a counter below 2048 fits its field, changes no other one, and the old counter can be put back |
| Layout.SlotsSpaced | runtime/gc/object-size.c:9-84 | every pointer slot of an object lies between its header and its end, eight bytes from the next, where no header can be |
| Layout.ForeachObjptrInObject | runtime/gc/foreach.c:151-313 | the walk offers exactly the pointer slots of the object's type, in order, and ends where sizeofObject says |
| HeapObjects.ObjectOfAddress | runtime/gc/foreach.c:326-345 | in a tiled heap an address belongs to one object |
| FillGap.FillGap | runtime/gc/garbage-collection.c:469-525 | gives up exactly on gaps no filler fits; otherwise writes the words of one filler, over which both walks step to the end of the gap, in the byte-vector case if and only if the gap is aligned; writes nothing else |
| Forwarding.FixFwdObjptr | runtime/gc/forward.c:789-805 | follows a chain of forwarding pointers of any length to its end |
| Forwarding.FollowedEnough | runtime/gc/forward.c:789-805 | where a chain ends does not depend on how often the loop is allowed to go round |
| Threading.ThreadSlotKeepsRep | runtime/gc/mark-compact.c:47-61 | threading a slot adds it to its target's chain and leaves the logical heap as it was |
| Threading.UnthreadFirstKeepsRep | runtime/gc/mark-compact.c:293-314 | taking the first slot off a chain gives it the new address in the logical heap and keeps every other chain |
| Threading.HeaderInPlace | runtime/gc/mark-compact.c:147-148 | the word at an object's header is a header exactly when nothing is threaded to the object, and then it is the right one |
| MarkCompact.Compactor.UpdateThreadedPointers | runtime/gc/mark-compact.c:293-316 | the loop gives every slot threaded to an object the object's new address, ends with the header back in place, and changes no other word |
| MarkCompact.Compactor.ThreadInternalObjptr | runtime/gc/mark-compact.c:47-73 | follows forwarding pointers first; then threads the slot if and only if it leads into the heap; a slot that led to a lifted object gets the forwarding address; this goes wrong exactly on a lifted object whose header a vector has been written over, and then the slot is threaded to the vector |
| Threading.RedirectKeepsRep | runtime/gc/mark-compact.c:63-64 | giving a slot that is not threaded another word keeps the represented heap |
| MarkCompact.Compactor.ForwardLiveObject | runtime/gc/mark-compact.c:147-272 | one live object of the first pass: slots threaded to it so far get its new address, its own slots are threaded or sent to forwarding addresses, and the dead run before it becomes one vector; wrong exactly if one of its slots leads back to a lifted object under such a vector |
| MarkCompact.Compactor.UpdateForwardPointers | runtime/gc/mark-compact.c:121-324 | the first pass resolves every forward pointer, leaves every backward pointer threaded, and the heap it leaves has the same live objects and the same dead bytes before each of them, if and only if no live slot leads back to a lifted object under a vector |
| MarkCompact.Compactor.SlideLiveObject | runtime/gc/mark-compact.c:349-445 | one live object of the second pass: its threaded slots are resolved, it is unmarked and moved down by the dead bytes before it |
| MarkCompact.Compactor.UpdateBackwardPointersAndSlide | runtime/gc/mark-compact.c:326-487 | the second pass resolves all that is threaded, moves every live object, and oldGenSize becomes the bytes of the live objects |
| MarkCompact.Compactor.CompactMarked | runtime/gc/mark-compact.c:519-523 | on any tiled heap with its live objects marked, lifted objects among the dead ones, threading the roots and both passes leave the heap compacted and oldGenSize less by the dead bytes, if and only if no live slot leads back to a lifted object under a vector |
| Compacted.CompactionIsCorrect | runtime/gc/mark-compact.c:121-487 | after both passes every live object is at its old address less the dead bytes before it, unmarked; its pointers and the roots lead to new places, those to lifted objects to where these were lifted; nothing outside has changed |
| Compacted.SameGap | runtime/gc/mark-compact.c:160-190 | compressing dead runs does not change how far an object moves, so both passes agree |
| Compacted.MovedObjectsTile | runtime/gc/mark-compact.c:326-487 | the moved objects tile the heap from its start without a gap, in their old order |
| Compacted.CompactedObject | runtime/gc/mark-compact.c:326-487 | each moved object reads as an unmarked object of its old type, length and size, with every slot redirected |
| ForwardPass.Pass1End | runtime/gc/mark-compact.c:274-292 | a trailing dead run changes neither the live objects nor the number of dead bytes |
| BackwardPass.Pass2Slide | runtime/gc/mark-compact.c:433-443 | sliding an object over what lies before it keeps all that is still to be moved |
| PointerReversal.SuspendKeepsRep | runtime/gc/dfs-mark.c:105-125 | leaving an object with its pointer reversed and its cursor in header and array counter still represents the same heap |
| PointerReversal.ResumeKeepsRep | runtime/gc/dfs-mark.c:343-402 | restoring the reversed pointer gives the slot its old value |
| MarkGraph.TraversalIsExact | runtime/gc/dfs-mark.c:43-404 | a traversal that leaves no fresh successor out has exactly what a path of fresh objects reaches |
| DfsMark.Marker.DfsMarkByMode | runtime/gc/dfs-mark.c:43-404 | terminates on any closed graph, pointers to lifted objects included; flips the mark of exactly the objects that a recursive depth-first walk visits, in its order, and restores every pointer, header and counter; links the weak objects among them; the flag says whether all visited objects were clean; the size is that of the objects counted; unless a visitor stops it, no fresh object that can be reached is left out. Only unmarking can go wrong, on meeting a pointer to a lifted object or on a lifted root, and then a header is changed that is none of its own |
| DfsMark.Marker.MarkNext | runtime/gc/dfs-mark.c:105-153 | descending reverses the pointer, saves the cursor and marks the next object; it goes wrong exactly if that is a lifted one, and then the forwarding header is changed |
| DfsMark.Marker.ReturnToPrev | runtime/gc/dfs-mark.c:343-402 | returning restores the pointer and goes on behind it |
| MarkSize.SizeIsExact | runtime/gc/dfs-mark.c:145-222 | the size returned is at most that of the objects marked, and equal to it exactly when none of them is weak or, in an estimate, shared; after an uninterrupted marking exactly when nothing that can be reached is |
| MarkSize.WeakAddsNothing | runtime/gc/dfs-mark.c:190-209 | a heap of one weak object that marking accepts: whatever its outcome, the object is marked and zero returned in place of 24 |
| MarkSize.WeakAloneIsValid | runtime/gc/dfs-mark.c:190-209 | that heap meets all that marking asks for |
| MarkSize.WeakIsMarked | runtime/gc/dfs-mark.c:190-209 | and there is such an outcome |
| Cleanliness.MarkingIsExact | runtime/gc/dfs-mark.c:43-404 | an uninterrupted marking lists exactly what can be reached; the flag is true if and only if everything reachable is clean |
| Cleanliness.UnmarkReaches | runtime/gc/object-cleanliness.c:131-197 | unmarking from the same root reaches every object that a marking cut short has marked |
| Cleanliness.MarkThenUnmark | runtime/gc/object-cleanliness.c:131-197 | marking with any visitor and then unmarking leaves every word as it was if and only if none of the objects that the marking visits has a pointer to a lifted one |
| Cleanliness.UnmarkingFromLifted | runtime/gc/dfs-mark.c:70-88 | unmarking from a lifted root changes nothing if it is to stay out of the shared heap; otherwise it marks the object that was lifted |
| Cleanliness.MarkAndUnmark | runtime/gc/object-cleanliness.c:180-187 | marking and unmarking together, from an object or from a lifted one: memory is unchanged exactly under that condition, and for an uninterrupted marking it is a condition on what can be reached |
| Cleanliness.IsObjectClosureClean | runtime/gc/object-cleanliness.c:166-197 | true exactly when every reachable object is clean; memory is unchanged if and only if no object visited has a pointer to a lifted one |
| Cleanliness.IsThreadClosureClean | runtime/gc/object-cleanliness.c:131-164 | true exactly when every reachable object is clean, and then the size is that of the closure; memory is unchanged if and only if no object visited has a pointer to a lifted one |
| Cleanliness.SizeInLocalHeap | runtime/gc/size.c:14-31 | the counted bytes of exactly the objects reachable within the local heap, none from a lifted root; memory is unchanged if and only if none of them has a pointer to a lifted object |
| Cleanliness.EstimateSizeForLifting | runtime/gc/size.c:40-58 | the counted local bytes of everything reachable through both heaps; memory is unchanged if and only if none of it has a pointer to a lifted object and the root has not been lifted itself |
| LiftedHeap.WalkGoesWrong | runtime/gc/object-cleanliness.c:131-197 | a concrete heap that the walks accept, with a pointer to a lifted object |
| MarkRoots.NextRoot | runtime/gc/mark-compact.c:516 | marking from one root more keeps the union of all markings closed, counted once and correctly linked, whatever was marked before |
| MarkRoots.MarkedIsReached | runtime/gc/foreach.c:88-149 | after all roots, an object is marked if and only if some root reaches it |
| MarkRoots.MarkFromRoots | runtime/gc/foreach.c:88-149 | follows the forwarding pointers of the roots, then marks exactly what they reach, restoring all pointers, and links the weak objects among it |
| MarkRoots.SameSurvivors | runtime/gc/dfs-mark.c:420-426 | following the forwarding pointer of a root does not change what the roots reach |
| MarkWeaks.SharedTarget | runtime/gc/mark-compact.c:106-117 | a weak pointer into the shared heap counts as unmarked |
| MarkWeaks.LiftedTarget | runtime/gc/mark-compact.c:106-117 | a weak pointer to a lifted object counts as marked |
| MarkWeaks.UpdateWeaksForMarkCompact | runtime/gc/mark-compact.c:90-119 | exactly the linked weak objects whose target is not marked are cleared, pointer and header; every other word stays |
| MajorPlan.SlotsAre | runtime/gc/foreach.c:151-313 | the slots a walk offers are those a marking cursor stops at |
| MajorPlan.PlanIsWell | runtime/gc/mark-compact.c:518-520 | a marked heap with settled weak pointers meets all that compaction relies on |
| MajorMarkCompact.AllThread | runtime/gc/mark-compact.c:63-73 | each slot of a marked object, and each root, leads to a marked object, to a lifted one, or out of the heap |
| MajorMarkCompact.CollectionPreservesGraph | runtime/gc/mark-compact.c:489-522 | the objects reached from the roots, and only they, are packed in their old order; headers are as before; each slot, root and weak pointer leads where it led, or to where its object was lifted; payload is intact; weak pointers to lost objects are cleared; nothing outside has changed |
| MajorMarkCompact.MajorMarkCompactGC | runtime/gc/mark-compact.c:489-524 | from any tiled heap, lifted objects included: the object graph is preserved in that sense and oldGenSize is less by exactly the bytes of the unreachable objects, if and only if no surviving slot leads back to a lifted object whose header is among the first three words of a run of garbage of 32 bytes or more; otherwise that slot ends up holding a word of a header |
| SmallHeap.HeapIsReady | runtime/gc/mark-compact.c:489-524 | a concrete heap from which a collection can start |
| SmallHeap.AfterCollection | runtime/gc/mark-compact.c:489-524 | what any collection makes of it: the garbage is squeezed out and the cycle closed again |
| LiftedHeap.LiftedHeapIsReady | runtime/gc/mark-compact.c:489-524 | a concrete heap with a pointer to a lifted object, from which a collection can start |
| LiftedHeap.CollectionGoesWrong | runtime/gc/mark-compact.c:160-190 | and on which it goes wrong |
| Mishaps.WeakHeapIsReady | runtime/gc/mark-compact.c:489-524 | a concrete heap with a weak pointer into the shared heap, from which a collection can start |
| Mishaps.SharedTargetIsLost | runtime/gc/mark-compact.c:106-117 | after any collection of it the weak pointer is cleared, while its target is still there |
| SmallHeap.CopyIsReady | runtime/gc/cheney-copy.c:65-113 | the same heap meets what copying and lifting ask for |
| CopySteps.CopyKeepsInv | runtime/gc/forward.c:395-497 | copying one more object keeps the state of a copying collection: originals, copies, roots, gaps and what has been reached |
| CopySteps.UpdateKeepsInv | runtime/gc/forward.c:484-497 | so does giving a slot its new value |
| CopyScan.CopiedExactly | runtime/gc/cheney-copy.c:88-92 | when every slot of every copy has been updated, the objects copied are exactly those reachable |
| CopyScan.BytesFit | runtime/gc/cheney-copy.c:84 | the copies take no more bytes than the objects of from-space |
| Cheney.Collector.ForwardObjptr | runtime/gc/forward.c:358-499 | the slot gets the address of the one copy of its target, which is made if there is none yet; from-space keeps a forwarding pointer |
| Cheney.Collector.ForeachObjptrInRange | runtime/gc/foreach.c:326-401 | the scan, whose end moves while it runs, terminates and updates each slot of each copy once |
| Cheney.Collector.UpdateWeaks | runtime/gc/cheney-copy.c:15-45 | every linked weak copy follows its target or is cleared |
| Cheney.Collector.CollectInto | runtime/gc/cheney-copy.c:65-113 | roots and scan together leave to-space holding exactly the reachable objects, packed from its start, with no more bytes than were live |
| Cheney.LocalHeaps.MajorCheneyCopyGC | runtime/gc/cheney-copy.c:46-113 | the collection, with the swap of the heaps: the new heap holds the copies up to oldGenSize, and no root and no traced slot leads to the old one |
| CheneyWeaks.CollectionIsCorrect | runtime/gc/cheney-copy.c:65-113 | the copies are exactly the reachable objects; every word of a copy is that of the original, pointers forwarded |
| CheneyWeaks.NothingLeftBehind | runtime/gc/cheney-copy.c:65-113 | different objects have different copies, and neither a root nor a traced slot leads into from-space |
| CheneyWeaks.WeakFate | runtime/gc/cheney-copy.c:24-42 | a weak pointer follows its target if and only if the target was copied, and is cleared otherwise |
| LiftRanges.GapsAppend | runtime/gc/forward.c:244-262 | the list of skip ranges is the list of gaps between the chunks, in order |
| LiftRuns.StepLeaves | runtime/gc/garbage-collection.c:528-609 | a step of any processor leaves the objects of all in place and moves no frontier down |
| LiftRuns.RunClaims | runtime/gc/garbage-collection.c:528-609 | what a processor puts at its frontier over a run comes in order, without overlap, and stays its own |
| LiftRuns.RoomInRun | runtime/gc/forward.c:236-262 | when a run of the allocator leaves the room that a lift counts on |
| LiftRuns.CopiesAreOwn | runtime/gc/forward.c:236-262 | at any point of a lift whose requests are those of a run, every copy lies where that processor has allocated in the run, apart from every chunk and every object of the others |
| Lift.Lifter.ForwardObjptrToSharedHeap | runtime/gc/forward.c:126-352 | the slot gets the copy's address, by forwarding pointer or by the map of copies; fails exactly on a forwarded object while immutable objects are copied |
| Mishaps.ForwarderAssertionFails | runtime/gc/forward.c:333-337 | a concrete heap on which it fails |
| Lift.Lifter.FixFwdObjptr | runtime/gc/forward.c:789-805 | replaces the slot's pointer by where its object has gone, if it has |
| Lift.Lifter.LiftObjptr | runtime/gc/lwtgc.c:10-38 | a slot of the closure comes to lead into the shared heap, to a lifted object |
| Lift.Lifter.ForeachObjptrInRange | runtime/gc/foreach.c:326-401 | the scan visits its own copies only, skipping every range between them, and uses up the list of ranges |
| Lift.Lifter.MoveTransitiveClosure | runtime/gc/lwtgc.c:181-234 | the closure is copied once, object by object; every word is as before with pointers forwarded and the lift bit set; originals keep a forwarding pointer or, if immutable, stay as they are |
| Lift.LiftIsCorrect | runtime/gc/lwtgc.c:181-234 | exactly the closure is lifted, word by word, and cells outside the chunks are untouched |
| Lift.ClosureIsShared | runtime/gc/lwtgc.c:181-234 | no traced pointer of the root or of a lifted object leads out of the shared heap, and no object is lifted twice |
| Lift.WeakPointerStays | runtime/gc/forward.c:276-300 | the copy of a weak object still points where the original points |
| Mishaps.WeakPointerIsLeftBehind | runtime/gc/lwtgc.c:181-234 | a concrete lift that gives a copy in the shared heap with a weak pointer into the local heap |
| CrossMap.EntryIsLastBoundary | runtime/gc/generational.c:266-336 | an entry that is not empty gives the last object boundary in its card; an empty one means there is none |
| CrossMap.EntryInRange | runtime/gc/generational.c:266-336 | an offset never equals the value for an empty card |
| CrossMap.LastEntryIsRight | runtime/gc/generational.c:326-327 | the last entry is right if and only if the old generation does not end at the end of a card |
| Mishaps.CrossMapGoesWrong | runtime/gc/generational.c:326-327 | a heap of one object that fills a card: the map says zero where the boundary is at 64 |
| CrossMap.CardStartByOffset | runtime/gc/generational.c:101-109 | the card whose entry a boundary goes to, in terms of offsets |
| CrossMap.GenerationalMaps.UpdateCrossMap | runtime/gc/generational.c:266-336 | resumed after any growth, the map is the one the walk from the start would give |
| CrossMap.GenerationalMaps.IsCrossMapOk | runtime/gc/generational.c:234-263 | whatever the map holds: true if and only if it agrees with the walk on every card before the last one |
| CardScan.MarkedCard | runtime/gc/forward.c:726-762 | scanning a marked card covers it, and the position the scan goes on from is right for the card it goes on with |
| CardScan.ForwardInterGenerationalObjptrs | runtime/gc/forward.c:701-779 | terminates, and every slot of every old object that overlaps a marked card is offered, also of objects that span many cards; no object is visited twice |
| MinorCollection.OfferedOnce | runtime/gc/forward.c:701-779 | no slot is offered twice, and each belongs to an old object |
| MinorCollection.NoneYoung | runtime/gc/generational.c:65-84 | if every old slot that leads into the nursery is on a marked card, then after the collection none leads there |
| MinorCollection.MinorCheneyCopyGC | runtime/gc/cheney-copy.c:234-298 | the nursery is collected from the globals and the marked cards, behind the old generation, which grows by the bytes copied; no global leads into the nursery any more and, if the write barrier has been kept, no slot of the old generation does; if it cannot be collected on its own, what is free in front of another chunk is filled, or the old generation grows to take the nursery in |
| SharedAlloc.StepKeeps | runtime/gc/garbage-collection.c:528-609 | allocation, request, read and swap, in any order, keep the nursery tiled by chunks, allocated stretches and fillers |
| SharedAlloc.RunIsSafe | runtime/gc/garbage-collection.c:528-609 | in every run the frontier never falls, and is the same twice only if no swap has come between |
| SharedAlloc.ChunksDisjoint | runtime/gc/garbage-collection.c:528-609 | no two processors own overlapping bytes, and all chunks lie in the heap |
| SharedAlloc.OneAtFrontier | runtime/gc/garbage-collection.c:263-278 | exactly one processor's chunk touches the frontier |
| SharedAlloc.FalseMeansRoom | runtime/gc/garbage-collection.c:528-609 | a return without collection leaves room for the bytes first asked for, in a chunk no other processor has |
| SharedAlloc.AskedIsKept | runtime/gc/garbage-collection.c:535-560 | retries do not forget the request they began with |
| SharedAlloc.LayOut | runtime/gc/gc_state.c:211-247 | the layout after a collection starts the protocol, with a chunk of the bytes it needs for each processor, and tells when the heap is too small |
| SharedAlloc.GapsAreFillable | runtime/gc/garbage-collection.c:571-590 | every gap the protocol fills is one that fillGap has an object for |
| SharedAlignment.RunsStayAligned | runtime/gc/garbage-collection.c:528-609 | in every state of every run that starts aligned and asks for aligned amounts, all frontiers and all gaps are aligned, if and only if the bonus slop is a multiple of the alignment |
| SharedAlignment.BreakingRunIsRun | runtime/gc/garbage-collection.c:528-609 | the run of two swaps that breaks any alignment the slop is not a multiple of |
| SharedAlignment.LaidOutAligned | runtime/gc/gc_state.c:211-247 | the frontiers laid out after a collection are aligned, as is asserted there, if and only if there is one processor or the bonus slop is a multiple of the alignment |
| SharedTiles.StepKeepsContents | runtime/gc/garbage-collection.c:528-609 | every step keeps objects in what is allocated and fillers, written by the swap, in what is given up |
| SharedTiles.RunKeepsContents | runtime/gc/garbage-collection.c:528-609 | so does every run of steps and changes by the mutator, over memory |
| SharedTiles.FillChunks | runtime/gc/garbage-collection.c:263-278 | fills, with fillGap, every chunk but the one at the frontier, and takes that processor's frontier for the end; writes nothing outside the nursery |
| SharedTiles.WalkableAfterFill | runtime/gc/garbage-collection.c:263-278 | the walk then steps over every object and every filler to exactly its end if and only if the gaps that take a byte vector are aligned |
| SharedTiles.TiledAfterFill | runtime/gc/garbage-collection.c:263-278 | the range is tiled by objects, described by their headers, if and only if all gaps are aligned |
| SharedTiles.CollectionFindsTiles | runtime/gc/garbage-collection.c:263-278 | after any run with aligned requests, when the bonus slop is a multiple of the alignment, the collector finds the heap from its start to the new oldGenSize tiled by objects |
| SharedTiles.CollectionFindsNoTiles | runtime/gc/garbage-collection.c:263-278 | with an alignment of eight there is a run after which it finds a filler that the walk steps past the end of |
| Barrier.StepKeeps | runtime/gc/processor.c:56-112 | every read and write of arrival, section, exit, waiting and waking keeps the invariant |
| Barrier.SectionIsExclusive | runtime/gc/processor.c:56-112 | at most one processor is in the section, only after all have arrived, in the order of their numbers |
| Barrier.TicketMeansAllArrived | runtime/gc/processor.c:121-124 | a ticket that is not negative means that every processor is between arrival and exit |
| Barrier.RoundsDoNotOverlap | runtime/gc/processor.c:56-112 | no processor is ever more than one section ahead of another, and none is ahead while nobody has a ticket |
| Barrier.NoSleepThroughWork | runtime/gc/parallel.c:201-228 | nobody is blocked and unsignalled while there is work for it, or once the first arriver has called it |
| Barrier.RunIsSafe | runtime/gc/processor.c:56-112 | all of this holds in every state of every run, for any number of processors; no arrival is lost to the reset of the counter |
| Barrier.BarrierNeverStuck | runtime/gc/processor.c:56-112 | whenever everybody has arrived, some step of the barrier is possible |
| Barrier.RoundComesToItsEnd | runtime/gc/processor.c:56-112 | every step of the barrier but spinning brings the round closer to its end |
| Probing.StrideIsOdd | runtime/gc/hash-cons.c:125-128 | the stride is odd, also for slot zero where it wraps around |
| Probing.OddFactorCancels | runtime/gc/hash-cons.c:22-25 | an odd stride has no factor in common with the table size |
| Probing.ProbesDiffer | runtime/gc/hash-cons.c:124-156 | as many consecutive probes as the table has slots are all different |
| HashTable.EndOfSearch | runtime/gc/hash-cons.c:136-160 | a search that meets an empty slot has shown that no stored object is equal |
| HashTable.InsertKeeps | runtime/gc/hash-cons.c:143-145 | storing an element where its search ended keeps every other element within reach of its own search |
| HashCons.ObjectHashTable.constructor | runtime/gc/hash-cons.c:28-90 | an empty table of the largest power of two that fits, or of 64 slots |
| HashCons.ObjectHashTable.SameContent | runtime/gc/hash-cons.c:163-182 | the comparison decides equality of header, length and words |
| HashCons.ObjectHashTable.InsertHashTableElem | runtime/gc/hash-cons.c:98-185 | terminates; returns the stored object equal to the argument if there is one, and otherwise the argument, which is stored unless insertion is off |
| HashCons.ObjectHashTable.GrowHashTableMaybe | runtime/gc/hash-cons.c:187-227 | grows exactly when due and possible; the stored objects stay the same and within reach; an empty slot always remains |
| HashCons.ObjectHashTable.HashConsPointer | runtime/gc/hash-cons.c:229-281 | the one stored object equal to the argument, or the argument itself; objects with identity are left alone; the bytes saved are counted |
| HashCons.OneRepresentative | runtime/gc/hash-cons.c:229-281 | over any sequence of calls, two results are the same object if and only if the arguments are equal, once the first was free to insert |
| LinkedLists.Remove | runtime/uthash.h:194-227 | patching the two neighbours takes one element out of a doubly linked list and keeps the rest |
| Buckets.ShiftAndMask | runtime/uthash.h:177-180 | shifting divides by a power of two and masking takes the remainder, bit by bit |
| Buckets.IdealIsCeiling | runtime/uthash.h:619-637 | the shift-and-mask formula is the quotient rounded up |
| Buckets.AddToBucket | runtime/uthash.h:583-594 | pushing an element keeps every chain well linked and counted, and every element in the bucket of its hash |
| Buckets.RemoveFromBucket | runtime/uthash.h:597-607 | so does taking one out |
| Expansion.MoveOne | runtime/uthash.h:650-669 | moving one item to its new bucket keeps the old chains that are left and the new ones |
| Expansion.AllMoved | runtime/uthash.h:638-684 | in the end the new buckets hold exactly the old items |
| UtHash.Table.Find | runtime/uthash.h:84-94 | returns the element stored under the key, and null if and only if there is none |
| UtHash.Table.AddKeyptr | runtime/uthash.h:152-175 | appends the element to the application order, under its key, and keeps all others |
| UtHash.Table.ExpandBuckets | runtime/uthash.h:638-684 | the same elements in twice as many buckets, with the ideal length, the items in excess of it and the decision to stop expanding computed exactly |
| UtHash.Table.Delete | runtime/uthash.h:194-227 | takes exactly the one element out of order and buckets, also the first, the last or the only one |
| SchedulerQueue.WrapIsHarmless | runtime/gc/scheduler-queue.c:45-47 | the computed distance is right for all positions if and only if the size divides two to the thirty-second |
| SchedulerQueue.CapacityDividesWord | runtime/gc/scheduler-queue.c:27-50 | which every size that is reached by doubling does |
| SchedulerQueue.CircularBuffer.FullAndEmpty | runtime/gc/scheduler-queue.c:52-58 | full and empty are told apart by one slot that always stays free |
| SchedulerQueue.CircularBuffer.Enque | runtime/gc/scheduler-queue.c:60-66 | appends to a buffer that is not full, and would lose everything in one that is |
| SchedulerQueue.CircularBuffer.Deque | runtime/gc/scheduler-queue.c:68-76 | takes the oldest entry |
| SchedulerQueue.CircularBuffer.Grow | runtime/gc/scheduler-queue.c:27-50 | a buffer of twice the size with the same entries in the same order |
| SchedulerQueue.CircularBuffer.Size | runtime/gc/scheduler-queue.c:351-360 | the number of entries, in spite of the wrap-around |
| SchedulerQueue.CircularBuffer.ForeachObjptr | runtime/gc/scheduler-queue.c:330-349 | visits each live entry that is an object pointer once, in order |
| SchedulerQueue.ProcessorQueues.SqEnque | runtime/gc/scheduler-queue.c:118-143 | appends to the one queue asked for, growing it when it is full; no entry is written over |
| SchedulerQueue.ProcessorQueues.SqDeque | runtime/gc/scheduler-queue.c:164-197 | the oldest entry of the queue asked for, or of the first of two that has one |
| QueueLock.MutualExclusion | runtime/gc/scheduler-queue.c:288-328 | in every run at most one processor holds the lock, it is the recorded owner, and the count is back to zero when it gives the lock up |
| QueueLock.ReleaseFreesLast | runtime/gc/scheduler-queue.c:319-328 | a release frees the lock if and only if it is the last one owed |
| QueueRuns.StepKeeps | runtime/gc/scheduler-queue.c:118-192 | every read and write of lock, enqueueing, growing and dequeueing, by any processor, keeps lock and buffer in step |
| QueueRuns.QueueIsFifo | runtime/gc/scheduler-queue.c:118-192 | in every state of every run, what has been taken from a queue is what was put first, in order, and the buffer holds the rest; one processor at a time is at work on it |
| QueueRuns.SeenMeansThere | runtime/gc/scheduler-queue.c:164-192 | if the owner has found its queue not empty, without the lock, its next dequeueing gets an entry |
| IntInf.SmallValue | runtime/gc/int-inf.c:53-77 | a tagged word means the number in its upper 63 bits |
| IntInf.SharedHeap.FiniIntInfRes | runtime/gc/int-inf.c:128-178 | tagged if and only if the number fits 63 bits, otherwise a vector that decodes to the same limbs and sign; decoding gives the number back; canonical; the frontier moves only for a vector |
| IntInf.BignumIsWalkable | runtime/gc/int-inf.c:173-177 | the heap walk steps over the new vector to exactly the new frontier, which is aligned |
| IntInf.EqualDecides | runtime/gc/int-inf.c:338-345 | equality tells rightly which canonical numbers are equal to a given one if and only if that one is canonical itself |
| IntInf.EqualOfNumbers | runtime/gc/int-inf.c:338-345 | on two numbers it is wrong exactly if they are the same, given once tagged and once as a vector |
| IntInf.UncanonicalFive | runtime/gc/int-inf.c:338-345 | a vector holding five, which is not found equal to the tagged five |
| Profiling.Profiler.EnterForProfiling | runtime/gc/profiling.c:64-100 | enters every source of the sequence and its name, first to last |
| Profiling.Profiler.LeaveForProfiling | runtime/gc/profiling.c:125-161 | leaves them again, last to first |
| Profiling.Profiler.IncForProfiling | runtime/gc/profiling.c:172-207 | counts the ticks for the top source and its name, and for a profiled stack brackets them by entering and leaving the sequence |
| Profiling.Profiler.Done | runtime/gc/profiling.c:535-546 | settles exactly the entries that are still on the stack |
| Profiling.IncAccrues | runtime/gc/profiling.c:172-207 | a tick goes once to each entry on the stack, however often the entry occurs there, mutator and collector ticks apart |
| Profiling.LazyIsEager | runtime/gc/profiling.c:64-135 | over every well-nested run, ticks settled and pending are what eager accounting gives, and the occurrences are the depth |
| Profiling.FlushIsExact | runtime/gc/profiling.c:520-546 | after the last flush the ticks are exact |
| Profiling.RunConserves | runtime/gc/profiling.c:197-204 | over every run the counts of all sources, and of all names, each add up to all the ticks |

## Left out

- Stacks and threads. Objects of the stack type, stack shrinking, parasitic stacks and dangling-stack lists are absent; the sources of the stack walk are not part of this model.
- Shared-heap collection. `majorMarkCompactSharedGC`, `majorCheneyCopySharedGC` and their forwarders are not modelled, nor is the shared mode of the two mark-compact passes.
- Chains of forwarding pointers. Copying, marking, mark-compact and the lift are modelled for pointers that leave the heap at their first hop, as those that lifting leaves behind do; `Forwarding.FixFwdObjptr` itself follows chains of any length.
- What happens after a walk or a compaction has gone wrong on a pointer to a lifted object: it is followed up to the word that is changed or miswritten, no further.
- Hash-consing during marking. `dfsMarkByMode` is modelled with `shouldHashCons` false; the table itself is modelled separately.
- The interrupted lift. A lift runs to its end; the restart by `longjmp` after a shared collection, `liftObjptrAndFillOrig` and `copyObjptr` are not modelled.
- Operating-system interaction and policy: `mmap`, heap resizing and its ratios, signals, timers, statistics, debug output.
- Weak memory ordering. The protocols are sequentially consistent.
- Overlapping words. A word and a payload byte are each kept under the address where they start; reading a word at an address inside another one is not modelled.
- CardScan.ForwardInterGenerationalObjptrs: states the slots the forwarder is offered, not what it does to them.
- MinorCollection.MinorCheneyCopyGC: the slots on marked cards are all gathered before the first is forwarded.
- MinorCollection.NoneYoung: that the compiled program marks a card at every write of a young pointer is assumed; its write barrier is not part of the runtime.
- HashCons.ObjectHashTable.GrowHashTableMaybe: tables of more than two to the thirty-first slots, where the doubled size overflows, are excluded; so is the endless loop of `allocHashTable` for a region with room for that many.
- HashTable.ContentOf: the padding of an array takes part in the comparison, as in the source, so arrays that differ only in padding are not shared.
- IntInf.Compare: GnuMP's comparison is taken to be that of the integers, and its results to be normalised.
- LinkedLists.IsList: link fields are maps over addresses rather than fields of allocated structures.
- Profiling.LazyIsEager: counters are unbounded.
- SchedulerQueue.ProcessorQueues.SqEnque: a buffer whose size in bytes no longer fits a C int cannot grow further; the lock is in `QueueRuns`, the wake-up of the owner in `Barrier`.
- SchedulerQueue.ProcessorQueues.SqDeque: the lock is in `QueueRuns`.
- QueueRuns.QueueIsFifo: one of the three buffers of a processor; the owner's test for emptiness, and the publication of a grown buffer, are single steps.
- Lift.Lifter.FixFwdObjptr: chains of one hop.
- LiftRuns.CopiesAreOwn: the lift and the run are related by the sizes asked for, not interleaved step by step.
- UtHash.Table.AddKeyptr: keys are required to be new, and the key hash is any function; running out of memory ends the program and is not modelled.
