# Global Script runtime: a verified model

A Dafny model of the hard parts of `libglobalscript`, the runtime of a lazy functional
language: the loader's dependency sort, the copying collector over heap and stacks, the
stop-the-world rendezvous and the block allocator under it, type substitution, the
two-pass byte compiler, the abstract machine, and the table of interned strings. Each
module models one part, in the form of the source: objects that the C code updates in
place are classes whose methods are proved against functions of the state, and the
properties are lemmas about those functions and about whole runs.

| module | part of the runtime |
|---|---|
| Topsort | path-based strongly connected components with two stacks (`bctopsort.c`) |
| HeapTrace | copying tracer with forwarding pointers, indirections and field selections (`eval.c`) |
| StackCopy | copying a thread's stack and rebasing its chain (`ace.c`) |
| StackEvacuate | lazy, re-entrant evacuation of thread stacks (`acestack.c`, `ace.c`) |
| StackConsolidate | in-place compaction of a stack after a collection (`acestack.c`) |
| Collection | what these parts of a collection promise each other |
| Rendezvous | the barrier between one collector and any number of processes (`alloc.c`) |
| BlockAlloc | block states and suballocators (`alloc.c`) |
| DeBruijn | types without bound names, the reference for substitution |
| TypeSubst | named substitution under three binders (`typealloc.c`) |
| TypeRename | the same with the renaming that is meant |
| Bytecode | sizing, emitting, decoding and relocating code (`bytecompile.c`, `eval.c`) |
| Regex | sizing and hole-filling emission of regex literals (`bytecompile.c`) |
| RegexLanguage | what a regex literal means, from its syntax to the words it matches |
| Apply | application to argument lists (`clientexpr.c`, `ace.c`) |
| UpdateFrames | the update-frame protocol (`ace.c`, `acestack.c`) |
| BlockFlatten | monadic blocks in the instruction segment (`apithread.c`) |
| Symtable | interned strings across growth and collections (`symtable.c`) |

Addresses are word or byte indices where code computes with them, and object numbers
elsewhere. A section under a lock is one atomic step. Calls into other code, clocks and
input are parameters, such as the reaction of the host to an instruction in BlockFlatten.

## Where the code does less than it is meant to

The model keeps the code as it is. Where a promised property fails, a lemma gives a
concrete input, and another says exactly when the property holds.

- Type substitution offers a renamed binder one name only, as the counter printed into
  the name never advances, and does not compare it with the variable that is replaced.
  It is right if and only if that name is new (`RightIff`); otherwise it may loop
  (`LoopsForever`) or replace a bound variable (`ReplacesABoundVariable`). With the
  search that it means to make it ends and is right on all types (`IntendedIsRight`).
- Consolidation of a stack into which an unboxed constructor is being returned reads the
  number of returned values after the frames have been moved. `WordsReadRight` says when
  the number is right, `WordsReadWrong` gives a stack on which it is not.
- A thread that enters an application whose arguments do not fit on its stack is failed
  while it holds the lock of the cell, and the walk over its cells starts with that cell:
  it waits for itself. `EnterDeadlocksIff` says exactly when, and `DescentDeadlocksIff`
  gives runs that reach it.
- An interned string is unique among the strings in the table. A collection forgets the
  table first; if it then stops, the pointers it has not traced are not in the table, and
  interning the same text makes a second pointer (`TraceSome`, `SecondPointer`).
- A suballocator whose items are aligned beyond the block header may give out an item
  that runs past its block; `SuballocKeepsInv` says exactly when, `WideItemOverruns` is
  the case of two words. Every caller asks for at most one word.

## Model

| member | source | states |
|---|---|---|
| Topsort.OpenKeepsInv | src/libglobalscript/bctopsort.c:269-271 | giving an item the next preorder number and pushing it on both stacks keeps the invariant of the path-based algorithm, and shrinks the set of items without a number |
| Topsort.PopKeepsInv | src/libglobalscript/bctopsort.c:255-259 | an edge back into a lower segment of the stack may merge the two top segments: the segments stay mutually reachable, and the popping never empties the stack of heads |
| Topsort.TopSegmentIsScc | src/libglobalscript/bctopsort.c:288-300 | when the item heads the top segment, that segment is exactly one strongly connected component: mutually reachable and maximal |
| Topsort.EmitKeepsInv | src/libglobalscript/bctopsort.c:288-306 | emitting the top segment as a group keeps the invariant: every emitted group is a component, each assigned item is in exactly one group, and edges go to the same or earlier groups |
| Topsort.SameGroupIffMutual | src/libglobalscript/bctopsort.c:288-306 | two sorted items have the same group if and only if each depends on the other |
| Topsort.DependenciesComeFirst | src/libglobalscript/bctopsort.c:249-307 | whatever a sorted item depends on, at any distance, is sorted, in the same group or in one that comes earlier, in this call or an earlier one |
| Topsort.RootsSorted | src/libglobalscript/bctopsort.c:56-103 | after the loops over the sections, exactly the items reachable from the roots that had no group have one now, and the table of groups is in order |
| Topsort.Sorter.constructor | src/libglobalscript/load.c:3117-3150 | an empty symbol table has no groups |
| Topsort.Sorter.OutgoingEdge | src/libglobalscript/bctopsort.c:249-263 | following an edge ends, keeps the invariant, and leaves the edge accounted for: its target has a group or lies in the segment of its source |
| Topsort.Sorter.PopHeadsAbove | src/libglobalscript/bctopsort.c:255-259 | the loop pops heads down to the segment of the target and no further, without running off the stack |
| Topsort.Sorter.SortItem | src/libglobalscript/bctopsort.c:265-307 | sorting an item ends; the item and what it leads to are sorted or wait on the stack, and everything below it on the stacks is as it was |
| Topsort.Sorter.Open | src/libglobalscript/bctopsort.c:269-271 | the new state after the number is given and both stacks are pushed |
| Topsort.Sorter.VisitEdges | src/libglobalscript/bctopsort.c:309-642 | after the edge loops every edge of the item is accounted for |
| Topsort.Sorter.Close | src/libglobalscript/bctopsort.c:288-306 | at the end of an item its segment becomes a group exactly if the item still heads it |
| Topsort.Sorter.EmitGroup | src/libglobalscript/bctopsort.c:292-305 | the popped items become the new last group, in popping order, each recorded under it |
| Topsort.Sorter.PopGroup | src/libglobalscript/bctopsort.c:296-300 | pops exactly the items down to and including the head, which comes last: in reverse order of the stack |
| Topsort.Sorter.SetSccs | src/libglobalscript/bctopsort.c:301-302 | records the group of every item of the list, none of which had one |
| Topsort.Sorter.TopsortFile | src/libglobalscript/bctopsort.c:41-123 | the groups made for a file: each is one component, the table stays in order across calls, earlier assignments stay, and what had no group is sorted exactly if data, types or coercions of a prefix file, or the entry item of a document, reach it; groups reached from the data come first, then those reached from the types; for a document the last group holds the entry item |
| Topsort.Sorter.SortRoots | src/libglobalscript/bctopsort.c:56-119 | the roots of a file are sorted: all sections of a prefix file in order, the first data item of a document |
| Topsort.Sorter.SortPrefix | src/libglobalscript/bctopsort.c:65-102 | all items of the three sections have groups afterwards, made section by section |
| Topsort.Sorter.SortItems | src/libglobalscript/bctopsort.c:65-75 | one section: items with a group are skipped, the others sorted |
| Topsort.Sorter.SortEntry | src/libglobalscript/bctopsort.c:104-115 | the entry item of a document is sorted and lies in the last group |
| HeapTrace.CanonExists | src/libglobalscript/eval.c:270-280 | if indirections and selections on built records are acyclic, every value stands for a well-defined object |
| HeapTrace.StandsFor | src/libglobalscript/eval.c:1040-1072 | an indirection stands for what its destination does, a selection on a built record for what the field of its number does, anything else for itself |
| HeapTrace.CopiedKeepsInv | src/libglobalscript/eval.c:213-228 | copying an object and leaving a forwarding pointer keeps the invariant that links from-space, to-space and forwarding pointers |
| HeapTrace.FilledKeepsInv | src/libglobalscript/eval.c:224-226 | replacing a field of a copy by its traced value keeps the invariant |
| HeapTrace.SelectionStep | src/libglobalscript/eval.c:1027-1101 | a selection may be short-cut exactly if its record is already built, forwarded or not; the field read from either place stands for the field of the record |
| HeapTrace.LiveSetIsClosed | src/libglobalscript/eval.c:193-291 | the part of the heap that tracing looks at from the roots is closed |
| HeapTrace.WalksAgree | src/libglobalscript/eval.c:193-291 | any path of fields can be followed from a value exactly if it can be followed from its to-space rendering, and leads to the rendering of what it led to: the graphs are equal up to removed indirections and evaluated selections |
| HeapTrace.NoOldPointers | src/libglobalscript/eval.c:193-291 | no from-space address can be read in to-space or in a traced root |
| HeapTrace.SharingIsKept | src/libglobalscript/eval.c:193-291 | two paths from roots lead to the same object before exactly if they do afterwards; kind and number of fields are kept |
| HeapTrace.SeenAsCopy | src/libglobalscript/eval.c:213-228 | what is seen from a root is seen, along the same path, as its one copy |
| HeapTrace.AllLiveCopied | src/libglobalscript/eval.c:193-291 | tracing all roots rebuilds the live heap |
| HeapTrace.Collector.GcTrace | include/libglobalscript.h:559 | tracing a slot ends, in any cyclic heap; on success the slot holds the rendering of its old value, which is not null for a pointer; failure means a live object that cannot be traced, or a pointer that leads to no value |
| HeapTrace.Collector.TraceObject | src/libglobalscript/eval.c:193-291 | the same for an object: forwarding pointers are followed, indirections short-cut, selections on built records evaluated, all else copied once; null, a selection under evaluation and a failure met again are no result |
| HeapTrace.Collector.CopyNode | src/libglobalscript/eval.c:203-252 | an object is copied, forwarded before its fields are traced, and its fields replaced by their renderings |
| HeapTrace.Collector.constructor | src/libglobalscript/alloc.c:127-132 | at the start every object lies in from-space and nothing has been copied |
| HeapTrace.Collector.Collect | src/libglobalscript/alloc.c:134-138 | tracing the roots in turn rebuilds the live heap in to-space, or fails because of a live object that cannot be traced or a root that leads to no value |
| StackConsolidate.MoveLiveFrame | src/libglobalscript/acestack.c:263-271 | moving a live update frame, after it has been rewritten in place, never overwrites unread source and puts the frame just above what was kept |
| StackConsolidate.SkipDeadFrame | src/libglobalscript/acestack.c:274-276 | a dead update frame is left out |
| StackConsolidate.MoveOthers | src/libglobalscript/acestack.c:282-287 | the frames above a kept update frame are moved, unchanged, overlapping or not |
| StackConsolidate.DropOthers | src/libglobalscript/acestack.c:284-288 | everything below the deepest live update frame is dropped |
| StackConsolidate.JudgeIff | src/libglobalscript/acestack.c:236-271 | a cell is live exactly if it has been forwarded to a cell under evaluation outside from-space, dead exactly if it is one itself, and an error otherwise |
| StackConsolidate.WordsReadRight | src/libglobalscript/acestack.c:317-324 | the number of words moved with a returned unboxed constructor is the right one if and only if the stack did not move, or moved past its frame, or a word further up happens to agree; in all other states it is always right |
| StackConsolidate.WordsReadWrong | src/libglobalscript/acestack.c:317-324 | a stack with its chain, one dead and one live update frame, on which the first word of the unboxed-case frame is taken for a pointer to code |
| StackConsolidate.CompactedIsStack | src/libglobalscript/acestack.c:334-335 | the compacted stack is again a stack, linked by its chain, and ends in a live update frame that has no successor |
| StackConsolidate.KeptIsChain | src/libglobalscript/acestack.c:216-289 | the kept update frames form the rebuilt chain, in order |
| StackConsolidate.ChainIsStack | src/libglobalscript/acestack.c:210-289 | a chain of update frames bounds a stack |
| StackConsolidate.LiveCellsDistinct | src/libglobalscript/acestack.c:262-271 | if cells point back at their frames and have a copy each, live frames have different cells |
| StackConsolidate.CellsPointAtFrames | src/libglobalscript/acestack.c:262-271 | then every live cell points at its moved frame when all have been moved |
| StackConsolidate.OtherCellsStay | src/libglobalscript/acestack.c:262-271 | no other cell is changed |
| StackConsolidate.FramesPointAtCells | src/libglobalscript/acestack.c:263-271 | every kept frame points at the copy of its cell and at the next kept frame |
| StackConsolidate.SameUpdates | src/libglobalscript/ace.c:395-462 | returning any value into the compacted stack updates the same live cells with the same values in the same order as returning it into the original one |
| StackConsolidate.SameUpdatesFrom | src/libglobalscript/ace.c:395-462 | the same from any update frame down |
| StackConsolidate.UpdatesStretch | src/libglobalscript/ace.c:404-406 | frames in front of an update frame act on the value before the frame does |
| StackConsolidate.Thread.ReverseChain | src/libglobalscript/acestack.c:209-214 | the chain of update frames is reversed in place, nothing else changes, and the deepest frame is found |
| StackConsolidate.Thread.MoveUp | src/libglobalscript/acestack.c:263-271 | the frame is rewritten, moved, and its cell pointed at the new place |
| StackConsolidate.Thread.HandleFrame | src/libglobalscript/acestack.c:219-280 | one update frame is kept or left out according to where its cell went; a cell that is neither forwarded nor under evaluation is an error |
| StackConsolidate.Thread.HandleOthers | src/libglobalscript/acestack.c:281-288 | the frames up to the next update frame, or to the top, are kept if anything below them is live |
| StackConsolidate.Thread.HandleRound | src/libglobalscript/acestack.c:219-289 | one round of the second loop |
| StackConsolidate.Thread.MoveFrames | src/libglobalscript/acestack.c:209-289 | the two loops leave exactly the original frames minus dead update frames and minus everything below the deepest live one, in order |
| StackConsolidate.Thread.CountWords | src/libglobalscript/acestack.c:291-332 | the number of pending words just above the stack, as the code reads it |
| StackConsolidate.Thread.Consolidate | src/libglobalscript/acestack.c:200-338 | all of consolidation: the compacted stack with its chain, its pending words and its top, and the cells that point into it; registers of an entering thread and returned values lie above the new top as above the old, if the number read is right; or the error, exactly when a cell is broken |
| StackCopy.CopyIsStack | src/libglobalscript/ace.c:1908-1914 | a copied stack whose links have all been rebased is a stack with the same update frames, linked by its own chain |
| StackCopy.RebaseStep | src/libglobalscript/ace.c:1910-1914 | rebasing one link leaves the other links and all other words of the copy alone |
| StackCopy.CountWords | src/libglobalscript/ace.c:1869-1893 | the number of pending words above the stack, read before anything is moved, is the right one in every state |
| StackCopy.CopyStack | src/libglobalscript/ace.c:1854-1919 | copying a thread's stack succeeds exactly if the new arena has room; then the copy holds the same frames, the registers or returned values above them, its chain lies in the copy, and nothing outside it is written |
| StackEvacuate.EvolvesTwice | src/libglobalscript/acestack.c:114-198 | two stretches of tracing, nested or one after the other, together trace each slot they pass exactly once |
| StackEvacuate.InsideSlot | src/libglobalscript/acestack.c:142-144 | tracing one slot of the frame in hand, whatever that leads to, counts it once and leaves the rest of the frame to be traced |
| StackEvacuate.InsideFrame | src/libglobalscript/acestack.c:127-195 | after the last slot of a frame the loop is at the next frame |
| StackEvacuate.InsideEnds | src/libglobalscript/acestack.c:120-127 | at the end of the loop everything between the old boundary and the new one has been traced once |
| StackEvacuate.BoundaryMoves | src/libglobalscript/acestack.c:125-125 | moving the boundary down before the loop keeps the invariant |
| StackEvacuate.Settled | src/libglobalscript/ace.c:1822-1852 | once a cell under evaluation has been traced, its update frame lies in the evacuated part |
| StackEvacuate.AllEvacuated | src/libglobalscript/acestack.c:113-198 | a whole collection has traced each slot of the evacuated parts exactly once and no other slot, and every reached cell's update frame lies in an evacuated part |
| StackEvacuate.SlotsOfFrame | src/libglobalscript/acestack.c:132-189 | the slots of a frame are its arguments; its code and free variables; or its continuations and free variables: each occurrence, in that order |
| StackEvacuate.FrameForwarded | src/libglobalscript/acestack.c:132-189 | every value that an evacuated frame holds, field by field, has been forwarded |
| StackEvacuate.SurvivorIsForwarded | src/libglobalscript/acestack.c:113-198 | so has every value of a frame at or above the update frame of a reached cell |
| StackEvacuate.ForwardedIsClosed | src/libglobalscript/ace.c:1822-1852 | with a value, all that it needs has been forwarded: the children of a plain one; for a cell under evaluation what its thread holds and every frame down to its update frame |
| StackEvacuate.SurvivorIsEvacuated | src/libglobalscript/acestack.c:113-198 | every frame at or above the update frame of a reached cell lies inside the evacuated part, each of its slots traced exactly once and its value forwarded |
| StackEvacuate.Collector.constructor | src/libglobalscript/ace.c:1921-1930 | at the start the boundary of each stack is its top and nothing has been traced |
| StackEvacuate.Collector.Trace | include/libglobalscript.h:559 | tracing a value, in whatever order that reaches update frames, moves boundaries only down and traces exactly the slots they move over |
| StackEvacuate.Collector.TraceAll | src/libglobalscript/acestack.c:142-144 | the same for a list of values |
| StackEvacuate.Collector.EvalTrace | src/libglobalscript/ace.c:1822-1852 | the thread is copied when it is first reached, and its stack is evacuated down to the update frame |
| StackEvacuate.Collector.Evacuate | src/libglobalscript/acestack.c:113-198 | the stack is evacuated down to the update frame, once, although nested calls may move the boundary further |
| StackEvacuate.Collector.EvacuateFrame | src/libglobalscript/acestack.c:132-189 | all values of a frame are traced, each once, from the first to the last |
| StackEvacuate.TraceRoots | src/libglobalscript/alloc.c:134-138 | what has been forwarded is closed, holds the roots, and lies in any other such set: exactly what is needed; no stack has been evacuated further than to a reached cell; the slots of each frame were traced in order; tracing fails only because of something that is needed and cannot be traced |
| Collection.ProtocolPointsBack | src/libglobalscript/acestack.c:29-33 | the update-frame protocol gives what consolidation needs: every cell points back at its frame |
| Collection.CopiesAreApart | src/libglobalscript/eval.c:213-218 | the tracer gives what consolidation needs: two cells have two copies |
| Collection.LiveCellsFindFrames | src/libglobalscript/acestack.c:262-271 | in a collection over the protocol every live cell points at its moved frame |
| Collection.LiveIffSeen | src/libglobalscript/acestack.c:236-271 | consolidation takes an update frame for live exactly if its cell could be seen from a root before the collection, and then finds the copy the tracer made; otherwise for dead |
| Collection.ItemsAreCopies | src/libglobalscript/eval.c:213-228 | the forwarding pointers consolidation reads are those the tracer left |
| Collection.KeptIsEvacuated | src/libglobalscript/acestack.c:219-289 | every frame that consolidation keeps has been evacuated, each of its slots traced exactly once |
| Collection.KeptIsForwarded | src/libglobalscript/acestack.c:219-289 | every value that a kept frame holds, field by field, has been forwarded |
| Collection.KeptHoldsNoOldPointer | src/libglobalscript/acestack.c:113-198 | where the tracer of the heap is called on the slots that evacuation traces, a slot of a kept frame was traced once and holds no from-space address afterwards: it holds the copy of what it held |
| Rendezvous.StepKeepsInv | src/libglobalscript/alloc.c:95-290 | every atomic step of any process keeps the invariant |
| Rendezvous.RunKeepsInv | src/libglobalscript/alloc.c:95-290 | so does every interleaving |
| Rendezvous.BarrierIff | src/libglobalscript/alloc.c:103-109 | the barrier passes exactly when every other process has parked and nobody is about to start one |
| Rendezvous.DrainIff | src/libglobalscript/alloc.c:184-191 | the last loop ends exactly when every process has left the collection |
| Rendezvous.OthersAreParked | src/libglobalscript/alloc.c:95-111 | in every run, while the collector works every other registered process is parked for this collection |
| Rendezvous.NoneJoinsEarly | src/libglobalscript/alloc.c:246-250 | no process joins a collection while another is still in an earlier one |
| Rendezvous.NoneLeftBehind | src/libglobalscript/alloc.c:184-191 | a collection starts only when all have left the one before |
| Rendezvous.ToldItsOwnOutcome | src/libglobalscript/alloc.c:261-270 | in every run each process is told what the first collection that ended after it parked was ended with |
| Rendezvous.OutcomesArePublished | src/libglobalscript/alloc.c:178-221 | in every run the outcomes are, in order, what the collections were ended with, and no step changes an earlier one |
| Rendezvous.CountedHasParked | src/libglobalscript/alloc.c:246-270 | a process in a collection has parked, and its collection is the next that ended, or will end, after that |
| Rendezvous.NeverStuck | src/libglobalscript/alloc.c:95-290 | no reachable state is stuck in a collection: the collector can go on, or some process can that it waits for |
| Rendezvous.Allocator.constructor | src/libglobalscript/alloc.c:33-36 | one process, no collection |
| Rendezvous.Allocator.StartToWait | src/libglobalscript/alloc.c:98-101 | the section is the abstract step |
| Rendezvous.Allocator.AllHere | src/libglobalscript/alloc.c:103-110 | the comparison of counters says exactly whether every other process has parked |
| Rendezvous.Allocator.EndCollection | src/libglobalscript/alloc.c:178-221 | the outcome that is published is the error given, or none; the collector is no longer counted |
| Rendezvous.Allocator.AllGone | src/libglobalscript/alloc.c:184-191 | the counter is zero exactly when every process has left |
| Rendezvous.Allocator.WantCollection | src/libglobalscript/alloc.c:233-243 | the poll tells whether a collection is wanted |
| Rendezvous.Allocator.JoinCollection | src/libglobalscript/alloc.c:248-250 | the process is counted and parked |
| Rendezvous.Allocator.CollectionFinished | src/libglobalscript/alloc.c:252-259 | a parked process goes on exactly when the collection is over |
| Rendezvous.Allocator.CollectionOutcome | src/libglobalscript/alloc.c:261-270 | the error read is that of the collection the process parked for |
| Rendezvous.Allocator.DoneWithCollection | src/libglobalscript/alloc.c:272-278 | the process leaves |
| Rendezvous.Allocator.CountNew | src/libglobalscript/unix/gssysthreads.c:64-66 | a process is counted before it is cloned |
| Rendezvous.Allocator.CloneFailed | src/libglobalscript/unix/gssysthreads.c:68-72 | the count is taken back |
| Rendezvous.Allocator.Uncount | src/libglobalscript/unix/gssysthreads.c:89-91 | a process that ends is no longer counted |
| BlockAlloc.NewBlockKeepsInv | src/libglobalscript/alloc.c:344-372 | taking the first free block keeps the invariant, and the block was free |
| BlockAlloc.NextFits | src/libglobalscript/alloc.c:489-494 | a buffer from any place in a block ends aligned, past its start, and in the block |
| BlockAlloc.SuballocKeepsInv | src/libglobalscript/alloc.c:384-417 | an item is aligned, clear of the header and of everything live, and in a block the collector is not emptying; nothing is given out only for too large an item or for lack of a block; all stays sound if and only if the item fits, which it always does with an alignment of at most one word |
| BlockAlloc.SuballocGoesOn | src/libglobalscript/alloc.c:384-417 | an item that fits where the suballocator stands goes there and takes no block; the suballocator then stands after it, rounded up; an item is refused only if it is too large or every block is in use |
| BlockAlloc.NextInSameBlock | src/libglobalscript/alloc.c:384-417 | two items in a row lie in one block, one after the other but for alignment, if the second fits |
| BlockAlloc.WideItemOverruns | src/libglobalscript/alloc.c:384-417 | with an alignment of two words the largest item let through runs past the end of its block |
| BlockAlloc.BufferAllocKeepsInv | src/libglobalscript/alloc.c:465-502 | a buffer always fits, ends aligned, and is clear of everything live |
| BlockAlloc.BufferGoesOn | src/libglobalscript/alloc.c:465-502 | a buffer takes what is left of its stretch, in the block the suballocator has; one is refused exactly if there is no such block and none is free |
| BlockAlloc.NextBufferFollows | src/libglobalscript/alloc.c:465-502 | the next buffer starts where the last one ended, until the block is used up |
| BlockAlloc.StartKeepsInv | src/libglobalscript/alloc.c:121-132 | starting a collection keeps the invariant |
| BlockAlloc.FinishKeepsInv | src/libglobalscript/alloc.c:158-172 | so does finishing it |
| BlockAlloc.FailKeepsInv | src/libglobalscript/alloc.c:200-211 | so does its failure |
| BlockAlloc.RunKeepsInv | src/libglobalscript/alloc.c:121-502 | over every sequence of allocations and collections live extents are pairwise disjoint, inside blocks in use and clear of headers |
| BlockAlloc.ServedAllKeepsInv | src/libglobalscript/alloc.c:384-502 | what is given out during a collection never shares a from-space block |
| BlockAlloc.CollectionFinished | src/libglobalscript/alloc.c:158-172 | finishing a collection frees every old block, and no object given out during it |
| BlockAlloc.CollectionFailed | src/libglobalscript/alloc.c:200-211 | a failed collection loses no object, old or new |
| BlockAlloc.Allocator.constructor | src/libglobalscript/alloc.c:39-53 | all blocks are free |
| BlockAlloc.Allocator.BlockAlloc | src/libglobalscript/alloc.c:344-372 | the linear scan takes the first free block, or none |
| BlockAlloc.Allocator.TakeBlock | src/libglobalscript/alloc.c:389-392 | a suballocator registers, gets a block and starts at its aligned start |
| BlockAlloc.Allocator.Suballocate | src/libglobalscript/alloc.c:384-447 | the bump allocator gives out what the specification says and moves on as it says |
| BlockAlloc.Allocator.SuballocateAligned | src/libglobalscript/alloc.c:465-502 | the same for buffers |
| BlockAlloc.Allocator.PreCallbacks | src/libglobalscript/alloc.c:450-460 | every registered suballocator forgets where it was |
| BlockAlloc.Allocator.TurnAll | src/libglobalscript/alloc.c:128-132 | exactly the blocks of one type become of the other |
| BlockAlloc.Allocator.StartCollection | src/libglobalscript/alloc.c:121-134 | the state a collection starts in |
| BlockAlloc.Allocator.FinishCollection | src/libglobalscript/alloc.c:158-172 | the state after a collection that finishes |
| BlockAlloc.Allocator.CollectionFails | src/libglobalscript/alloc.c:200-211 | the state after one that fails |
| TypeSubst.Subst | src/libglobalscript/typealloc.c:906-1144 | replacing a variable by a variable keeps the size of the type, so that the recursion through renamed bodies ends, unless the search for a name does not |
| TypeSubst.IsFreeIff | src/libglobalscript/typealloc.c:1146-1254 | a variable is free by the code's test exactly if it is free in the de Bruijn translation |
| TypeSubst.RenamingFits | src/libglobalscript/typealloc.c:943-960 | giving a bound variable its new name never goes wrong, if the search ends |
| TypeSubst.RightIff | src/libglobalscript/typealloc.c:906-1144 | substitution agrees with de Bruijn substitution, so captures nothing, if and only if the one name each renamed binder is offered is new and is not the variable being replaced |
| TypeSubst.ArgumentStaysFree | src/libglobalscript/typealloc.c:906-1144 | a free variable of the argument is never captured by a binder, even where the names do not fit |
| TypeSubst.FreeVariables | src/libglobalscript/typealloc.c:906-1144 | the free variables of the result are those of the type without the variable, and those of the argument if it occurred |
| TypeSubst.BoundNamesDoNotMatter | src/libglobalscript/typealloc.c:906-1144 | types that differ in bound names give results that differ in bound names |
| TypeSubst.SubstTwice | src/libglobalscript/typealloc.c:906-1144 | two substitutions commute as they should, up to bound names |
| TypeSubst.ApplyIsBeta | src/libglobalscript/typealloc.c:835-877 | applying a type function puts the argument in place of the bound variable, if and only if the names fit |
| TypeSubst.InstantiateIsBeta | src/libglobalscript/typealloc.c:879-904 | the same for instantiating a polymorphic type |
| TypeSubst.ApplyAddsArgument | src/libglobalscript/typealloc.c:835-877 | applying what is no function adds the argument after those it has been applied to |
| TypeSubst.ApplyFailsIff | src/libglobalscript/typealloc.c:835-904 | what cannot be applied or instantiated |
| TypeSubst.ApartFits | src/libglobalscript/typealloc.c:906-1144 | if no binder of the type is free in the argument, nothing is renamed and the result is right |
| TypeSubst.LoopsForever | src/libglobalscript/typealloc.c:943-949 | types on which the search for a name never ends, because the counter printed into the candidate never advances |
| TypeSubst.ReplacesABoundVariable | src/libglobalscript/typealloc.c:943-949 | a type whose bound variable is replaced by the argument, because the candidate is not compared with the variable that is replaced |
| TypeRename.NewNumber | src/libglobalscript/typealloc.c:942-949 | with a counter that advances, the search for a name ends on all types, with the first name that is taken by nothing |
| TypeRename.FirstIsCandidate | src/libglobalscript/typealloc.c:945-945 | the one name that the code offers is the first of these, and the new name exactly if it is not taken |
| TypeRename.Intended | src/libglobalscript/typealloc.c:906-1144 | substitution with that search ends on all types |
| TypeRename.IntendedIsRight | src/libglobalscript/typealloc.c:906-1144 | and agrees with de Bruijn substitution on all of them: nothing is captured |
| TypeRename.MeetsIntention | src/libglobalscript/typealloc.c:906-1144 | the code gives the same type up to bound names if and only if the names it offers fit |
| TypeRename.IntendedIsBeta | src/libglobalscript/typealloc.c:835-904 | applying or instantiating by it puts the argument in place of the bound variable, for all types |
| Bytecode.SizeBytecode | src/libglobalscript/gsbytecode.h:44-47 | an instruction takes its arguments and between one byte and a word of padding |
| Bytecode.FewFreeVariables | src/libglobalscript/typecheck.c:1586-1622 | the type checker lets no code item have as many free variables as there are registers, as each names its type in a register before it; a continuation with an argument has one fewer still |
| Bytecode.CountsFit | src/libglobalscript/bytecompile.c:2419-2482 | every count that is stored in one byte, free variables included, is stored without loss |
| Bytecode.SizeOnWord | src/libglobalscript/bytecompile.c:365-423 | the size of code is a whole number of words |
| Bytecode.AllAligned | src/libglobalscript/bytecompile.c:1563-1606 | every instruction, at any depth of case trees, starts on a word |
| Bytecode.SkipIs | src/libglobalscript/gsbytecode.h:49-203 | the skip macro, reading the stored counts, passes over exactly what the sizing pass reserved |
| Bytecode.SizeTable | src/libglobalscript/gsbytecode.h:49-203 | the size of each instruction, opcode by opcode, and which end their code |
| Bytecode.CodeFrame | src/libglobalscript/bytecompile.c:2496-2698 | code lies where it lay if nothing in its extent changes |
| Bytecode.InsRead | src/libglobalscript/gsbytecode.h:49-203 | an instruction is read back as it was written: opcode, operands and lists |
| Bytecode.InsLayout | src/libglobalscript/gsbytecode.h:49-203 | where each byte of an instruction lies: position, opcode, operands, and a count before each list |
| Bytecode.DecodeEmitted | src/libglobalscript/eval.c:673-805 | the walk over emitted code by skips and case tables gives back the source tree, the case count of `.analyze` inferred from the first case pointer |
| Bytecode.RelocatedTail | src/libglobalscript/eval.c:673-805 | relocating what the walk comes to relocates the code |
| Bytecode.CaseRelocated | src/libglobalscript/eval.c:751-761 | relocating one case leaves the other cases and the table alone |
| Bytecode.PointerRelocated | src/libglobalscript/eval.c:743-750 | relocating one pointer leaves the cases and the other pointers alone |
| Bytecode.Emitter.EmitIns | src/libglobalscript/bytecompile.c:1950-2246 | an instruction is written, and the output moves on by the size of the sizing pass |
| Bytecode.Emitter.EmitCode | src/libglobalscript/bytecompile.c:2496-2698 | the code of every case tree is written in its extent and nowhere else, lies there as code, and the output moves on by exactly what the sizing pass counted |
| Bytecode.Emitter.EmitCases | src/libglobalscript/bytecompile.c:2611-2692 | the table of case pointers and the cases, each pointer to its case |
| Bytecode.Relocator.Relocate | src/libglobalscript/eval.c:743-743 | a pointer into the old block becomes the pointer to the same offset in the new one |
| Bytecode.Relocator.TraceInstrs | src/libglobalscript/eval.c:672-805 | the walk relocates all of the code and changes nothing else |
| Bytecode.Relocator.TraceBranch | src/libglobalscript/eval.c:738-783 | both kinds of branch |
| Bytecode.Relocator.TraceAnalyze | src/libglobalscript/eval.c:738-763 | the table is relocated first and its length read from the first pointer; then every case is walked |
| Bytecode.Relocator.TraceDanalyze | src/libglobalscript/eval.c:764-783 | each pointer is relocated and its case walked at once |
| Bytecode.Relocator.RelocatePointer | src/libglobalscript/eval.c:743-750 | one pointer of a half-relocated table |
| Bytecode.Relocator.TraceCase | src/libglobalscript/eval.c:751-761 | the checks on a case pass, and the case is relocated |
| Bytecode.Sizer.SizeCode | src/libglobalscript/bytecompile.c:656-1043 | the accumulated size is that of the code |
| Bytecode.Sizer.SizeItem | src/libglobalscript/bytecompile.c:363-423 | the size of a whole item, which rounding leaves as it is |
| Bytecode.EmitWords | src/libglobalscript/bytecompile.c:1743-1837 | pointers to subexpressions and global values are written one word each |
| Bytecode.EmitItem | src/libglobalscript/bytecompile.c:1482-1606 | an item emitted into the block the sizing pass measured fills it exactly, and decoding the block gives the code back |
| Bytecode.RelocateBlock | src/libglobalscript/eval.c:598-670 | a copied block, relocated, decodes to the same code as the original |
| Regex.AltMatches | src/libglobalscript/bytecompile.c:1430-1444 | the right-nested product of an alternative matches the words its factors match in order |
| Regex.SumMatches | src/libglobalscript/bytecompile.c:1278-1314 | the right-nested sum matches the words one of the alternatives matches |
| Regex.LiteralMatches | src/libglobalscript/bytecompile.c:1254-1449 | the tree of a literal matches exactly the words that one alternative's factors match in order |
| Regex.SumWords | src/libglobalscript/bytecompile.c:152-160 | the words a sum takes, alternative by alternative |
| Regex.ChainSnoc | src/libglobalscript/bytecompile.c:1439-1441 | filling the last hole with a further node lengthens the chain |
| Regex.ChainClose | src/libglobalscript/bytecompile.c:1443-1447 | filling the last hole with the last tree gives the right-nested tree |
| Regex.SizeClass | src/libglobalscript/bytecompile.c:162-182 | the sizing loop over a class counts the words of its tree and stops after its bracket |
| Regex.SizeFactor | src/libglobalscript/bytecompile.c:162-194 | the same for a factor with its star |
| Regex.SizeLiteral | src/libglobalscript/bytecompile.c:145-202 | the sizing loop counts the words of the whole literal |
| Regex.Builder.NewLink | src/libglobalscript/bytecompile.c:1433-1438 | a node of a chain, its second argument left as a hole |
| Regex.Builder.EmitItem | src/libglobalscript/bytecompile.c:1350-1376 | a rune or a range of a class |
| Regex.Builder.EmitItems | src/libglobalscript/bytecompile.c:1348-1392 | the loop over the items fills the hole of the class with their right-nested sum |
| Regex.Builder.EmitClass | src/libglobalscript/bytecompile.c:1318-1394 | a class, negated or not, empty or not |
| Regex.Builder.EmitAtom | src/libglobalscript/bytecompile.c:1318-1412 | a class, an interpolated value or a rune |
| Regex.Builder.EmitFactor | src/libglobalscript/bytecompile.c:1318-1428 | an atom with its star builds the tree of the reference parse, in exactly its words |
| Regex.Builder.NewSum | src/libglobalscript/bytecompile.c:1280-1297 | a sum whose first argument is the finished alternative, or the empty one |
| Regex.Builder.AddFactor | src/libglobalscript/bytecompile.c:1430-1444 | the factor ends its alternative, or goes into a product with a new hole |
| Regex.Builder.EndAlternative | src/libglobalscript/bytecompile.c:1279-1314 | a bar links the finished alternative into the sum; after the last bar an empty alternative follows |
| Regex.Builder.NewSumOf | src/libglobalscript/bytecompile.c:1258-1271 | the leading sum with `null` |
| Regex.Builder.EmitLiteral | src/libglobalscript/bytecompile.c:1254-1449 | the emitting loop uses exactly the words the sizing loop counted, writes nothing before them, and builds the tree of the reference parse if and only if the literal is not empty |
| Regex.Literal | src/libglobalscript/bytecompile.c:1447-1447 | only an empty literal, which the loader does not let through, would leave the last hole unfilled |
| RegexLanguage.AcceptedIff | src/libglobalscript/bytecompile.c:1274-1449 | the token sequences that are accepted are those that some literal is written with: alternatives of starred and unstarred runes, classes and interpolations |
| RegexLanguage.WrittenIsParsed | src/libglobalscript/bytecompile.c:1274-1449 | a literal, as it is written, is parsed as itself, its interpolations numbered in order |
| RegexLanguage.RunesOfSigns | src/libglobalscript/bytecompile.c:1398-1412 | a sign stands for its own character where it has no meaning |
| RegexLanguage.ItemsMatch | src/libglobalscript/bytecompile.c:1348-1392 | the tree of a class holds exactly the runes that are one of its single runes or lie in one of its ranges, first to last |
| RegexLanguage.FactorMatches | src/libglobalscript/bytecompile.c:1318-1428 | a rune matches itself, a class one rune that is in it, or with `^` one that is not, an interpolation what its value matches, and a star repeats its atom |
| RegexLanguage.FactorsMatch | src/libglobalscript/bytecompile.c:1430-1444 | the factors of an alternative match one after the other |
| RegexLanguage.TreeMeansLiteral | src/libglobalscript/bytecompile.c:1254-1449 | the tree of a literal matches exactly the words that the literal means: those of one of its alternatives |
| RegexLanguage.Compile | src/libglobalscript/bytecompile.c:145-202 | both passes over a literal: the memory that the sizing pass asks for is filled by the emitting pass with constructors that match exactly what the literal means |
| Apply.ClosureApplied | src/libglobalscript/clientexpr.c:107-130 | a closure with more values stands for the closure applied to them |
| Apply.AppliedMeans | src/libglobalscript/clientexpr.c:95-154 | the result of `gsnapplyv` stands for the function applied to the arguments one after the other, under partial, exact and over-application |
| Apply.AppliedShape | src/libglobalscript/clientexpr.c:95-154 | a closure takes as many arguments as its code still needs, and an application holds those left over, or all if there is no closure that needs any |
| Apply.ReadingExtends | src/libglobalscript/clientexpr.c:119-132 | a new item can be read without changing what anything else stands for |
| Apply.AppliedConservatively | src/libglobalscript/clientexpr.c:95-154 | every reading of the heap before is, but for the new items, one of the heap after `gsnapplyv`, and in it the result stands for the function applied to the arguments as they were read before |
| Apply.FromNextIsNew | src/libglobalscript/clientexpr.c:119-119 | what the allocator hands out is new to the heap, the function and the arguments |
| Apply.ReturnMeans | src/libglobalscript/ace.c:464-556 | returning a function into an application frame keeps what the thread and the frame stand for, whether the call is partial, exact or leaves arguments over |
| Apply.FailsIff | src/libglobalscript/ace.c:490-556 | returning a function fails the thread exactly if it is no closure, or with enough arguments of a kind that cannot be entered, or of code that needs too many registers: never for the number of arguments |
| Apply.ReturnsKeepsItems | src/libglobalscript/ace.c:464-556 | returning a function into a frame keeps every closure between the free variables of its code and these with its arguments |
| Apply.AppliedKeepsItems | src/libglobalscript/clientexpr.c:95-154 | so does `gsnapplyv`, in each of its cases |
| Apply.BuildsKeepsItems | src/libglobalscript/ace.c:810-847 | so does allocating a closure with exactly the free variables of its code, a thunk, or any other item |
| Apply.StepKeepsItems | src/libglobalscript/ace.c:464-556 | every step, building of closures and thunks included, changes no existing item and keeps that order |
| Apply.RunKeepsItems | src/libglobalscript/ace.c:464-556 | so does every run |
| Apply.StepKeepsTotal | src/libglobalscript/ace.c:464-556 | every step keeps what the thread with all its application frames stands for |
| Apply.RunKeepsTotal | src/libglobalscript/ace.c:464-556 | so does every run |
| Apply.RunDeliversTheApplication | src/libglobalscript/ace.c:464-556 | a value returned when all frames are used up is the function applied to all the arguments |
| Apply.NeverPoisoned | src/libglobalscript/eval.c:77-97 | in every run from a heap in order no expression closure comes to hold more values than its code has free variables and arguments, or fewer than its free variables, so none is poisoned; one is a thunk exactly if it needs no more |
| Apply.ThunkIff | src/libglobalscript/eval.c:69-110 | which closures are thunks and which are in weak head normal form |
| Apply.Memory.NApply | src/libglobalscript/clientexpr.c:95-154 | `gsnapplyv` builds the closures and applications that stand for the application and nothing else, changes no existing item, and keeps the items in order |
| Apply.Thread.ReHead | src/libglobalscript/ace.c:540-548 | the frame for the left-over arguments is headed in place, from its highest word to its lowest, and keeps them |
| Apply.Thread.PopAndReturn | src/libglobalscript/ace.c:1604-1622 | a value is returned just above the next frame |
| Apply.Thread.ReturnToApp | src/libglobalscript/ace.c:464-556 | a function returned into a frame: the new focus, the frame that is left, the new heap, and the failure, each in its case |
| UpdateFrames.ExactlyOneFrame | src/libglobalscript/acestack.c:29-33 | a cell under evaluation is the target of exactly one update frame, on one unfinished thread's chain, and points back at it |
| UpdateFrames.FailKeepsInv | src/libglobalscript/ace.c:1582-1602 | ending a thread by error or failure, at any point of entering a cell, keeps the protocol if it ends |
| UpdateFrames.WalkIs | src/libglobalscript/ace.c:1591-1599 | the walk over the update frames of a thread takes the lock of each cell: it goes through exactly if none of them is held |
| UpdateFrames.FailDeadlocksIff | src/libglobalscript/ace.c:1582-1602 | failing a thread waits for ever if and only if the lock of a cell it evaluates is held; otherwise all these cells become indirections to the error |
| UpdateFrames.EnterDeadlocksIff | src/libglobalscript/ace.c:1703-1783 | entering a cell, under its lock, waits for ever if and only if the cell is an application whose arguments do not fit after its update frame; the thread then waits for the lock it holds itself and no cell has changed |
| UpdateFrames.EnterKeepsInv | src/libglobalscript/ace.c:1703-1783 | entering a cell keeps the protocol in every case and leaves no lock held, or leaves the one thread stuck with everything else in order |
| UpdateFrames.ReturnKeepsInv | src/libglobalscript/ace.c:435-462 | returning into an update frame keeps the protocol |
| UpdateFrames.StepKeepsInv | src/libglobalscript/ace.c:435-462 | every step of every thread, and every new cell, keeps the protocol; a step waits for ever if and only if it enters an application without room for its arguments |
| UpdateFrames.StepMovesOn | src/libglobalscript/ace.c:435-462 | no step retargets an indirection or gives a cell under evaluation to another frame |
| UpdateFrames.RunKeepsProtocol | src/libglobalscript/ace.c:1532-1783 | along every run, also one that ends in such a wait, the protocol holds, no indirection is retargeted, and a cell under evaluation stays with its frame or becomes an indirection |
| UpdateFrames.FinishedCellsAreIndirections | src/libglobalscript/ace.c:1532-1602 | once a thread has finished, by return, error or failure, every cell it was evaluating is an indirection |
| UpdateFrames.StepSets | src/libglobalscript/ace.c:435-462 | what each step makes of every cell: the cell of the frame returned into takes the value, the cells of a thread that fails take its error, a cell that is entered points at its new frame, and no other cell changes |
| UpdateFrames.EvalBecomes | src/libglobalscript/ace.c:435-462 | a cell under evaluation becomes an indirection to a value exactly if the step returns that value into its own update frame, or fails its own thread with it |
| UpdateFrames.ResolvedBy | src/libglobalscript/ace.c:1532-1783 | over every run, a cell that was under evaluation and is an indirection at the end points at the value returned into its own update frame, or at the error its own thread failed with |
| UpdateFrames.EnterEnds | src/libglobalscript/ace.c:1703-1783 | where entering a cell ends, the cell is an indirection or under evaluation by this thread; where it does not, no cell has changed |
| UpdateFrames.DescentDeadlocksIff | src/libglobalscript/ace.c:1349-1362 | a run from nothing: a thread with just the words it needs to enter a cell itself waits for ever exactly if the cell applies a function to 61 arguments or more |
| UpdateFrames.Machine.FailThread | src/libglobalscript/ace.c:1533-1602 | walking the chain, lock by lock, turns every cell of the thread into an indirection to the error, no other cell, and finishes the thread; or stops at a lock that is held |
| UpdateFrames.Machine.PushFrame | src/libglobalscript/acestack.c:9-35 | the frame is pushed and linked; on overflow the thread is shut down and the cell becomes an indirection |
| UpdateFrames.Machine.EnterClosure | src/libglobalscript/ace.c:1703-1783 | the outcome in every case: each cell, the new update frame and the new top, with the protocol and no lock held; or, exactly if the arguments do not fit, the thread stuck at the lock of the cell |
| UpdateFrames.Machine.ReturnToUpdate | src/libglobalscript/ace.c:435-462 | the cell of the frame becomes an indirection to the value returned and no other cell changes, and the thread goes on to the next frame or finishes; the top of the stack stays, so that the value is there for that frame |
| BlockFlatten.EvalRuns | src/libglobalscript/apithread.c:434-538 | running an instruction at the pointer uses it up and sets its promise to the result of the recursive bind semantics; the thread abends exactly if that fails or the segment is too small |
| BlockFlatten.EvalAllRuns | src/libglobalscript/apithread.c:832-847 | the statements of a block run in order ahead of the rest of the program, and its body sets the block's own promise |
| BlockFlatten.RunEvals | src/libglobalscript/apithread.c:434-538 | if the segment uses up an instruction, the recursive semantics ends |
| BlockFlatten.RunIsEval | src/libglobalscript/apithread.c:434-538 | what a run of the segment leaves behind is what the recursive semantics gives, and the segment was large enough |
| BlockFlatten.NeedsItsOwn | src/libglobalscript/apithread.c:836-840 | a block needs as many places as it has statements and body |
| BlockFlatten.LaidAt | src/libglobalscript/apithread.c:832-845 | statement by statement, each with its promise, the body last with that of the block |
| BlockFlatten.UnpackMentions | src/libglobalscript/apithread.c:660-830 | a statement mentions only promises of statements before it |
| BlockFlatten.UnpackIff | src/libglobalscript/apithread.c:612-830 | unpacking succeeds with exactly the right-hand sides a block means: its registers are globals, values of the closure, and one for each operation: what a `Let` computes, and for the `k`th statement its own promise |
| BlockFlatten.RegisterIsItsPromise | src/libglobalscript/apithread.c:744-845 | what is read in the register of a statement is the promise that this statement sets |
| BlockFlatten.OpenKeepsPromises | src/libglobalscript/apithread.c:832-847 | replacing a block by its statements and body keeps the order of promises |
| BlockFlatten.StepKeepsPromises | src/libglobalscript/apithread.c:434-538 | every step keeps the order of promises and sets each promise at most once |
| BlockFlatten.RunKeepsPromises | src/libglobalscript/apithread.c:434-538 | so does every run |
| BlockFlatten.CurrentIsReady | src/libglobalscript/apithread.c:434-538 | when a statement becomes current, all promises it mentions have been set, those of all earlier statements included, and its own has not |
| BlockFlatten.Thread.constructor | src/libglobalscript/apithread.c:910-940 | a program fills the last place of a new segment |
| BlockFlatten.Thread.Collect | src/libglobalscript/apithread.c:650-830 | the loop over the operations collects the right-hand sides of the specification, or finds the block malformed |
| BlockFlatten.Thread.Store | src/libglobalscript/apithread.c:832-846 | the segment after a block has been stored, from its body backwards; or the overflow |
| BlockFlatten.Thread.UnpackBlock | src/libglobalscript/apithread.c:612-847 | the program after a block has been unpacked |
| BlockFlatten.Thread.Round | src/libglobalscript/apithread.c:434-538 | one round of a thread, also one in which its primitive blocks, is one step of the abstract machine, and the thread is done exactly when its program is empty |
| Symtable.PutMembers | src/libglobalscript/symtable.c:96-116 | storing a string adds it to the table and removes none |
| Symtable.PutPlaced | src/libglobalscript/symtable.c:96-116 | every string stays in the bucket its hash says |
| Symtable.SymbolPlaced | src/libglobalscript/symtable.c:69-93 | a stored string is in the bucket where it is looked for |
| Symtable.OneMoreUnique | src/libglobalscript/symtable.c:17-32 | a new symbol added to a table without duplicates makes no duplicate |
| Symtable.OnlyOne | src/libglobalscript/symtable.c:17-32 | in a table without duplicates, a pointer to a symbol is the table's pointer exactly if it is in the table |
| Symtable.EqualIffSameSymbol | src/libglobalscript/symtable.c:17-32 | two interned pointers are equal exactly if their symbol type and text are equal |
| Symtable.Strings.constructor | src/libglobalscript/symtable.c:7-15 | nothing is interned |
| Symtable.Strings.Initialize | src/libglobalscript/symtable.c:151-168 | an empty table |
| Symtable.Strings.Get | src/libglobalscript/symtable.c:67-93 | the string of that type and text is found exactly if there is one |
| Symtable.Strings.Store | src/libglobalscript/symtable.c:95-116 | the string joins the table, which may grow |
| Symtable.Strings.Expand | src/libglobalscript/symtable.c:177-212 | growing keeps all strings, each in its new bucket |
| Symtable.Strings.MoveLinks | src/libglobalscript/symtable.c:199-208 | the links of one bucket move to the new table |
| Symtable.Strings.Alloc | src/libglobalscript/symtable.c:244-258 | a new string, not yet interned |
| Symtable.Strings.Intern | src/libglobalscript/symtable.c:16-32 | an interned pointer of that type and text, the same one for as long as it is in the table |
| Symtable.Strings.PreCallback | src/libglobalscript/symtable.c:170-175 | a collection starts with an empty table |
| Symtable.Strings.TraceString | src/libglobalscript/symtable.c:34-50 | the symbol is interned again under its type and text |
| Symtable.Strings.TraceSome | src/libglobalscript/symtable.c:34-50 | a collection that stops after some pointers: two of them agree afterwards exactly if they agreed before and both or neither were traced; no pointer from before is in the table |
| Symtable.SecondPointer | src/libglobalscript/symtable.c:16-50 | a collection stops before it reaches a pointer, and interning its text makes a second pointer |
| Symtable.Strings.TraceAll | src/libglobalscript/symtable.c:34-50 | re-interning during a collection keeps both equality and inequality of pointers |

## Left out

- Topsort.Sorter.TopsortFile: a document without data items, or whose entry item has a group already, ends the program in the source; here it is a precondition. Reading edges from the lines of an item, and the fixed capacity of the stacks, are not modelled: the graph is given as a map from items to lists of items.
- HeapTrace.Collector.Collect: chains of indirections and of selections on built records are acyclic (a rank is given), as the source would not end on a cycle; results hold when the tracer returns success. Cells under evaluation are copied with their update pointer as a label, and their stacks are the subject of StackEvacuate.
- HeapTrace.Collector.TraceObject: source positions with their file names, and lock words, are labels of an object and not traced; a promise is copied like any other object, and a code block's subexpressions and globals are its fields.
- StackCopy.CopyStack: the thread has an update frame, as every unfinished thread does; without one the source would rebase a null pointer.
- StackEvacuate.Collector.EvalTrace: values in the registers of a thread are traced when it is copied, but only slots of frames are counted.
- StackConsolidate.Thread.Consolidate: all tracing has ended, the bottom frame is an update frame (evaluation starts by pushing one), and a returned unboxed constructor selects a continuation of its frame. A frame kind that the source does not know, its last error return, is not modelled.
- StackConsolidate.SameUpdates: what the frames between update frames do to a returned value is one function of their words, the same before and after.
- Collection.KeptHoldsNoOldPointer: the tracers of heap and stacks call each other; here the slots are roots of the heap tracer, in the order in which evacuation traces them, after any other roots.
- BlockAlloc.SuballocKeepsInv: the source goes on with a null block when none is free; here the allocation fails without changing the state it has reached. String builders and parsed files take whole blocks and carve them up themselves, which is not modelled.
- BlockAlloc.Allocator.PreCallbacks: the two circular lists of registered suballocators are one list.
- Rendezvous.NeverStuck: a process that has yet to park can do so, but that it polls in time is not stated.
- TypeSubst.RightIff: a name too long for its buffer ends the program in the source and is not modelled, and free type variables are compared by name only, as in the source.
- TypeSubst.ApplyIsBeta: the kind check is a flag, since the type and kind checker is not modelled.
- Bytecode.Emitter.EmitCode: an `.analyze` has a case, as the loader rejects one without constructors; the constructor numbers of `.danalyze` are written with the instruction and not case by case; operands are register numbers below 256, which register lookup gives.
- Bytecode.CountsFit: how long a list can be is part of what code is (`MostOf`): the parser's limit on the fields of a line, and for free variables `FewFreeVariables`; the type checker builds its register table line by line, which is not modelled.
- Bytecode.EmitItem: the code is given as a case tree; looking up registers, types and labels is not modelled.
- Bytecode.Relocator.TraceInstrs: tracing the positions of instructions is not modelled.
- Regex.Builder.EmitLiteral: the loader passes no empty literal, as a field of a line is never empty. A malformed literal ends the program in the source; here it is excluded by the reference parse. The count of interpolated values against the arguments of the directive is not checked.
- Apply.Thread.ReturnToApp: a program closure with too many arguments and too many registers are failures of the thread, as in the source; the fixed number of registers is not modelled beyond that.
- Apply.RunDeliversTheApplication: the heap only grows; that a cell becomes an indirection to its value is the subject of UpdateFrames, and application frames are the only ones.
- UpdateFrames.RunKeepsProtocol: a run ends with the first thread that waits for ever; what other threads do after that is not modelled, nor are thread queues and the limit on threads.
- BlockFlatten.Thread.Collect: some operations of the source read registers without a bounds check; an operand out of bounds makes the thread abend here in every case.
- BlockFlatten.Thread.Round: evaluation and primitives are one function of the value, the promises and an external state.
- Symtable.Strings.Alloc: memory for strings is unbounded.
- Returning into force, strict and unboxed-case frames, primitives, instructions that only allocate, and the thread queue: they would add only easier members.
- Input and output, the parser of source lines, the type checker, error texts, statistics and system calls.
