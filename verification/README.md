# Verified models of MLKit's data structures and abstract machine

This project models five parts of the MLKit repository and proves what they are for:

- the open-addressing hash tables of `src/CUtils` (with and without cached hashes): backward-shift
  deletion, rebuilding in both directions, allocation failures, and their equality with a finite map
  over every run;
- the indexed binary heap of `src/CUtils`, with the positions it records for its elements;
- the Kit Abstract Machine of `src/Runtime/Interp.c`: calls, tail calls, returns, the chain of exception
  handlers threaded through the stack, regions on the stack, 31-bit multiplication, and the correctness of
  the code that `CodeGenKAM.sml` generates for it;
- the heap checkpoints and the shared pool of heaps of `src/Runtime/HeapCache.c`;
- the document core of the editor in `js/codemirror`: the tree of lines with its cached sizes, cached
  heights and parent links, the five ways a change is carried out on it, and the undo history.

`dafny verify dfyconfig.toml` checks everything. Each component has a layer of functions on values, the
lemmas that say what these functions mean, and, where the original changes things in place, a class or
methods with loops proved equal to the functions:

| component | specification and lemmas | in place |
|---|---|---|
| hash table | `Cyclic`, `HashSpec`, `HashSizes`, `HashOps`, `HashMap`, `HashCost`, `HashPace` | `HashLoops`, `HashTable` |
| cached-hash table | `PolyHash` | `PolyTable` |
| binary heap | `HeapSpec`, `HeapRuns`, `HeapCost` | `BinaryHeap` |
| abstract machine | `Kam`, `KamFrames`, `KamTailCalls`, `KamHandlers`, `KamRegions`, `KamCompile`, `KamCompiled` | `KamInterp`, `KamArith` |
| checkpoints and pool | `RegionCopy`, `HeapCopy`, `HeapPool`, `HeapLives` | `RegionStore` |
| document | `DocText`, `DocHistory`, `UndoRedo`, `UndoEdits`, `LineTree`, `LineShape`, `LineLinks`, `LineUnlinks`, `LinePaths`, `LineRuns` | `LineLookup`, `LineUp`, `LineEdit`, `LineDoc`, `DocEditor` |

What is outside a component is a parameter: whether an allocation succeeds, how a key is hashed and
compared, which code and which heap words the machine runs on, the height estimated for a line, whether
an edit may be merged with the one before it, which client of the pool takes the next step.

## Where the code does not do what it is meant to

- `src/CUtils/polyhashmap.c:102` compares an unreduced hash with slot numbers, where `hashmap.c` compares
  a slot number. `PolyHash.LiteralDiffers` gives, for every hash for which it matters, a table of two
  entries from which erasing one loses the other; `PolyHash.LiteralExactly` says for which hashes it
  matters.
- `heapdelete` sifts only downward. `HeapSpec.DeleteFails` is a heap that it leaves out of order;
  `HeapSpec.DeleteOrders` says exactly which deletions keep the order.
- `heapextractmin` does not record the new position of the element that it moves to the root.
  `HeapSpec.ExtractMinFails` is an example; `HeapSpec.ExtractMinPlaces` says exactly when the record is
  right, and `HeapRuns.RunGood` that over every run no other record is ever wrong.
- `setMaxHeapPoolSz` never assigns `maxHeapPoolSz` when it replaces the pool array. The model keeps the
  size of the array beside the limit. `HeapPool.SetMaxExactly` says which calls keep the pool in order,
  `HeapPool.Overruns` that after every other call enough releases run past the end of the array,
  `HeapPool.OverrunHappens` gives a run from the start in which this happens, and
  `HeapPool.AssignedLimit` says that with the assignment every call would keep the pool in order.
- `PRIM_MUL_I31` refuses one product that fits: `KamArith.MulI31` states when it raises, and
  `KamArith.RefusedFits` that the refused product has 31 bits.
- `addSelectionToHistory` may overwrite an undo event with a selection. `UndoRedo.SetSelExactly` says
  when an event is lost; `UndoRedo.SelectAfterRedo` shows that undoing and redoing an edit and then
  selecting within the same operation always loses one.
- An undo depth of 1 leaves nothing to undo: the loop that drops old entries then drops the event just
  made (`UndoEdits.DepthOne`). With any larger depth `UndoEdits.EditUndone` holds.
- Insertion into a hash table or a heap fails for want of memory also when it is a smaller table that
  cannot be had, though there is room in the present one. `HashMap.StepRefines` and `HeapRuns.StepBag` say
  exactly when a call fails.
- `HeapCache.c` still reads a field `g0.b` that the region descriptor of `Region.h` no longer has; the
  model keeps the field that the copying code uses.

## Model

| member | source | states |
|---|---|---|
| HashSpec.ProbeStops | src/CUtils/hashmap.c:55-72 | if any slot is free, probing ends at the first slot in cyclic order that is free or hits, and passes only used slots that do not hit |
| HashSpec.SearchComplete | src/CUtils/hashmap.c:55-72 | a search that ends at a free slot proves that no entry anywhere in the table has the key |
| HashSpec.StaysMeaning | src/CUtils/hashmap.c:95-96 | the three-way test holds if and only if the home slot lies cyclically after the hole and not after the entry |
| HashSpec.ShiftReachable | src/CUtils/hashmap.c:90-105 | after backward shifting, every slot cyclically from the home of an entry to the entry is used |
| HashSpec.ShiftPermutes | src/CUtils/hashmap.c:90-105 | backward shifting loses, duplicates and changes no entry |
| HashSpec.EraseAt | src/CUtils/hashmap.c:74-109 | erasing a slot and shifting keeps every entry reachable and takes away exactly that entry |
| HashSizes.UpperIsFloor | src/CUtils/hashmap.c:178-182 | the split division equals the floor of 800/1024 of the size, and is below the size |
| HashSizes.SizeMin | src/CUtils/hashmap.c:183-196 | sizes stay of the form 13*2^k-3, and shrinking exactly undoes growing |
| HashSizes.TargetHasRoom | src/CUtils/hashmap.c:178-197 | a rebuild leaves a legal size with room for one more entry below the load limit |
| HashSizes.TargetDue | src/CUtils/hashmap.c:178-197 | a rebuild is due if and only if at least floor(800n/1024) of the n slots are used, or n is not 10 and fewer than 150*floor(n/1024) are; the size is then 2n+3 or (n-3)/2 |
| HashOps.RehashKeeps | src/CUtils/hashmap.c:171-224 | a rebuild in either direction keeps the entries and their count and makes them all reachable; it fails if and only if it is due and memory is not there, and then, as when it is not due, nothing changes |
| HashOps.FindMeaning | src/CUtils/hashmap.c:55-72 | find ends at an entry with the key if and only if the table has one |
| HashOps.EraseMeaning | src/CUtils/hashmap.c:74-109 | erase keeps the table valid, takes away just the entry found, or nothing, and then rebuilds if that is due and there is memory |
| HashOps.InsertMeaning | src/CUtils/hashmap.c:145-168 | insert keeps the table valid and adds just the entry, or nothing if the key is there; it is out of memory if and only if a rebuild is due that cannot be made |
| HashOps.UpdateMeaning | src/CUtils/hashmap.c:111-143 | update keeps the table valid and puts the entry in place of the one with its key, if any; it is out of memory if and only if a rebuild is due that cannot be made |
| HashMap.FindRefines | src/CUtils/hashmap.c:55-72 | find gives the value of the map at the only key equal to the one asked for, or nothing |
| HashMap.EraseRefines | src/CUtils/hashmap.c:74-109 | erase removes from the map the keys equal to the given one |
| HashMap.InsertRefines | src/CUtils/hashmap.c:145-168 | insert extends the map, or fails because an equal key is there, or, exactly when a rebuild is due that cannot be made, for want of memory |
| HashMap.UpdateRefines | src/CUtils/hashmap.c:111-143 | update replaces the key equal to the given one by it, or adds it, unless a rebuild is due that cannot be made |
| HashMap.StepRefines | src/CUtils/hashmap.c:18-224 | every call, with any allocation outcome, gives the reply, the contents and the table size of a finite map with a size, whose answer is determined: out of memory if and only if an allocation is due that fails |
| HashMap.RunRefines | src/CUtils/hashmap.c:18-224 | every run of calls from a new table, with any allocations failing, is a run of that finite map with the same replies, and at every point the table is valid and holds exactly the map |
| HashCost.RehashPaid | src/CUtils/hashmap.c:171-224 | the slots visited by a rebuild are paid for, all but a constant, by earlier calls |
| HashCost.RunIsLinear | src/CUtils/hashmap.c:171-224 | over every run rebuilding visits at most 42 slots for each call |
| HashPace.MovesSettled | src/CUtils/hashmap.c:178-197 | when allocations succeed the load stays within its limits, and after a rebuild it is far from both |
| HashPace.RebuildsApart | src/CUtils/hashmap.c:171-224 | in every run without failing allocations, a table of n slots that is rebuilt twice in a row has n <= 14*(w+2), where w is the number of calls in between that change the number of entries |
| HashLoops.ProbeLoop | src/CUtils/hashmap.c:60-69 | the probe loop over the array ends, at the slot the specification gives |
| HashLoops.ShiftLoop | src/CUtils/hashmap.c:90-105 | the shift loop over the array leaves the slots the specification gives |
| HashLoops.RefillLoop | src/CUtils/hashmap.c:198-223 | the loops that fill a new table leave the slots the specification gives |
| HashLoops.NewSize | src/CUtils/hashmap.c:178-197 | whether the table is rebuilt, and with what size |
| HashTable.HashTable.constructor | src/CUtils/hashmap.c:18-46 | a new table represents the empty map, or is null if memory is not there |
| HashTable.HashTable.Reinit | src/CUtils/hashmap.c:18-46 | resetting empties the map, or loses the table if both allocations fail |
| HashTable.HashTable.Find | src/CUtils/hashmap.c:55-72 | on the array: the reply of the finite map |
| HashTable.HashTable.Insert | src/CUtils/hashmap.c:145-168 | on the array: contents and reply of the specification, and a step of the finite map, which is out of memory only when an allocation was due |
| HashTable.HashTable.Update | src/CUtils/hashmap.c:111-143 | on the array: contents and reply of the specification, and a step of the finite map, which is out of memory only when an allocation was due |
| HashTable.HashTable.Erase | src/CUtils/hashmap.c:74-109 | on the array: contents and reply of the specification, and a step of the finite map |
| HashTable.HashTable.Rehash | src/CUtils/hashmap.c:171-224 | on the array: the rebuild of the specification |
| PolyHash.FindStrips | src/CUtils/polyhashmap.c:62-80 | comparing cached hashes before keys finds the same slot as comparing keys |
| PolyHash.WriteStrips | src/CUtils/polyhashmap.c:119-178 | insert and update, without the cached hashes, are those of the plain table, and keep the cached hashes right |
| PolyHash.RehashStrips | src/CUtils/polyhashmap.c:179-231 | a rebuild from cached hashes is the rebuild from the keys' hashes |
| PolyHash.EraseStrips | src/CUtils/polyhashmap.c:81-118 | with the stored hash reduced, erase is that of the plain table |
| PolyHash.LiteralTest | src/CUtils/polyhashmap.c:102-104 | for one hash, the unreduced test agrees with the reduced one for every hole and place if and only if the hash is below the size or a multiple of it |
| PolyHash.LiteralAgrees | src/CUtils/polyhashmap.c:81-118 | erase as it is written agrees with the reduced one on every table all of whose hashes are of that kind |
| PolyHash.LiteralLoses | src/CUtils/polyhashmap.c:81-118 | for every other hash, a table of two entries from which erasing one leaves the other stored but impossible to find |
| PolyHash.LiteralDiffers | src/CUtils/polyhashmap.c:81-118 | on that table the erase as written and the reduced one differ |
| PolyHash.LiteralExactly | src/CUtils/polyhashmap.c:81-118 | a hash can be stored without erase going wrong if and only if it is below the size or a multiple of it |
| PolyTable.PolyStep | src/CUtils/polyhashmap.c:62-231 | every call is the same call of the plain table and keeps the cached hashes right: with the hash reduced without exception, and as written unless an erase meets a hash that is not harmless |
| PolyTable.PolyRunRefines | src/CUtils/polyhashmap.c:62-231 | every run with the hash reduced, and every run as written whose erases meet only harmless hashes, is a run of the plain table with the same replies |
| PolyTable.ReducedRunRefines | src/CUtils/polyhashmap.c:62-231 | every run from a new table with the hash reduced, whatever allocations fail, is a run of a finite map with the same replies |
| PolyTable.PolyTable.Find | src/CUtils/polyhashmap.c:62-80 | on the array: the reply of the specification |
| PolyTable.PolyTable.Insert | src/CUtils/polyhashmap.c:153-178 | on the array: contents and reply of the specification; the count stays right |
| PolyTable.PolyTable.Update | src/CUtils/polyhashmap.c:119-152 | on the array: contents and reply of the specification; the cached hash of a key already there is kept |
| PolyTable.PolyTable.Erase | src/CUtils/polyhashmap.c:81-118 | on the array: the erase as written; the count stays right |
| PolyTable.PolyTable.Rehash | src/CUtils/polyhashmap.c:179-231 | on the array: the rebuild of the specification |
| HeapSpec.HeapifyOrders | src/CUtils/binaryheap.c:86-112 | sifting down repairs a heap that is out of order only below one place |
| HeapSpec.SiftUpOrders | src/CUtils/binaryheap.c:143-148 | sifting up repairs a heap that is out of order only above one place |
| HeapSpec.ChangeKeyOrders | src/CUtils/binaryheap.c:135-150 | any new key, larger or smaller, leaves the heap ordered, from a heap ordered except at that place |
| HeapSpec.ChangeKeyKeeps | src/CUtils/binaryheap.c:135-150 | just the one key changes |
| HeapSpec.ChangeKeyPlaces | src/CUtils/binaryheap.c:135-150 | if every recorded position but possibly one is right, so it stays: a stale record at the root after an extraction does not spread |
| HeapSpec.InsertOrders | src/CUtils/binaryheap.c:163-175 | insertion keeps the order |
| HeapSpec.InsertAdds | src/CUtils/binaryheap.c:163-175 | insertion adds exactly the one element |
| HeapSpec.InsertPlaces | src/CUtils/binaryheap.c:163-175 | the same for insertion: every recorded position equals the index, but possibly for the one that was stale |
| HeapSpec.RootIsLeast | src/CUtils/binaryheap.c:114-121 | the root of an ordered heap is a global minimum |
| HeapSpec.ExtractMinOrders | src/CUtils/binaryheap.c:123-133 | extraction keeps the order |
| HeapSpec.ExtractMinTakes | src/CUtils/binaryheap.c:123-133 | extraction takes away exactly the root |
| HeapSpec.ExtractMinPlaces | src/CUtils/binaryheap.c:123-133 | also from a heap whose root's record is stale: after extraction every recorded position except possibly the root's is right, and the root's if and only if the moved element sinks |
| HeapSpec.ExtractMinFails | src/CUtils/binaryheap.c:123-133 | a heap of two in which the position recorded after extraction is wrong |
| HeapSpec.DrainSorts | src/CUtils/binaryheap.c:123-133 | repeated extraction yields a sorted permutation of the elements |
| HeapSpec.DeleteOrders | src/CUtils/binaryheap.c:152-161 | deletion keeps the order if and only if it is at the root or the end, or the last element is not smaller than the parent of the deleted one |
| HeapSpec.DeleteFails | src/CUtils/binaryheap.c:152-161 | an ordered heap that a deletion leaves out of order |
| HeapSpec.DeleteTakes | src/CUtils/binaryheap.c:152-161 | deletion takes away exactly the element |
| HeapSpec.DeletePlaces | src/CUtils/binaryheap.c:152-161 | the same for deletion, which leaves at most the one stale record |
| HeapRuns.CapFits | src/CUtils/binaryheap.c:14-46 | after a successful resize there is room for one more element |
| HeapRuns.CapDue | src/CUtils/binaryheap.c:14-46 | a reallocation is due if and only if the array is full, or larger than 10 and at most an eighth full; it then doubles, or shrinks to a quarter but not below 10, and fails only if memory is not there |
| HeapRuns.StepBag | src/CUtils/binaryheap.c:114-175 | the reply, the change of the contents and that of the array size of every call are those of a bag: an extraction takes a least element, an insertion, deletion or key change affects just the one element, and insertion is out of memory if and only if a reallocation is due that fails |
| HeapRuns.StepGood | src/CUtils/binaryheap.c:114-175 | every call, an insertion of an element not in the heap and a deletion under the condition of `HeapSpec.DeleteOrders`, keeps order, every recorded position but the root's, and room |
| HeapRuns.RunGood | src/CUtils/binaryheap.c:14-175 | at every point of every run of such calls from an empty heap, whatever reallocations fail: the heap is ordered, every recorded position but possibly the root's is right, the size is below the capacity, and every step is that of a bag |
| HeapCost.ResizePaid | src/CUtils/binaryheap.c:14-46 | the elements moved by a reallocation are paid for, all but one, by the calls since the last one |
| HeapCost.RunIsLinear | src/CUtils/binaryheap.c:14-175 | over every run, whatever reallocations fail, at most 3k+5 elements are moved in k calls |
| HeapCost.RunCompact | src/CUtils/binaryheap.c:14-175 | in every run without failing reallocations the array has 10 places or at most eight times as many as there are elements |
| BinaryHeap.BinaryHeap.Reinit | src/CUtils/binaryheap.c:48-55 | an empty heap with room, or a report that memory is not there |
| BinaryHeap.BinaryHeap.Resize | src/CUtils/binaryheap.c:14-46 | growing and shrinking keep the contents, give the capacity of the specification and leave room for one more element, unless growing fails |
| BinaryHeap.BinaryHeap.Ex | src/CUtils/binaryheap.c:71-83 | the exchange of the specification, on the array |
| BinaryHeap.BinaryHeap.Sink | src/CUtils/binaryheap.c:86-112 | the recursive sifting down of the specification, on the array |
| BinaryHeap.BinaryHeap.Rise | src/CUtils/binaryheap.c:143-148 | the sifting up loop of the specification, on the array |
| BinaryHeap.BinaryHeap.Minimal | src/CUtils/binaryheap.c:114-121 | a global minimum of an ordered heap, or underflow |
| BinaryHeap.BinaryHeap.ExtractMin | src/CUtils/binaryheap.c:123-133 | on the array: the step of the specification, which returns and removes a global minimum; order, positions other than the root's and room are kept |
| BinaryHeap.BinaryHeap.ChangeKey | src/CUtils/binaryheap.c:135-150 | on the array: the step of the specification; order and positions are kept, also with a stale record at the root |
| BinaryHeap.BinaryHeap.Delete | src/CUtils/binaryheap.c:152-161 | on the array: the step of the specification; size stays below capacity, and order and positions are kept under the condition of `HeapSpec.DeleteOrders` |
| BinaryHeap.BinaryHeap.Insert | src/CUtils/binaryheap.c:163-175 | on the array: the step of the specification, nothing if memory is not there; size stays below capacity, order and positions are kept |
| KamFrames.StepPlaces | src/Runtime/Interp.c:581-1159 | every instruction, also those of regions and handlers, does the same wherever its frame lies on the stack, the stack addresses in the frame moving with it |
| KamFrames.RunPlaces | src/Runtime/Interp.c:581-1159 | so does every run within a frame |
| KamTailCalls.CalleeReturns | src/Runtime/Interp.c:1092-1118 | a callee that reaches its return, having opened and closed regions, installed handlers and raised and handled exceptions as it likes, comes back to the caller's address and environment with its results in place of the frame, and with the caller's handlers and regions |
| KamTailCalls.JmpReturns | src/Runtime/Interp.c:614-672 | a tail call and the callee's return come back to the caller's caller with the callee's results |
| KamTailCalls.CallReturns | src/Runtime/Interp.c:604-660 | so do the call, the callee's return and the caller's return |
| KamTailCalls.TailCallMeansCall | src/Runtime/Interp.c:604-672 | for every argument count, frame size, result count and such callee the two end in the same machine |
| KamTailCalls.TailCallRaisesAsCall | src/Runtime/Interp.c:90-106 | an exception that the callee does not handle arrives at the handler in the same machine after a tail call and after a call |
| KamHandlers.StepInv | src/Runtime/Interp.c:604-1159 | every step that keeps the compiler's discipline keeps the handler chain descending and linked, and the regions in order |
| KamHandlers.RunInv | src/Runtime/Interp.c:1141-1159 | the chain and the regions are in order at every point of every such run |
| KamHandlers.RunKeeps | src/Runtime/Interp.c:1141-1159 | as long as a handler is installed, the stack up to it and the regions below it stay as they were |
| KamHandlers.RaiseRestores | src/Runtime/Interp.c:90-106 | raising from any depth gives back the machine in which the innermost handler was installed, with the exception as the argument of its closure and only the regions below it |
| KamHandlers.InstallsPrepared | src/Compiler/Backend/KAM/CodeGenKAM.sml:576-597 | what the three pushes before the installation of a handler leave on the stack |
| KamHandlers.HandleBegins | src/Compiler/Backend/KAM/CodeGenKAM.sml:576-597 | these pushes keep the chain and the regions in order and are followed by the installation, which the discipline allows |
| KamHandlers.HandleByRaise | src/Compiler/Backend/KAM/CodeGenKAM.sml:576-597 | when the protected expression raises, the handler runs, with regions and nested handlers of its own, and control continues after the handle expression with stack, environment, handlers and regions as before it |
| KamHandlers.HandleNormally | src/Compiler/Backend/KAM/CodeGenKAM.sml:576-597 | when it ends normally, removing the handler leaves stack, handlers and regions as before it |
| KamHandlers.RegionsBelowKeeps | src/Runtime/Interp.c:90-93 | of regions ordered by address, deallocation leaves exactly those below the given address |
| KamRegions.LetregionPlaces | src/Runtime/Interp.c:679-684 | opening a region puts its descriptor on top of the stack, and its index in the accumulator |
| KamRegions.ScopeHolds | src/Runtime/Interp.c:679-690 | in every disciplined run in which a region stays open, its descriptor, the stack below it and the older regions and handlers stay as they were |
| KamRegions.RegionCloses | src/Runtime/Interp.c:679-690 | closing it then gives back the stack and the regions from before it was opened, and if the handlers are those from before, the handler in force as well |
| KamCompiled.AccessRuns | src/Compiler/Backend/KAM/CodeGenKAM.sml:324-330 | the code for a name loads its value, from the frame or the closure, or the place of its region |
| KamCompiled.ArgsRun | src/Compiler/Backend/KAM/CodeGenKAM.sml:994-997 | the code for arguments pushes the values of all but the last, which is in the accumulator |
| KamCompiled.CasesRun | src/Compiler/Backend/KAM/CodeGenKAM.sml:360-413 | the code for a switch runs the first case whose selector equals the accumulator, or the default, and goes on behind the last |
| KamCompiled.ValueRuns | src/Compiler/Backend/KAM/CodeGenKAM.sml:441-575 | the code for every expression without tail calls leaves what the expression evaluates to in the accumulator, and stack, environment, handlers and regions as they were |
| KamCompiled.TailRuns | src/Compiler/Backend/KAM/CodeGenKAM.sml:468-507 | the code for an expression with tail calls ends with its value in the accumulator or has already returned it to the caller |
| KamCompiled.ApplyRuns | src/Compiler/Backend/KAM/CodeGenKAM.sml:1006-1033 | the code for a function, called with arguments for which it has a value, returns that value to the saved address and environment, with the stack from before the call, to any depth of calls and tail calls |
| KamInterp.Interp.MoveDown | src/Runtime/Interp.c:617-620 | the in-place move reads every word before it is overwritten, however the areas overlap |
| KamInterp.Interp.Slide | src/Runtime/Interp.c:617-620 | the words above a gap are moved down over it, and the stack ends after them |
| KamInterp.Interp.ApplyFnCall | src/Runtime/Interp.c:604-613 | on the stack array: the step of the machine |
| KamInterp.Interp.ApplyFunCall | src/Runtime/Interp.c:626-660 | on the stack array: the step of the machine |
| KamInterp.Interp.ApplyFnJmp | src/Runtime/Interp.c:614-625 | on the stack array: the step of the machine |
| KamInterp.Interp.ApplyFunJmp | src/Runtime/Interp.c:661-672 | on the stack array: the step of the machine |
| KamInterp.Interp.Return | src/Runtime/Interp.c:1092-1118 | on the stack array: the step of the machine |
| KamInterp.Interp.LetregionInf | src/Runtime/Interp.c:679-684 | on the stack array: the step of the machine that `KamRegions.LetregionPlaces` describes |
| KamInterp.Interp.EndregionInf | src/Runtime/Interp.c:685-690 | on the stack array: the step of the machine that `KamRegions.RegionCloses` describes |
| KamInterp.Interp.PushExnPtr | src/Runtime/Interp.c:1148-1153 | on the stack array: the step of the machine |
| KamInterp.Interp.PopExnPtr | src/Runtime/Interp.c:1155-1159 | on the stack array: the step of the machine |
| KamInterp.Interp.Raise | src/Runtime/Interp.c:90-106 | on the stack array: the step of the machine, regions freed one by one |
| KamArith.TagRoundTrip | src/Runtime/Tagging.h:78-79 | tagging and untagging is the identity if and only if the number has 31 bits |
| KamArith.MulChunks | src/Runtime/Interp.c:1295-1322 | the chunked product of magnitudes is exact, without a 32-bit intermediate overflow, or is too large |
| KamArith.MulI31 | src/Runtime/Interp.c:1295-1322 | the result is the exact tagged product; overflow is raised if and only if the product does not have 31 bits or both factors are 2^15 in magnitude with opposite signs |
| KamArith.RefusedFits | src/Runtime/Interp.c:1295-1322 | in the latter case factors and product have 31 bits |
| RegionCopy.WriteBackRestores | src/Runtime/HeapCache.c:177-186 | reading a copy back gives every copied page its words and touches no other page; a zero word is never taken for the end |
| RegionCopy.OpKeeps | src/Runtime/HeapCache.c:118-173 | writing in place, appending pages and adding large objects keep the old pages first and the old large objects last |
| RegionCopy.OpShows | src/Runtime/HeapCache.c:118-173 | what is written is read back, a page comes from the free list, and nothing else changes: the restoration has something to undo |
| RegionCopy.RestoresAll | src/Runtime/HeapCache.c:175-212 | restoring gives back pages, words, links, pointers and large objects, and frees exactly the pages and objects added since |
| RegionCopy.RoundTrip | src/Runtime/HeapCache.c:118-212 | the same after a checkpoint and any run of such operations |
| HeapCopy.ActKeeps | src/Runtime/HeapCache.c:308-374 | an operation on one of several regions with disjoint pages and objects and one free list keeps every one of them restorable |
| HeapCopy.OneBack | src/Runtime/HeapCache.c:308-338 | restoring one region leaves those restored before it as they are and the others restorable |
| HeapCopy.HeapRoundTrip | src/Runtime/HeapCache.c:308-374 | after a checkpoint of a heap and any run of operations on its regions and low stack words, restoring gives back every region with its pages and large objects, and the stack below the pointer; no page is lost |
| RegionStore.Store.CopyRegion | src/Runtime/HeapCache.c:118-173 | following the links, copies exactly the pages and large objects of the region |
| RegionStore.Store.ReadPages | src/Runtime/HeapCache.c:177-186 | the loop that reads a copy back does what the specification says |
| RegionStore.Store.RestoreRegion | src/Runtime/HeapCache.c:175-212 | in place: the memory and the region descriptor of the specification, and the region given back |
| RegionStore.Store.RestoreLobjs | src/Runtime/HeapCache.c:193-210 | in place: the large objects added since are freed, the values of the old ones are put back |
| HeapPool.StepInv | src/Runtime/HeapCache.c:66-390 | every step of every client keeps: pooled heaps are clean and as checkpointed, none is pooled twice, none is with two clients, the array is not overrun |
| HeapPool.SetMaxExactly | src/Runtime/HeapCache.c:66-106 | a change of the limit keeps this if and only if it does not replace the array by one smaller than the limit in force |
| HeapPool.AssignedLimit | src/Runtime/HeapCache.c:83-105 | if the replacement of the array assigned the limit, every change of it would keep the pool in order |
| HeapPool.Overruns | src/Runtime/HeapCache.c:66-106 | after every other change, releasing as many restored heaps as the new array has places left, and one more, puts more heaps in the pool than the array has places |
| HeapPool.OverrunHappens | src/Runtime/HeapCache.c:66-106 | a run of two clients from the start at whose end the pool has more heaps than the array has places |
| HeapPool.RunInv | src/Runtime/HeapCache.c:231-390 | the same over every interleaving of any number of clients |
| HeapPool.PoolProtocol | src/Runtime/HeapCache.c:231-306 | whoever gets a heap is its only holder, and it is new or clean; a released heap was in use, has been restored, and goes to a place inside the array |
| HeapLives.CheckpointKept | src/Runtime/HeapCache.c:231-374 | in every interleaving, a heap that is handed out from the pool has the contents with which an earlier step checkpointed it, whatever its clients did to it in between |
| HeapLives.EveryHandOut | src/Runtime/HeapCache.c:231-374 | every heap handed out from the pool was checkpointed by an earlier step of the run |
| HeapLives.OthersUntouched | src/Runtime/HeapCache.c:66-390 | no step of one client, and no change or clearing of the pool, touches the heap of another |
| HeapLives.OwnShows | src/Runtime/HeapCache.c:214-374 | what a client does to its heap it finds there, and in which states of the heap it may |
| HeapLives.GetReuses | src/Runtime/HeapCache.c:231-251 | a new heap is made only if the pool is empty; otherwise the heap released last is handed out |
| HeapLives.ReleaseOrDrop | src/Runtime/HeapCache.c:278-306 | a released heap goes to the pool if and only if there is room and an array or memory for one; otherwise just that heap is deleted |
| HeapLives.LimitChanges | src/Runtime/HeapCache.c:66-106 | a new array keeps as many pooled heaps as it has places and exactly the others are deleted; without memory nothing changes |
| HeapLives.ClearEmpties | src/Runtime/HeapCache.c:376-390 | afterwards the pool is empty, exactly the pooled heaps are gone, and no client's heap is touched |
| HeapLives.SixByDefault | src/Runtime/HeapCache.c:231-306 | as long as the limit is not changed at most six heaps are pooled |
| HeapPool.IdsNeverRepeat | src/Runtime/HeapCache.c:231-251 | two new heaps never have the same number |
| DocText.SpliceJoins | js/codemirror/codemirror.js:5972-6015 | a change turns the joined text into the text before it, the new text, and the text after it |
| DocText.NewTextLies | js/codemirror/codemirror.js:3249-3253 | the new text lies exactly between the start of the change and its computed end |
| DocText.InverseUndoes | js/codemirror/codemirror.js:6672-6677 | the history change of a change takes it back |
| DocHistory.InvertUndoes | js/codemirror/codemirror.js:3400-3418 | the inverses of the changes of an event, in the order they are collected, take the event back |
| DocHistory.InvertTwice | js/codemirror/codemirror.js:3400-3418 | inverting twice gives the same changes |
| DocHistory.MergeInsertion | js/codemirror/codemirror.js:6717-6721 | moving the end of the last change behind an insertion takes the insertion back with it |
| DocHistory.TrimKeepsNewest | js/codemirror/codemirror.js:6734-6737 | the events dropped for the undo depth are the oldest |
| DocHistory.TrimSize | js/codemirror/codemirror.js:6734-6737 | a stack of at most the undo depth is kept whole; of a larger one the newest entries are kept, as many as the depth or one fewer |
| UndoRedo.MergedUndoes | js/codemirror/codemirror.js:6716-6725 | an event with a change merged into it leads back to the text before the event, and typing on adds no change to it |
| UndoRedo.FoundExactly | js/codemirror/codemirror.js:6691-6715 | there is an event to merge an edit with if and only if its operation is the last one and there is any event, or it is similar and at most one selection was recorded after the last event |
| UndoRedo.EditView | js/codemirror/codemirror.js:6706-6746 | an edit joins the last event exactly then; otherwise it is an event of its own, which is kept if the undo depth is at least 2, and no other is dropped if there is room |
| UndoRedo.EditedTexts | js/codemirror/codemirror.js:6706-6746 | after an edit, undoing leads to the same texts as before and, unless merged, to the text before the edit |
| UndoEdits.EditUndone | js/codemirror/codemirror.js:3369-3431 | one undo after an edit that was merged leads where one undo led before it; after any other, with a depth of at least 2, to the text, the selection and the generation from before the edit, and to no events but those there were |
| UndoEdits.DepthOne | js/codemirror/codemirror.js:6734-6737 | with a depth of 1 an edit that is not merged leaves nothing to undo |
| UndoEdits.SameOpTogether | js/codemirror/codemirror.js:6706-6746 | two edits of one operation are undone together |
| UndoEdits.EditsUndone | js/codemirror/codemirror.js:3369-3431 | in every run, after edits that are not merged and for which there is room, as many undos give back the texts before them one by one |
| UndoEdits.StepInOrder | js/codemirror/codemirror.js:3369-3431 | every operation keeps a selection below every event of both stacks, so that there is one for an undo or redo to set |
| UndoEdits.UndoRedoSel | js/codemirror/codemirror.js:3369-3431 | a redo after an undo gives the selection that was recorded first after the event |
| UndoEdits.MovedKept | js/codemirror/codemirror.js:3386-3397 | the selections after the event that is undone are all moved to the other stack, on top of what is there |
| UndoEdits.SelectThenEdit | js/codemirror/codemirror.js:6761-6787 | an edit belongs with the event before a selection of the same operation |
| UndoEdits.SelectRecords | js/codemirror/codemirror.js:6761-6787 | a selection that is set is on top of the stack, and the redo stack loses at most selections |
| UndoEdits.PushSelOnce | js/codemirror/codemirror.js:6783-6787 | a selection that is already on top of a stack is not recorded again |
| UndoRedo.BackForth | js/codemirror/codemirror.js:3369-3431 | a redo after an undo gives back the text, both stacks of events and the generation |
| UndoRedo.BackForthBy | js/codemirror/codemirror.js:3369-3431 | so do as many redos as undos |
| UndoRedo.SetSelExactly | js/codemirror/codemirror.js:6761-6787 | a selection keeps all undo events if and only if it does not replace an event |
| UndoRedo.RedoLeavesEvent | js/codemirror/codemirror.js:3369-3431 | after a redo the top of the stack is an event |
| UndoRedo.SelectAfterRedo | js/codemirror/codemirror.js:6761-6787 | after any edit, its undo and its redo, a selection of the same operation as the edit loses an event |
| UndoRedo.StepKnown | js/codemirror/codemirror.js:6706-6787 | every operation keeps each generation tied to one text |
| UndoRedo.SameGenerationSameText | js/codemirror/codemirror.js:6655-6746 | at any two points of any run with the same generation the text is the same |
| UndoRedo.UndoRedoRun | js/codemirror/codemirror.js:3369-3431 | at every point of every run, k undos give a text that the document had at an earlier point, with the generation it had then, namely the text before the last k events; k redos then give back text, events and generation |
| LineTree.SplitLeafKeeps | js/codemirror/codemirror.js:6119-6125 | splitting a leaf keeps its lines and leaves leaves of at most 50 lines with right heights |
| LineTree.SplitBranchKeeps | js/codemirror/codemirror.js:6134-6154 | splitting a branch keeps its lines and leaves branches of at most 10 children with right sizes and heights |
| LineTree.InsertSplices | js/codemirror/codemirror.js:6111-6132 | insertion below the root puts the lines where they belong, with every cached number right and no chunk too large |
| LineTree.SpillRootKeeps | js/codemirror/codemirror.js:6134-6154 | a root that has grown is split into more levels, keeping its lines, its identity and right numbers |
| LineTree.InsertRootSplices | js/codemirror/codemirror.js:6202-6206 | inserting in the document is inserting in the sequence of lines |
| LineTree.RemoveCuts | js/codemirror/codemirror.js:6085-6107 | removing from a chunk is cutting the sequence of its lines, with every cached number right and no chunk too large |
| LineShape.SplitLeafFills | js/codemirror/codemirror.js:6119-6125 | a leaf is split exactly if it has more than 50 lines, into leaves of 25 to 50 |
| LineShape.SplitBranchFills | js/codemirror/codemirror.js:6134-6154 | a branch is split exactly if it has more than 10 children, into branches of 5 to 10 |
| LineShape.SpillRootFills | js/codemirror/codemirror.js:6134-6154 | so is the root, which keeps such branches as children |
| LineShape.RemoveCollapses | js/codemirror/codemirror.js:6099-6106 | a branch left with fewer than 25 lines is left with a single leaf, and one with more keeps its children |
| LineShape.RunShaped | js/codemirror/codemirror.js:6030-6166 | over every run of insertions and removals no chunk of the tree is empty, unless the document is, which then is one empty leaf |
| LineShape.NewShaped | js/codemirror/codemirror.js:6173 | a new document is such a tree |
| LineLinks.SplitLeafLinks | js/codemirror/codemirror.js:6119-6125 | splitting a leaf sets the parents of the moved lines and of the new leaves |
| LineLinks.SplitBranchLinks | js/codemirror/codemirror.js:6134-6154 | splitting a branch sets the parents of the moved chunks and of the new branches |
| LineLinks.InsertLinks | js/codemirror/codemirror.js:6111-6132 | insertion leaves every parent link below the root right, and no object is in the tree twice |
| LineLinks.InsertRootLinks | js/codemirror/codemirror.js:6202-6206 | so does inserting in the document, whose root has no parent |
| LineUnlinks.RemoveLinks | js/codemirror/codemirror.js:6085-6107 | removal leaves every parent link right, also after a collapse, and the removed lines have no parent |
| LineUnlinks.EmptiedLoses | js/codemirror/codemirror.js:6085-6097 | a chunk all of whose lines are removed has no parent |
| LineUnlinks.RemoveRootLinks | js/codemirror/codemirror.js:6207 | the same for the document |
| LineRuns.RunRefines | js/codemirror/codemirror.js:6030-6166 | over every run of insertions and removals the tree holds what a plain sequence would, every cached size and height is the sum, every parent link is right, no leaf has more than 50 lines and no branch more than 10 children |
| LineRuns.NewOk | js/codemirror/codemirror.js:6173 | a new document is such a tree, of one empty line |
| LineLookup.GetLine | js/codemirror/codemirror.js:6548-6559 | the line with a number, found through the cached sizes; nothing if and only if there is none |
| LineLookup.IterN | js/codemirror/codemirror.js:6156-6165 | visits, through the cached sizes, exactly the lines from one number to another, in order |
| LineLookup.LineAtHeight | js/codemirror/codemirror.js:6604-6621 | through the cached heights: the same line as a search through all lines |
| LineLookup.LineAtMeans | js/codemirror/codemirror.js:6604-6621 | that line is the one whose extent, by sums of line heights, contains the position |
| LinePaths.HeapAt | js/codemirror/codemirror.js:6590-6600 | in a tree without repeated objects the identity of a chunk leads to that chunk |
| LineUp.LineNo | js/codemirror/codemirror.js:6590-6600 | walking up the parent links gives the only number whose line is the given one, and nothing if and only if the line is in no document |
| LineUp.HeightAtLine | js/codemirror/codemirror.js:6625-6642 | walking up gives the sum of the heights of all lines above |
| LineUp.UpdateLineHeight | js/codemirror/codemirror.js:6583-6586 | walking up and adding the difference changes the height of just that line and leaves every cached number and link right |
| LineUp.RaiseExact | js/codemirror/codemirror.js:6583-6586 | heights raised exactly on the way from a line to the top are right again |
| LineEdit.RetextWhole | js/codemirror/codemirror.js:5590-5599 | giving a line another text changes nothing else of the tree |
| LineDoc.LineDoc.constructor | js/codemirror/codemirror.js:6169-6188 | a document made from a text has that text, in lines of height 1 |
| LineDoc.LineDoc.InsertLines | js/codemirror/codemirror.js:6202-6206 | the lines are spliced in, and the tree stays right |
| LineDoc.LineDoc.RemoveLines | js/codemirror/codemirror.js:6207 | the lines are cut out and lose their parents, and the tree stays right |
| LineDoc.LineDoc.UpdateLine | js/codemirror/codemirror.js:5590-5599 | one line gets a text and the height estimated for it, and the tree stays right |
| LineDoc.LineDoc.ReplaceWholeLines | js/codemirror/codemirror.js:5984-5991 | the whole-line case is the one splice, and the line after the change stays the same object; the lines it brings in have the heights estimated for their texts |
| LineDoc.LineDoc.ReplaceInLine | js/codemirror/codemirror.js:5992-6001 | the two one-line cases are the one splice; the lines it brings in have the heights estimated for their texts |
| LineDoc.LineDoc.JoinLines | js/codemirror/codemirror.js:6002-6004 | joining lines is the one splice; the lines it brings in have the heights estimated for their texts |
| LineDoc.LineDoc.ReplaceAcrossLines | js/codemirror/codemirror.js:6005-6012 | the last case is the one splice; the lines it brings in have the heights estimated for their texts |
| LineDoc.LineDoc.UpdateDoc | js/codemirror/codemirror.js:5972-6015 | in every case the new text is the old one with the range replaced, the lines brought in have the heights estimated for their texts, all lines outside the range are untouched, and the tree stays right |
| DocEditor.GetText | js/codemirror/codemirror.js:6563-6573 | iterating over the tree of lines collects the text between two positions |
| DocEditor.Editor.AddChangeToHistory | js/codemirror/codemirror.js:6706-6746 | the stacks and the generation are those of the specification |
| DocEditor.Editor.MakeChange | js/codemirror/codemirror.js:3351-3356 | an edit on the tree of lines and the stacks is the step of the history, which stays sound; lines, identities and heights change as `LineDoc.LineDoc.UpdateDoc` says |
| DocEditor.Editor.ApplyChanges | js/codemirror/codemirror.js:3407-3418 | the changes of an event are applied last first, and their inverses collected |
| DocEditor.Editor.MakeChangeFromHistory | js/codemirror/codemirror.js:3369-3431 | an undo or redo on the tree of lines and the stacks is the step of the history, which stays sound; the selection it sets is there |
| DocEditor.Editor.AddSelection | js/codemirror/codemirror.js:6761-6781 | a selection is recorded as the step of the history says, also when it replaces an event; otherwise the history stays sound |

## Left out

- The wrap-around of `unsigned long` in the hash tables and the heap: sizes and counts are unbounded integers.
- PolyTable.PolyStep: of the erase as written only calls that meet harmless hashes are covered, because it loses entries otherwise; `PolyHash.LiteralExactly` states the boundary.
- PolyTable.PolyRunRefines: the same for runs; `PolyTable.ReducedRunRefines` has no such condition.
- PolyTable.PolyTable.Erase: states the literal erase, which is not that of a finite map when a stored hash is not harmless.
- A call on a table lost by a failed reset, which the C code would not survive, gets the reply `NotCalled`.
- The hashapply, hashmap and hashfold families, which visit the slots in array order and leave the table as it is or replace values; the typed wrappers, which cast and call the core; the hash functions, which are a parameter.
- BinaryHeap.BinaryHeap.Delete: order is kept only under the condition of `HeapSpec.DeleteOrders`, and `HeapRuns.RunGood` is about runs whose deletions meet it.
- KamTailCalls.TailCallMeansCall: the callee does not compute with stack addresses, reach below its frame, or return an address within it.
- KamTailCalls.TailCallRaisesAsCall: nor does an exception carry such an address.
- KamCompiled.ValueRuns: integers, names, binary primitives, let, switch, regions and calls; records, constructors, references, exceptions, several results, calls without arguments and the marking of region addresses are not among the expressions, the merging of an instruction with the next one is not modelled, labels are addresses, and the cases of a switch are searched one by one, which is the generator's alternative to binary search and jump tables.
- KamHandlers.RunInv: the discipline of the compiled code (no instruction reaches below the innermost handler or newest region except to remove it) is assumed of each step, not derived from the compiler.
- Stack overflow, the words of a region descriptor other than their number, finite regions beyond the stack words they take, and the instructions for records, floating point, C calls and linkage.
- KamArith.MulI31: the width is the intended 32 bits; the operations other than multiplication are not modelled.
- HeapCopy.HeapRoundTrip: the stack below the six words that are copied is taken not to be written between checkpoint and restoration; any number of regions stands for the six of the code.
- A heap's contents are abstract in the pool, where `HeapCopy.HeapRoundTrip` justifies restoring as one step.
- HeapPool.StepInv: excludes the changes of the limit that `HeapPool.SetMaxExactly` shows to break the pool.
- `resetRegion` while a request runs, failing `malloc` of a heap structure, and the error exits of `HeapCache.c`.
- The chunks of the line tree are values with identities and a map of parents, not objects on the heap: insertion and removal are functions on trees, so that sharing between trees is not captured.
- LineRuns.RunRefines: operations outside the document are excluded; the code never makes them.
- LineUp.HeightAtLine: there are no collapsed spans, so the visual line is the line.
- Markers, line widgets, linked documents, handlers that cancel changes, clipping of positions, the number of the first line (taken as 0), and `undoSelection`.
- Selections are opaque values, which are not clipped to the text, and the selection after a change is a parameter. That an edit or a selection may merge with the last one because it belongs to the same operation is modelled; that it may because of clocks and origins is a parameter: the theorems hold for every choice.
- UndoEdits.EditUndone: needs an undo depth of at least 2 unless the edit is merged; `UndoEdits.DepthOne` is the other case.
- UndoRedo.UndoRedoRun: edits lie within the text, the undo depth is at least 1, and no selection replaces an event.
