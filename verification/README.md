# Verified models of the systems components

Dafny models of nine C components and proofs of what they promise. Each component has a model that follows its source
branch by branch, and theorems over every input, every run or every interleaving. `dafny verify dfyconfig.toml` checks
everything.

Code that works on one object in place is a class with methods proved against functions of the old state. Code that
several threads run at once is a step relation: one step is what a thread does between two points where it releases a
lock, a queue or a barrier, and a run is any sequence of enabled steps.

## Components

| files | what is modelled |
|---|---|
| `Basics`, `LittleEndian` | an option type and bytes, and numbers stored as bytes, shared by the rest |
| `Digraph`, `CycleCheck`, `TopoSort` | `parallel_make/parmake.c`: which goals are dropped, and the order of the rest |
| `MakePool`, `MakeSteps`, `MakeSafety`, `MakeOrder`, `MakeOutcome`, `MakeFiles` | `parallel_make/parmake.c`: the worker pool, for any number of workers |
| `AllocLayout`, `AllocBytes`, `Allocator`, `StaleLink` | `malloc/alloc.c`: the block list, the same list inside byte memory, and what the shipped split leads to |
| `PageTables`, `PageRelease`, `FlatMemory`, `MmuInvariant`, `MmuModel` | `ideal_indirection/mmu.c`: TLB, page walk, demand paging, processes |
| `Cracker`, `CrackerRounds`, `CrackerOutcome`, `CrackerTrials` | `password_cracker/cracker2.c`: rounds of N threads over one work list |
| `SchedulerQueue`, `SchedulerModel`, `ShortestJobFirst` | `savvy_scheduler/libscheduler.c`: comparers, dispatching, accounting |
| `FileBlocks`, `FileBytes`, `Minixfs` | `finding_filesystems/minixfs.c`: writing and reading files over direct and indirect blocks |
| `Barrier`, `BlockingQueue`, `BoundedQueue`, `LinkedQueue` | `critical_concurrency/barrier.c` and `queue.c`: the two monitors |
| `FileServer`, `FileTransfers` | `nonstop_networking/server.c`: one client's request, event by event |

## Contracts taken for code that is not in the repository

- Parallel make: the parser gives a graph in which the root vertex `""` is nobody's dependency, and every vertex has a
  rule. A command's exit status is fixed per rule and position. The queue is first in, first out. Which targets open as
  files may differ at every locked pass; the theorems hold for any such choice, and say what follows when none opens.
- Allocator: `sbrk` takes its argument as a signed number, moves the break by it between an aligned nonzero base and a
  limit, and fresh bytes are zero. Requests are any `size_t`: `PayloadExact` says for which of them the block is large
  enough, and `GrowthExact` for which a new block lies inside the break. A store beyond the break or behind the block it
  is for is an answer of its own, after which nothing is promised.
- MMU: the kernel hands out only frames not in use, evicts only present pages (never tables or directories), saves what
  it evicts, and table and directory frames arrive with no present entries; `mmu_add_process` is called for a pid that is not
  live; reads and writes are for live pids. The TLB keeps any subset of its entries when one is added.
- Password search: `getSubrange` gives ranges inside the candidate space; `RangesCover` adds what follows when they
  cover it. The barrier releases N threads when N wait. `incrementString` returns 0 at the last candidate.
- Scheduler: the priority queue is stable and sorted. Time is a real number and does not go back.
- File system: the block allocator returns an unused block, or -1 exactly when all are used; `minixfs_min_blockcount`
  fills the first slots of a file one by one or fails; the parent of a path is a directory, an unused inode is not a
  file's, a created inode has size 0 and no blocks, and an entry has a fixed number of bytes.
- Server: `sendall` sends everything; `recvall` gives up to 1024 bytes; no other client uses the same file meanwhile.
- Monitors: POSIX condition variables, with spurious wakeups, and signals that wake at least one sleeper.

## Where the model departs from the shipped code, by name

- `relink` in `Allocator.Heap.Split`: true is the split as meant, which points the old successor back at the new block
  as every other relinking step of the source does; false is the shipped one. The heap invariant survives a malloc
  if and only if `relink` holds or the chosen block is not split or is the last one. `InteriorSplitIsReachable` gives a
  legal run that leads to the bad case, and `BytesHandedOutTwice` one that ends with two live pointers into the same
  bytes. `Calloc` and `Realloc` are stated for the split as meant.
- `shipped` in `Minixfs.FileSystem.Write`: true is the shipped write address, which adds the offset within the block in
  units of blocks; false adds it in bytes, as the read does. `ShippedRoundTrip` says exactly when the shipped write
  can be read back: at block boundaries, or for no bytes.
- The two branches the proofs show to be dead (the permission fault for a present page, the offset past the announced size)
  are `assert false`.
- Otherwise the behaviour is the shipped one, also where it may surprise. A PUT whose surplus bytes arrive after the
  announced size fell on the end of a chunk ends well, because the surplus is never read; its confirmation is four
  bytes, a zero byte included; a tight fit shrinks a block and loses the rest.

## Model

| member | source | states |
|---|---|---|
| `CycleCheck.HasCycleUtil` | parallel_make/parmake.c:18-38 | from an unvisited vertex the search says true exactly when the vertex reaches a cycle, and keeps the shared sets meaningful: visited off the stack reaches no cycle, left on the stack by a failed search reaches one; it terminates by unvisited vertices |
| `CycleCheck.CheckGoal` | parallel_make/parmake.c:44-56 | a goal is dropped exactly when it reaches a cycle, whether it is searched now or was met by an earlier search |
| `CycleCheck.CheckCycle` | parallel_make/parmake.c:40-60 | afterwards the goals are exactly the old goals that reach no cycle and no other edge changed |
| `CycleCheck.PruningKeepsCycles` | parallel_make/parmake.c:46-55 | removing root edges between searches changes neither who reaches a cycle nor what the shared sets mean |
| `Digraph.RootEdgesInvisible` | parallel_make/parmake.c:49-54 | reachability and cycles from a vertex that is not the root do not see the root's edges |
| `Digraph.BackEdgeClosesCycle` | parallel_make/parmake.c:24-27 | an edge from the end of a walk back onto it makes every vertex of the walk reach a cycle |
| `Digraph.ReachesCycleUnfolds` | parallel_make/parmake.c:22-34 | a vertex reaches a cycle exactly when it is on one or a neighbour reaches one |
| `TopoSort.SortUtil` | parallel_make/parmake.c:62-74 | a visit appends the target after everything it depends on and appends only what it reaches |
| `TopoSort.Sort` | parallel_make/parmake.c:76-87 | the list is exactly the vertices reachable from the targets, each once, every dependency strictly before its dependents |
| `TopoSort.ListedClosure` | parallel_make/parmake.c:62-87 | whatever a listed vertex reaches is listed |
| `TopoSort.PlanBuild` | parallel_make/parmake.c:219-232 | for any makefile graph, cyclic or not, what is sorted is exactly what the cycle-free goals reach |
| `MakePool.PrepareBuild` | parallel_make/parmake.c:213-235 | the plan the workers start from: kept goals, their closure in order, dependencies unchanged |
| `MakePool.Scan` | parallel_make/parmake.c:171-183 | a dependency list is ready exactly when all are built; it fails only if some dependency failed and waits only if one is unfinished |
| `MakePool.SharedBuild.constructor` | parallel_make/parmake.c:234-266 | the states and queue before the first worker starts are those of the seeding specification, with the sentinel when nothing is to be built |
| `MakePool.SharedBuild.MarkFiles` | parallel_make/parmake.c:236-242 | exactly the targets that open as files start as built |
| `MakePool.SharedBuild.SeedQueue` | parallel_make/parmake.c:243-263 | the seeding loop marks and queues, in order, the rules whose dependencies are all built |
| `MakePool.SharedBuild.FinishRule` | parallel_make/parmake.c:160-206 | the locked region publishes the result, counts what opens as a file as built, queues or fails pending rules in one ordered pass, and pushes the sentinel exactly when no goal is pending; `PassFindsFiles`, `PassShape` and `PassMeaning` say what the pass means |
| `MakeSteps.PassShape` | parallel_make/parmake.c:163-189 | one rule's turn leaves it, marks it built by its file, queues it, or fails it, and queues it only if it was pending |
| `MakeSteps.EachTargetQueuedOnce` | parallel_make/parmake.c:95-209 | for every thread count, interleaving and appearance of files each target is queued at most once |
| `MakeSteps.RulesTakenInOrder` | parallel_make/parmake.c:102-108 | in every run the rules still in the queue are the last queued, in the order of queueing: workers take first what was queued first |
| `MakeSafety.PassMeaning` | parallel_make/parmake.c:163-189 | after a locked pass, whatever opened as a file in it, every state is right and every pending rule still has a pending or queued dependency and no failed one found first |
| `MakeSafety.SequentialBuildIsClosure` | parallel_make/parmake.c:102-207 | without files the recursive reference build of a rule succeeds exactly when every command in its dependency closure does |
| `MakeSafety.RunsAreSound` | parallel_make/parmake.c:95-209 | in every interleaving and whatever opens as a file, a built rule is one that a sequential build with the files seen builds, a failed one is one that a sequential build without files fails, and a queued rule is in exactly one place: the queue or one worker |
| `MakeOrder.CommandsRunInOrder` | parallel_make/parmake.c:130-162 | in every interleaving and whatever opens as a file, no command starts twice, a rule's commands start in order after the previous one succeeded, and only after each dependency was seen as a file or had all its commands succeed behind its own dependencies |
| `MakeOrder.RanIsClosureRan` | parallel_make/parmake.c:130-162 | without files "ran behind its dependencies" means that every command of every rule in the closure ran and succeeded |
| `MakeOrder.QuietCommandsWait` | parallel_make/parmake.c:130-162 | when nothing opens as a file a command starts only after every command in its dependencies' closures succeeded |
| `MakeOrder.FailedDependencyStops` | parallel_make/parmake.c:115-158 | in every run a worker that has pulled a rule starts no command of it while one of its dependencies stays failed: it gives the rule up as failed, or finds it built by a file |
| `MakeOutcome.RunsKeepSentinelRules` | parallel_make/parmake.c:102-108 | in every state of every run, whatever opens as a file: the sentinel is out only when no goal is pending, every goal queued before it is pulled before a worker takes it, and while it is not out there is work queued or pending |
| `MakeOutcome.SentinelStays` | parallel_make/parmake.c:102-108 | once pushed the sentinel is never lost: it is out in every later state of the run |
| `MakeOutcome.NothingPending` | parallel_make/parmake.c:160-206 | with nothing queued or running, acyclicity leaves nothing pending |
| `MakeOutcome.NeverStuck` | parallel_make/parmake.c:102-108 | in every reachable state, whatever opens as a file, all workers have exited or one can move |
| `MakeOutcome.RunsAreBounded` | parallel_make/parmake.c:95-209 | every run, whatever opens as a file, is at most as long as the work there was at its start |
| `MakeOutcome.GoalsEndAsSequential` | parallel_make/parmake.c:95-209 | when all workers have exited every kept goal is built or failed, whatever opened as a file: built if the sequential build succeeds without files, and only if it succeeds with those seen |
| `MakeOutcome.QuietGoalsEndAsSequential` | parallel_make/parmake.c:95-209 | when nothing opens as a file a goal is built exactly when every command of its dependency closure succeeds, and failed otherwise |
| `MakeFiles.PassFindsFiles` | parallel_make/parmake.c:163-170 | after a locked pass every target that opens as a file is built, and what was built still is |
| `MakeFiles.FilesCount` | parallel_make/parmake.c:120-170 | in every run, when a worker publishes, each target that opens as a file then is built, whatever its state was; if nobody had begun with its rule, be it pending, queued or pulled, it is built in every later state and none of its commands ever starts |
| `MakeFiles.SeenExactly` | parallel_make/parmake.c:163-242 | the files that the soundness of runs speaks of are exactly the targets that opened before the workers started or when some worker published |
| `MakeFiles.SeededExactly` | parallel_make/parmake.c:243-263 | exactly the rules all of whose dependencies opened as files and were not queued themselves are queued before the workers start |
| `MakeFiles.FilesAtStart` | parallel_make/parmake.c:234-263 | a target that opens before the workers start and is not queued then is built in every state of every run, and none of its commands ever starts |
| `AllocLayout.RoundUpExact` | malloc/alloc.c:125 | for every size_t, rounding keeps the size up to the alignment if and only if adding 7 does not wrap; when it wraps nothing is left |
| `AllocLayout.GrowthExact` | malloc/alloc.c:159-160 | for every rounded size: below half the address space sbrk gives exactly the block and its header; from there on it is asked to shrink the heap and refuses, until the argument no longer leads below the base, where the header of the new block itself lies beyond the new break |
| `AllocLayout.FirstFit` | malloc/alloc.c:59-68 | the first free block that is large enough, and none exactly when no block is |
| `AllocLayout.Pick` | malloc/alloc.c:127-136 | the block malloc takes is the last one if that is free and large enough, else the first that is; none is taken exactly when none is |
| `AllocLayout.TakeKeeps` | malloc/alloc.c:138-157 | taking a block, split or whole, keeps the heap in order, makes exactly one block live, and loses at most 32 bytes |
| `AllocLayout.GrowKeeps` | malloc/alloc.c:158-170 | growing the heap keeps it in order and adds exactly one live block at the old break |
| `AllocLayout.ReleaseKeeps` | malloc/alloc.c:229-260 | freeing keeps the heap in order with no two free neighbours, ends exactly that block's life and loses nothing |
| `AllocLayout.LivePayloadsDisjoint` | malloc/alloc.c:115-172 | live payloads are aligned, inside the heap and pairwise disjoint |
| `AllocLayout.ApplyKeeps` | malloc/alloc.c:115-331 | any call of malloc, calloc, free or realloc on live pointers and any size_t keeps the heap in order, unless it stores a header beyond the break or bytes behind its block: blocks and lost bytes add up to what sbrk gave, and at most 32 more are lost |
| `AllocLayout.OrdinaryCallsStay` | malloc/alloc.c:115-331 | no call for less than half the address space, less a header and a rounding, stores astray |
| `AllocLayout.CopyFitsExactly` | malloc/alloc.c:324-326 | the bytes of a moved block fit in the new one if and only if it need not move, size + 7 does not wrap, or it is empty |
| `AllocLayout.PayloadExact` | malloc/alloc.c:115-172 | the block malloc hands out was not live before and is at least as large as asked for if and only if size + 7 does not wrap; when it wraps the block has no bytes |
| `AllocLayout.MallocPlaces` | malloc/alloc.c:127-170 | if some free block has room for the rounded size the break stays: the last block is used if it has room, else the first that has; what is left of it is a free block behind a header if it holds 8 more bytes, and is lost otherwise; every other block stays. If none has room a new block stands at the old break |
| `AllocLayout.MallocFails` | malloc/alloc.c:127-172 | malloc answers null exactly when no free block has room for the rounded size and the heap cannot grow |
| `AllocLayout.ReallocResizes` | malloc/alloc.c:307-331 | in terms of live blocks: size 0 ends the block's life and answers null; a block that is large enough stays and is the answer; otherwise a new block at least as large as asked for (unless size + 7 wraps) takes its place, or, with a null answer, nothing changes |
| `AllocLayout.LargestRequest` | malloc/alloc.c:125 | on an unused heap malloc(SIZE_MAX) is not null: it is a live block of no bytes |
| `AllocLayout.RunKeeps` | malloc/alloc.c:115-331 | after every sequence of malloc, calloc, free and realloc the same holds as long as no call stores astray, with at most 32 bytes lost per call |
| `AllocLayout.FreeingEverythingCoalesces` | malloc/alloc.c:229-260 | freeing every live pointer in any order leaves one free block covering everything but the lost bytes |
| `AllocLayout.InteriorSplitIsReachable` | malloc/alloc.c:143-153 | a legal run of four calls after which the next small malloc splits a block that has a successor |
| `AllocBytes.StoreFieldMeaning` | malloc/alloc.c:38-41 | storing one header field changes that field of that header and nothing else of it |
| `AllocBytes.StoreFieldInList` | malloc/alloc.c:144-155 | storing a field of one header leaves every other header of the list as it was |
| `Allocator.Heap.InitHead` | malloc/alloc.c:31-43 | the first call maps the initial heap as one free block, or the kernel refused |
| `Allocator.Heap.FindFirstFit` | malloc/alloc.c:59-68 | following the next pointers in memory finds the block the specification's first fit finds |
| `Allocator.Heap.Choose` | malloc/alloc.c:127-136 | the tail shortcut and the list walk find the block the specification picks |
| `Allocator.Heap.Split` | malloc/alloc.c:143-155 | splitting yields the specified layout, keeps every payload byte, and leaves a good heap if and only if the successor is re-pointed or there is none |
| `Allocator.Heap.UseWhole` | malloc/alloc.c:139-142 | a block used whole yields the specified layout and keeps every payload byte |
| `Allocator.Heap.Extend` | malloc/alloc.c:159-169 | growing links a new block behind the tail, changes nothing when the kernel refuses, or reports that the break did not move far enough for the header; payload bytes stay |
| `Allocator.Heap.Malloc` | malloc/alloc.c:115-172 | malloc on bytes for any size_t: the layout and answer of the specification; a pointer leads to a block that was not live, all others live as before, and with enough bytes unless size + 7 wraps; null exactly when no free block has room and the heap does not grow; no live payload byte changed; a good heap if and only if no interior split was left unlinked; it stores beyond the break exactly when nothing fits and sbrk grants a size that is not growable |
| `Allocator.SplitStores` | malloc/alloc.c:143-155 | after the stores of a split the list in memory is the new layout if and only if the successor is re-pointed or there is none |
| `Allocator.Heap.Absorb` | malloc/alloc.c:240-248 | merging two free neighbours in memory yields the merged list with next, prev and tail right |
| `Allocator.Heap.Free` | malloc/alloc.c:229-260 | free on bytes: the live blocks are the old ones less that of the pointer, the layout is that of the specification, the heap is good, and no other payload byte changed; a null pointer changes nothing |
| `Allocator.Heap.StorePayload` | malloc/alloc.c:207-209 | a store inside a live payload leaves the heap good and every other byte as it was |
| `Allocator.Heap.Calloc` | malloc/alloc.c:197-211 | a product that overflows gives null and changes nothing; otherwise a new live block of the product's size, all zero, or null with the live blocks as before, unless product + 7 wraps: then memset leaves the heap if there is a block |
| `Allocator.ProductOverflow` | malloc/alloc.c:202-204 | the division test is exactly the overflow of the product |
| `Allocator.Heap.Realloc` | malloc/alloc.c:307-331 | for any size_t: size 0 frees the block and answers null; otherwise the answer leads to a live block of at least that size that takes the old one's place or is it, or is null with every block live as before; its first min(old, new) bytes are the old contents and every other live payload is unchanged, also when malloc inside it splits or grows the heap; a null pointer is malloc; it stores astray exactly when malloc does or the old bytes do not fit in the new block |
| `StaleLink.BytesHandedOutTwice` | malloc/alloc.c:115-260 | on every fresh heap nine calls of a client that frees only what it holds end, with the shipped split, with two live pointers into the same bytes: a merge through the stale prev drops a live block from the list |
| `StaleLink.FreshAgrees` | malloc/alloc.c:31-43 | the headers a run starts from are the specification's heap after its first call, linked right |
| `StaleLink.MallocAgrees` | malloc/alloc.c:115-172 | on headers that are linked right the shipped malloc answers as the specification, and leaves them linked right if and only if it splits no block but the last |
| `StaleLink.FreeAgrees` | malloc/alloc.c:229-260 | on headers that are linked right free is the specification's release and leaves them linked right |
| `PageTables.PresentFramesDistinct` | ideal_indirection/mmu.c:70-80 | no two present page table entries anywhere share a frame, and no page frame is a table or a directory |
| `PageTables.WalksApart` | ideal_indirection/mmu.c:45-60 | two walks end at the same entry only for the same page of the same process |
| `PageTables.EvictKeeps` | ideal_indirection/mmu.c:75 | eviction keeps the invariant and the bytes behind every entry |
| `PageTables.AddPageKeeps` | ideal_indirection/mmu.c:70-80 | bringing a page in keeps the invariant and the bytes behind every entry, its own from swap included |
| `PageTables.AddTableKeeps` | ideal_indirection/mmu.c:48-57 | a fresh table keeps the invariant, changes only its own directory entry, and has no present entries |
| `PageTables.StoreKeeps` | ideal_indirection/mmu.c:121-123 | a store into a page changes the bytes behind its own entry and behind no other |
| `PageRelease.ReleaseNext` | ideal_indirection/mmu.c:226-233 | one turn of the inner loop returns the page of that entry, if present, and its swap file, and nothing else |
| `PageRelease.ReleaseTable` | ideal_indirection/mmu.c:222-236 | finishing a directory entry returns its table, or nothing when it had none |
| `PageRelease.WithoutGood` | ideal_indirection/mmu.c:217-247 | memory without the process is in order, and all other processes keep their directories |
| `PageRelease.FramesInUse` | ideal_indirection/mmu.c:217-247 | every page frame in use is a present page of a live process: nothing leaks |
| `FlatMemory.Isolated` | ideal_indirection/mmu.c:111-126 | what the flat memory of a process holds depends on that process's own events only |
| `FlatMemory.ReadsReturnLastWrites` | ideal_indirection/mmu.c:95-126 | in a coherent history every read returns the bytes its process wrote last |
| `FlatMemory.ReadsRepeat` | ideal_indirection/mmu.c:95-109 | two reads of a byte agree unless its process wrote it or came or went in between |
| `MmuInvariant.FirstSegmentsCover` | ideal_indirection/mmu.c:152-196 | a new process may use its testing pages, program image and stack, and nothing else |
| `MmuInvariant.WriteFaithful` | ideal_indirection/mmu.c:117-123 | if only the spliced page of one process changes, memory still agrees with the history extended by that write |
| `MmuInvariant.ReadFaithful` | ideal_indirection/mmu.c:101-107 | the bytes of the page agree with all the history had fixed |
| `MmuInvariant.WithoutOthers` | ideal_indirection/mmu.c:217-247 | removing a process takes no walk and no byte from another |
| `MmuModel.Mmu.AskFrame` | ideal_indirection/mmu.c:53-75 | asking for a frame, with any eviction, loses no walk and no byte |
| `MmuModel.Mmu.Translate` | ideal_indirection/mmu.c:32-62 | the entry from the TLB or the walk is what the two-level walk of the current pid gives, and is in the TLB afterwards; a miss and a page fault are counted exactly when they happen |
| `MmuModel.Mmu.PageIn` | ideal_indirection/mmu.c:70-80 | the entry is present and usable afterwards and nothing is lost |
| `MmuModel.Mmu.PerformCheck` | ideal_indirection/mmu.c:18-93 | an entry comes back exactly when the address is in a segment; it is the pid's own walk and is in the TLB afterwards; outside the segments no miss is counted and the TLB is only flushed on a switch; no process loses anything, and the three counters count exactly |
| `MmuModel.Mmu.ReadFrom` | ideal_indirection/mmu.c:95-109 | a read returns bytes that agree with the history and leaves the page accessed, or returns nothing exactly outside the segments |
| `MmuModel.Mmu.WriteTo` | ideal_indirection/mmu.c:111-126 | a write extends the history by itself and leaves the page accessed and dirty, or does nothing exactly outside the segments; the invariant ties memory and swap to the history |
| `MmuModel.Mmu.AddProcess` | ideal_indirection/mmu.c:140-215 | a new process has pages 1 and 2 and no other, the segments of the source, and takes nothing from others |
| `MmuModel.Mmu.RemoveProcess` | ideal_indirection/mmu.c:217-247 | exactly the process's pages, swap files, tables and directory go, and the TLB is flushed if it was current |
| `Cracker.FillQueue` | password_cracker/cracker2.c:142-160 | the work list is every share of every user in input order, then one end mark per thread |
| `CrackerRounds.HoldersCount` | password_cracker/cracker2.c:41-45 | as many items have been pulled in a round as threads hold one, and all N exactly when every thread holds one |
| `CrackerRounds.PullKeeps` | password_cracker/cracker2.c:42-45 | a pull gives the thread the next share of the same user |
| `CrackerRounds.AnnounceKeeps` | password_cracker/cracker2.c:46-51 | only the first thread of a round prints the start |
| `CrackerRounds.TryKeeps` | password_cracker/cracker2.c:75-97 | a try counts one hash and either sets the answer to a hit or moves on past a miss |
| `CrackerOutcome.AllSearched` | password_cracker/cracker2.c:105 | when the first barrier opens, found is set exactly when some candidate in some share hits |
| `CrackerOutcome.TripOpens` | password_cracker/cracker2.c:127 | when the second barrier opens, everything is as at the start of a round, for the next user |
| `CrackerOutcome.RunsAlign` | password_cracker/cracker2.c:41-128 | in every interleaving the rounds line up with the users |
| `CrackerOutcome.SameUser` | password_cracker/cracker2.c:41-128 | threads that hold work at the same time work for the same user, on different shares until the first barrier opens |
| `CrackerOutcome.SharesHandedOut` | password_cracker/cracker2.c:142-160 | when a round's first barrier opens, each of the N threads holds its own share of one user and every share is held |
| `CrackerOutcome.PrintedInOrder` | password_cracker/cracker2.c:47-51 | starts and summaries alternate, one of each per user, in input order |
| `CrackerOutcome.AllUsersPrinted` | password_cracker/cracker2.c:41-128 | when all threads have exited every user had exactly one start and one summary |
| `CrackerOutcome.SummariesTruthful` | password_cracker/cracker2.c:109-116 | every summary counts exactly the hashes of its user in the log, reports found exactly when a candidate in the union of the shares hits, and then names a hit; `CrackerTrials` says which candidates those hashes are |
| `CrackerOutcome.RangesCover` | password_cracker/cracker2.c:146 | if the shares cover the space, that is a search of the whole space |
| `CrackerTrials.SharesTriedInTurn` | password_cracker/cracker2.c:61-97 | in every interleaving what was hashed of a share is a prefix of it, each candidate once, from its start on |
| `CrackerTrials.HitsEndTheSearch` | password_cracker/cracker2.c:66-90 | after a hit the thread that found it hashes nothing more of that user and every other thread at most one more candidate |
| `CrackerTrials.SummariesCount` | password_cracker/cracker2.c:102-116 | a summary counts the candidates hashed in all shares of its user; when nothing was found that is every candidate of every share, so the count is the sum of the shares' counts; when something was found its answer was hashed; nothing of the user is hashed later |
| `CrackerOutcome.NeverStuck` | password_cracker/cracker2.c:41-128 | until all threads have exited, one can move or the barrier opens |
| `CrackerOutcome.RunsAreBounded` | password_cracker/cracker2.c:41-128 | every run ends |
| `SchedulerQueue.ComparersOrder` | savvy_scheduler/libscheduler.c:70-137 | each of the six comparers is a total preorder given as a sign |
| `SchedulerQueue.ComparersMean` | savvy_scheduler/libscheduler.c:70-137 | who goes first, scheme by scheme, in the fields: earlier arrival, smaller priority number, less remaining or running time, ties by first arrival; and when the comparer calls two jobs equal |
| `SchedulerQueue.Place` | savvy_scheduler/libscheduler.c:154 | the place of an offered job: behind everything not greater, before the first greater |
| `SchedulerQueue.OfferSorts` | savvy_scheduler/libscheduler.c:154 | offering keeps the queue sorted |
| `SchedulerQueue.PollKeeps` | savvy_scheduler/libscheduler.c:163 | polling takes a job that no queued job precedes and keeps the rest sorted |
| `SchedulerModel.TickKeeps` | savvy_scheduler/libscheduler.c:157-185 | while time passes the records stay right and the keys of queued jobs do not change |
| `SchedulerModel.EvictKeeps` | savvy_scheduler/libscheduler.c:174-177 | charging an evicted job makes its remaining time its running time less all processor time it had |
| `SchedulerModel.FinishKeeps` | savvy_scheduler/libscheduler.c:187-194 | finishing a job keeps the records of the others right |
| `SchedulerModel.ArrivesLast` | savvy_scheduler/libscheduler.c:115-125 | under FCFS and RR a job that arrives now goes to the end of the queue |
| `SchedulerModel.LeastNeed` | savvy_scheduler/libscheduler.c:103-113 | the job at the front goes before every queued one by the fields of its scheme, and under PSRTF it needs least of all unfinished jobs |
| `SchedulerModel.Scheduler.Preempt` | savvy_scheduler/libscheduler.c:174-184 | the running job is charged and joins the queue, and a job that by the scheme's fields no queued one precedes gets the processor; nobody is lost |
| `SchedulerModel.Scheduler.NewJob` | savvy_scheduler/libscheduler.c:141-155 | a job joins behind everything not greater, and the books agree with the records |
| `SchedulerModel.Scheduler.QuantumExpired` | savvy_scheduler/libscheduler.c:157-185 | who runs next, scheme by scheme: FCFS, PRI and SJF keep a running job; RR, PSRTF and PPRI put it back when something is queued; whoever is dispatched has under PRI and PPRI the least priority number and among equals the earliest first arrival, under PSRTF the least need, under SJF the least running time; round robin is first in first out; remaining times agree with processor time received |
| `SchedulerModel.Scheduler.JobFinished` | savvy_scheduler/libscheduler.c:187-194 | against books that only watch the clock: the waiting total grows by the time the job was queued plus any processor time beyond its running time, the turnaround total by the time it was queued or on the processor, and the response total by the time it was queued before its first run; so the first is the time finished jobs spent queued if each ran as long as it said |
| `ShortestJobFirst.FrontIsNoWorse` | savvy_scheduler/libscheduler.c:127-137 | moving a shortest job to the front does not lengthen the total wait |
| `ShortestJobFirst.ShortestFirstIsBest` | savvy_scheduler/libscheduler.c:127-137 | shortest first has the least total waiting time over all orders of the same jobs |
| `ShortestJobFirst.RunToCompletion` | savvy_scheduler/libscheduler.c:157-194 | with all jobs offered and a processor that never idles the SJF scheduler's own total is that least one |
| `Barrier.Init` | critical_concurrency/barrier.c:15-23 | a barrier for no threads is refused; any other starts good for its first round, with all threads outside and nobody waiting |
| `Barrier.OpensGood` | critical_concurrency/barrier.c:29-32 | the last arrival starts the next round for everyone |
| `Barrier.RunsGood` | critical_concurrency/barrier.c:25-40 | in every interleaving with spurious wakeups the count is the number of threads waiting in the current round and the use count is the number of openings modulo 2^32 |
| `Barrier.NobodyEarly` | critical_concurrency/barrier.c:25-40 | nobody returns from its k-th wait before everybody made its k-th call, and threads are never more than one round apart |
| `Barrier.WrapNeverMisleads` | critical_concurrency/barrier.c:34 | however often the 32-bit use count wrapped, an awake thread leaves exactly when its round has opened, and otherwise sleeps again |
| `Barrier.OpenedIsAwake` | critical_concurrency/barrier.c:32-36 | a thread whose round has opened is awake and its next look leaves |
| `Barrier.NeverAllInside` | critical_concurrency/barrier.c:25-40 | if nobody is outside, somebody is about to leave |
| `BlockingQueue.FirstInFirstOut` | critical_concurrency/queue.c:61-99 | in every interleaving the pulled sequence is a prefix of the pushed one, the size is the difference, and it never exceeds a positive bound |
| `BlockingQueue.CallsAreServed` | critical_concurrency/queue.c:61-99 | in every interleaving each call is served once or still waits inside: for every element, the calls of push that were given it are those that put it into the list and those waiting to; the calls of pull are as many as the elements taken out and the threads waiting for one |
| `BlockingQueue.NoLostWakeup` | critical_concurrency/queue.c:78-96 | without a bound, whenever a consumer sleeps at least as many consumers are awake as elements are queued |
| `BlockingQueue.QueuedIsTaken` | critical_concurrency/queue.c:82-99 | so while something is queued and a consumer waits, some awake consumer's next look takes the first element |
| `BoundedQueue.BoundLosesWakeups` | critical_concurrency/queue.c:65-96 | for every bound, a reachable state of bound + 3 threads in which a consumer sleeps with more elements queued than consumers awake: signals meant for consumers went to producers |
| `BoundedQueue.UnboundedExactly` | critical_concurrency/queue.c:65-96 | no wakeup is lost, in any reachable state of any number of threads, if and only if the queue has no bound |
| `BoundedQueue.BoundedCanStall` | critical_concurrency/queue.c:64-66 | for every bound, a reachable state in which a producer sleeps although the queue is empty and nobody is awake: each signal meant for it went to a consumer |
| `BoundedQueue.StallsExactly` | critical_concurrency/queue.c:64-96 | a producer can be left asleep with room and nobody awake if and only if the queue has a bound |
| `LinkedQueue.List.Push` | critical_concurrency/queue.c:67-77 | the linked list gains the new element at its end and keeps the others |
| `LinkedQueue.List.Pull` | critical_concurrency/queue.c:88-95 | the linked list gives its first element and keeps the others |
| `FileBlocks.SetRefKeeps` | finding_filesystems/minixfs.c:200-227 | giving an empty slot an unused block changes that slot only and leaves every block in at most one direct, indirect or table slot |
| `FileBytes.AddressesApart` | finding_filesystems/minixfs.c:295 | different positions, of one file or two, have different addresses |
| `FileBytes.ChunkMeant` | finding_filesystems/minixfs.c:231-235 | a chunk stored at the byte address changes its own positions and no other position of any file |
| `FileBytes.WriteStores` | finding_filesystems/minixfs.c:187-238 | a write as meant, or a shipped one at a block boundary, stores the buffer at its positions and changes no other byte of any file |
| `FileBytes.FirstByteStays` | finding_filesystems/minixfs.c:235 | a shipped write off a block boundary leaves its first byte as it was |
| `FileBytes.RoundTrip` | finding_filesystems/minixfs.c:187-299 | what was written reads back, across the boundary between direct and indirect blocks |
| `FileBytes.ShippedRoundTrip` | finding_filesystems/minixfs.c:235 | as shipped every buffer reads back if and only if the offset is a multiple of the block size or the count is 0 |
| `Minixfs.FileSystem.EnsureBlock` | finding_filesystems/minixfs.c:196-229 | it succeeds exactly when enough blocks are free for the slot and a missing indirect block; only that slot and, for an indirect one, the empty slot of the indirect block may be filled |
| `Minixfs.FileSystem.MinBlockCount` | finding_filesystems/minixfs.c:180-185 | the first slots all get blocks exactly when there are so many slots and as many free blocks as the file lacks, indirect block included |
| `Minixfs.BlocksNeededExactly` | finding_filesystems/minixfs.c:180-185 | the blocks asked for are the fewest that hold all bytes up to the end of the range |
| `Minixfs.SlotsWithinLimit` | finding_filesystems/minixfs.c:162-168 | whatever fits in the slots of a file is below the size limit, so the limit refuses no write that has slots |
| `Minixfs.FileSystem.CreateFile` | finding_filesystems/minixfs.c:65-131 | a file is created exactly when a directory and an inode are found and there are blocks for the entry; the entry goes behind the last one and the directory grows by it; otherwise no byte and no size changes, though the inode is set up |
| `Minixfs.EntryMeant` | finding_filesystems/minixfs.c:93-126 | an entry that fits its block is at its positions of the directory and changes no other byte of any file |
| `Minixfs.WholeEntriesFit` | finding_filesystems/minixfs.c:93-129 | while blocks and directories are made of whole entries every next entry fits its block |
| `Minixfs.FileSystem.Store` | finding_filesystems/minixfs.c:180-250 | blocks up to the end of the range, the write loop and the new size; it succeeds exactly when the file has slots and the disk has blocks enough |
| `Minixfs.FileSystem.WriteBlocks` | finding_filesystems/minixfs.c:187-238 | the loop cannot fail once the blocks are there, and writes the whole buffer |
| `Minixfs.FileSystem.Write` | finding_filesystems/minixfs.c:162-251 | it succeeds exactly when the slots and the free blocks suffice for the range, after the entry of a file to be created; the size limit never refuses more; success stores the buffer, sets the size to the larger end and moves the offset; failure leaves every byte and size but those of a file created on the way |
| `Minixfs.FileSystem.ReadBlocks` | finding_filesystems/minixfs.c:273-299 | the loop returns exactly the bytes at the positions asked for |
| `Minixfs.FileSystem.Read` | finding_filesystems/minixfs.c:253-306 | not found, end of file and directories as in the source; otherwise what is left of the file, at most the count |
| `Minixfs.WriteThenRead` | finding_filesystems/minixfs.c:162-306 | a write succeeds exactly when slots and free blocks suffice, and then reads back as the buffer; every other existing byte of every file stays whether it has room or not, and the directory of a created file holds its entry |
| `LittleEndian.DecodeEncode` | nonstop_networking/server.c:407 | a number stored as bytes reads back as itself: the length on the wire here, the header fields of the allocator's blocks there |
| `LittleEndian.EncodeAt` | nonstop_networking/server.c:407 | byte i of a stored number counts the multiples of the i-th power of 256: least significant byte first |
| `FileServer.FindNewline` | nonstop_networking/server.c:349 | the first newline, unless a zero byte comes before it; none exactly when every newline has a zero byte before it |
| `FileServer.StartsWithMeans` | nonstop_networking/server.c:323-340 | a buffer begins with a word exactly when it is long enough and its first bytes are the word |
| `FileServer.Client.ReadVerb` | nonstop_networking/server.c:323-347 | the first word decides verb, next state and offset; a buffer that begins with none of the four is a bad request |
| `FileServer.Client.ReadFilename` | nonstop_networking/server.c:348-404 | no newline is a bad request; a PUT empties the file, a DELETE removes it, a missing file is an error for GET and DELETE; no other file changes |
| `FileServer.Client.ReadSize` | nonstop_networking/server.c:405-411 | the announced size and the payload behind it |
| `FileServer.Client.ReadData` | nonstop_networking/server.c:412-471 | the file is the payload received so far and never longer than announced; too much or nothing ends in a size error and no file |
| `FileServer.Client.WriteResponse` | nonstop_networking/server.c:472-540 | an error line, a confirmation of four bytes, a listing, or a piece of the file |
| `FileServer.Client.SendGetResponse` | nonstop_networking/server.c:241-280 | the header goes out once, then the file piece by piece; complete exactly when all of it has gone out |
| `FileServer.HeaderTells` | nonstop_networking/server.c:241-262 | the header is OK and a newline, and eight bytes from which the size of the file reads back |
| `FileServer.Client.HandleClientRequest` | nonstop_networking/server.c:547-563 | one event receives at most one chunk and takes one step |
| `FileTransfers.ServePut` | nonstop_networking/server.c:322-563 | for any split of the payload a PUT ends in OK exactly when the announced size falls on the end of a chunk and no chunk after the first and before that is empty, with exactly that many first bytes stored; otherwise there is no file; no other file changes |
| `FileTransfers.ServeGet` | nonstop_networking/server.c:241-280 | a GET emits one header and exactly the file's bytes, over any number of steps, or an error when there is none |
| `FileTransfers.PutThenGet` | nonstop_networking/server.c:322-563 | what one client puts another gets: OK, the announced size in eight bytes, and that many bytes of the payload; or an error and no file |
| `FileTransfers.ServeDelete` | nonstop_networking/server.c:385-404 | a whole DELETE removes that file and no other and confirms, or answers that there is none |
| `FileTransfers.ServeList` | nonstop_networking/server.c:337-340 | a whole LIST sends one header and the listing and changes no file |
| `FileTransfers.ServeUnknown` | nonstop_networking/server.c:341-347 | a chunk that begins with none of the four words ends in the error line for a bad request, and no file changes |
| `FileTransfers.ServeUnended` | nonstop_networking/server.c:348-358 | so does a name that ends in a zero byte before any newline |

## Left out

- Allocator.Heap.Calloc: only for the split as meant; with the shipped split the heap invariant can fail in the malloc
  inside it.
- Allocator.Heap.Realloc: only for the split as meant, for the same reason.
- AllocLayout.RunKeeps: says nothing after a call that stores beyond the break or behind its block.
- BlockingQueue.NoLostWakeup: only without a bound; for every bound it is false, as `BoundedQueue.BoundLosesWakeups`
  and `BoundedQueue.UnboundedExactly` show.
- Minixfs.FileSystem.CreateFile: not for a directory whose slots are all in use, where the source reads a block number
  from behind the indirect block.
- Minixfs.WriteThenRead: the bytes around an entry that runs over the end of its block are not described;
  `WholeEntriesFit` says why none does while nobody writes to a directory.
- FileServer.FindNewline: stops at the end of the buffer; where a full buffer holds neither newline nor zero byte the
  source reads on behind it, and the model answers a bad request.
- FileServer.Client.ReadFilename: not for names longer than 255 bytes, which the source can copy beyond its buffer.
- FileServer.Client.ReadSize: not for a first chunk that ends before the eight size bytes, where the source takes
  stale bytes for the size and the count of payload bytes wraps.
- FileServer.Client.HandleClientRequest: not in these two situations either.
- Parallel make: `stack` in the topological sort is only written, so it is not modelled; a command's start and end are
  one step. A locked pass is one step too: an exiting worker puts the sentinel back without the lock, so in the source
  it can land between two rules that one pass queues, and here only before or behind all of them.
- Allocator: the unused `coalesce`, `best_fit` and `find_last`, and the `total_memory_use` counter. A refused first
  `sbrk` is an answer of its own, standing for the exit of the process. `StaleLink` works on headers alone and does
  not grow.
- MMU: permissions of segments other than their ranges, `mmu_delete`, and the values of constants of the missing
  headers other than the page geometry; `MAX_PROCESS_ID` is a parameter.
- Password search: printing of per-thread starts and results, timing, and `crypt_r`, whose outcome is a set of hits
  per user.
- Scheduler: averages are not divided out, floating point is taken as real arithmetic, and freed job records are
  dropped.
- File system: timestamps, permissions, the virtual `info` file, and how paths are looked up in directories. The
  numbers kept in an indirect block are separate from its bytes, so a shipped misaligned write that lands on an
  indirect block does not corrupt them in the model; one that lands outside the disk is lost.
- Monitors: destroying the queue, and `barrier_destroy`, which refuses a barrier that was ever used.
- Server: sockets, epoll and signals; LIST replies take the directory listing as given; files changed by another
  client during a transfer.
- The shells, clients, chat room, map-reduce, `libdrm.c`, semaphores, vectors, strings and the remaining small
  utilities: easier members or plumbing around kernel calls.
