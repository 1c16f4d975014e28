# Verified models of the xk kernel

xk is a small Unix-like kernel for x86-64 with the user programs that come with it. This project models the
parts of it whose correctness no single function shows, and proves what they promise, for every input, every
reachable state and every run:

- **Memory.** The core map with its reference counts, four-level page tables, the regions and page lists of an
  address space, program loading, `sbrk`, stack growth, copy-on-write `fork`, the page fault handler and the
  teardown of a process. The main result (`KernelRuns.PowerOn`) is about the kernel's own operations: whatever
  requests, stores and faults come, in any order, from the moment there is no process, in every state the
  hardware table of every address space says exactly what its regions say, reference counts are exact, and a
  load of any address by any process yields the byte it yields on a machine that copies every page at `fork`
  and never shares a frame, which can always go the same way if it has the frames. What each request does to
  what each process reads is also stated address by address (`Reads.RequestReads`): a store is read back at
  its address and nowhere else, a child reads what its parent does, nobody else notices. The kernel stops only
  for a stated cause. Beside it: a store to a page the process may write succeeds if one frame is available
  and `va2vregion` finds the page's region, and a process that exits returns exactly the frames nothing else
  refers to.
- **Processes and locks.** `sleep`, `wakeup`, the scheduler and sleeplocks as a machine of interleaved steps:
  mutual exclusion and no lost wakeup. `fork`, `exit`, `wait` and `kill` on the process table: pids are never
  reused, a zombie stays one until a `wait` returns its pid and no other does, and no exit is missed by a
  waiting parent, which is false of init and shown so. A process is orphaned exactly if its parent exits and
  is init, or exits when init has.
- **Pipes.** Readers, writers and closers over the shared ring: the bytes read are the bytes written, in
  order, in every interleaving; each write is contiguous in the stream; end of file is final.
- **The buffer cache.** The LRU ring with its links, and the cache as a machine of clients, disk interrupts
  and the disk queue: `bread` always yields the contents last given to the block, through any recycling.
- **The file system.** `mkfs` byte for byte, and the kernel's reader: what any absolute path leads to, and
  every file put in reads back, at any offset and length, as it was.
- **User programs.** The K&R storage allocator (Kernighan and Ritchie, The C Programming Language, 2nd
  edition, section 8.7): blocks never overlap, no unit is lost and nothing is written inside a block in use.
  The regular expression matcher of `grep` (Kernighan and Pike, The Practice of Programming, chapter 9)
  against the language of the pattern. The shell's parser: parsing undoes printing, for every tree the parser
  makes, and after in-place termination every word is the C string it was written as.

The form follows the source. What the source updates in place is a class (`CoreMap`, `PageTables`, `Vspaces`,
`Ptable`, `Bcache`, `PipeBuffer`, `Image`, `Allocator`) or an array, with methods proved against functions of
the old state. Concurrent code is a state machine whose steps are the stretches that run under a spinlock. Its
main theorems speak of runs: a sequence of states, a sequence of steps, any interleaving.

How the memory modules build on each other: `Kalloc`, `PageTable`, `Dealloc` and `X86Vm` are the frames and
the hardware tables; `CopyOnWrite` is the abstract machine of pages and frames with its refinement of eager
copying; `Regions`, `VspaceUpdate`, `VspaceState`, `Layout`, `ForkState` and `Teardown` say what an address
space is and that each change of it is an event of that machine; `Vspace` has the kernel's own operations,
each proved to have the effect of such events on what processes see; `Addresses` turns pages and the places of
regions into bytes at addresses; `Loading` gets from nothing to a running program; `MemoryRuns` is about runs
of such effects, `KernelRuns` about runs of the operations themselves, and `Reads` says what they do by
address.

Where the code and what is written about it differ, the models follow the code:

- `PGADDR` combines its indices with an or, so an index of 512 carries into the one above only when that is
  even; `deallocuvm`'s cursor then never gets past such a page. `Dealloc.LoopEndsIff` says exactly when the
  loop ends, `Dealloc.StuckTable` gives tables on which it does not, and `Layout.NeverStuck` says that it ends
  for every address space the kernel builds.
- `va2vregion` works on byte ranges and mappings are whole pages: `cowcopy` finds a region for a faulting
  address on a mapped page exactly when the address lies below the region's end (`Regions.RegionFoundIff`);
  `Layout.RegionMissed` is an address space, as the kernel lays them out, with a shared page on which it finds
  none. The answer is used unchecked, and the write fault handler crashes exactly when there is none
  (`Vspace.Vspaces.CowCopy`). In the same way `va2vpage_info` does not check its first allocation
  (`Vspace.Vspaces.Va2VpageInfo`), and a failing `vregionaddmap` from address 0 never finds its way back.
- `exit` hands its children to init without waking it, so init may be asleep in `wait` while it has a zombie
  child (`Lifecycle.InitMaySleepOnZombie`); `Lifecycle.InitMissesIff` says exactly in which runs. No other
  process ever is (`Lifecycle.NoMissedExit`).
- Nothing keeps init from exiting: `exit` has no test for it, `kill` may be aimed at it, and the init program
  exits itself when its `fork` fails. Its children then have a parent that has exited, and keep it
  (`Lifecycle.InitMayExit`); `Lifecycle.OrphansIff` says exactly in which runs somebody is orphaned.
- `vspaceupdate` frees the tables it is about to build again and panics if it cannot get them. It always can,
  unless there is a page that was not mapped before (`VspaceUpdate.NeverOut`); so the write fault handler
  never panics.

## Model

| member | source | states |
|---|---|---|
| Kalloc.CoreMap.MemInit | kernel/kalloc.c:69-93 | after start-up exactly the frames from the end of the kernel up are available, and the free and in-use counters count them |
| Kalloc.CoreMap.Kfree | kernel/kalloc.c:99-131 | drops one reference; the frame becomes available exactly with its last one; the counters stay exact; panics exactly outside the managed range |
| Kalloc.CoreMap.Kalloc | kernel/kalloc.c:181-204 | returns the lowest available frame with one reference; fails exactly when none is available |
| Kalloc.CoreMap.IncrementRefcount | kernel/kalloc.c:133-145 | one more reference and nothing else; panics exactly outside the managed range |
| Kalloc.CoreMap.MarkUserMem | kernel/kalloc.c:161-169 | changes neither counts nor availability of any frame |
| Kalloc.FreeAllDropsCounts | kernel/kalloc.c:99-131 | freeing any list of frames drops each count by the times it is listed and makes available exactly those that had no other reference |
| PageTable.PrefixOfChild | inc/mmu.h:91-97 | the four nine-bit indices of a page number are its digits: each level's index extends the prefix of the level above |
| PageTable.WalkSound | kernel/x86_64vm.c:58-100 | a walk ends at the last-level table of the very page asked for, in the very address space |
| PageTable.WalkComplete | kernel/x86_64vm.c:58-100 | if that table exists the walk finds it |
| PageTable.LinkKeepsTree | kernel/x86_64vm.c:66-98 | hanging a new table under a clear entry keeps the tables a forest in which each is reached by one path |
| PageTable.LinkKeepsEntries | kernel/x86_64vm.c:66-98 | and is invisible in the flat map from pages to entries, of every address space |
| PageTable.SetEntryAt | kernel/x86_64vm.c:106-129 | writing a last-level entry changes the flat map at exactly one page of one address space |
| PageTable.UnlinkKeepsTree | kernel/x86_64vm.c:237-266 | freeing all tables under a PML4 entry and clearing it keeps the forest |
| PageTable.UnlinkEntries | kernel/x86_64vm.c:237-266 | and clears exactly the pages under that entry |
| PageTable.RemoveRootKeepsTree | kernel/x86_64vm.c:250-266 | removing a whole address space keeps the forest of the others |
| PageTable.RemoveRootEntries | kernel/x86_64vm.c:250-266 | no entry of any other address space changes |
| Dealloc.PgAddrInRange | inc/mmu.h:99-101 | with indices below 512 the or of the shifted indices is their sum |
| Dealloc.PgAddrCarry | inc/mmu.h:99-101 | a directory index of 512 carries into the index above exactly when that is even |
| Dealloc.PgAddrValues | kernel/x86_64vm.c:162-191 | where each of the three jumps lands, for every page under the first PML4 entry |
| Dealloc.FindNextLeadsToNextPage | kernel/x86_64vm.c:162-222 | jump and increment together lead to the start of the next block that could hold a page |
| Dealloc.NextPageSkipsNothing | kernel/x86_64vm.c:162-222 | off the stuck pages the cursor moves forward and passes no mapped page |
| Dealloc.LoopEndsIff | kernel/x86_64vm.c:193-222 | the loop over a range ends if and only if no page of it is stuck: without its last-level table, in the last directory slot of an odd gigabyte that has a directory |
| Dealloc.StuckTable | kernel/x86_64vm.c:162-222 | well-formed tables with a stuck page: over no range that holds it does the loop end |
| Dealloc.NextIsAllocated | kernel/x86_64vm.c:193-222 | when a page's turn comes its frame still has a reference, however often it was released before, so kfree cannot be handed a free frame |
| X86Vm.PageTables.WalkPml4 | kernel/x86_64vm.c:58-100 | finds or makes the path to a page; the flat maps are unchanged; with allocation fails only when memory is out, without it only when the path is missing |
| X86Vm.PageTables.MapPage | kernel/x86_64vm.c:112-127 | one page: mapped with the frame and rights given, or one of the three panics, each only with its cause |
| X86Vm.PageTables.MapPages | kernel/x86_64vm.c:106-129 | the flat map of this address space changes at exactly the pages of the range and of the others nowhere; out of memory, remap and bad frame each only with their cause |
| X86Vm.PageTables.Deallocuvm | kernel/x86_64vm.c:193-222 | although it jumps over missing tables it frees exactly the frames a loop over every page would, in that order, and clears exactly those entries |
| X86Vm.PageTables.FreevmPgdir | kernel/x86_64vm.c:224-235 | frees each table under a directory once, and the directory, and nothing else |
| X86Vm.PageTables.FreevmPdpt | kernel/x86_64vm.c:237-248 | the same one level up |
| X86Vm.PageTables.ClearUser | kernel/vspace.c:286-296 | every user page below 512 GB loses its entry, no other page of any address space does, and exactly the tables for those pages are freed |
| X86Vm.PageTables.Freevm | kernel/x86_64vm.c:250-266 | releases every mapped user frame once per page and every table of the address space once, and no other; other address spaces are untouched |
| X86Vm.PageTables.NewRoot | kernel/x86_64vm.c:133-143 | a cleared PML4 on a frame that was nobody's; all else is as it was |
| CopyOnWrite.StepKeepsInv | kernel/vspace.c:475-583 | every event of any process keeps each count equal to the number of pages naming the frame, shared frames read-only, and freed frames unnamed |
| CopyOnWrite.StoreRefines | kernel/trap.c:175-214 | a store the hardware lets through is seen in one page of one process |
| CopyOnWrite.StepRefines | kernel/vspace.c:475-583 | every event changes what processes see exactly as the same event on private pages |
| CopyOnWrite.RunRefines | kernel/vspace.c:475-583 | in every state of every run counts are exact and each process sees its private memory |
| CopyOnWrite.EagerRunRefines | kernel/vspace.c:517-566 | the same of the machine that copies every page at fork |
| CopyOnWrite.EagerFollows | kernel/vspace.c:517-566 | the machine that copies at fork can go through any events that are legal for private memory and never need more pages than it has frames |
| CopyOnWrite.EagerNeeds | kernel/vspace.c:517-566 | and only through such: the condition is exact, and its number of frames never changes |
| CopyOnWrite.CowRefinesEager | kernel/vspace.c:475-583 | for every run of the sharing machine, any machine that copies at fork, shows the same at first and has a frame for every page can go through the same events, and then shows every process the same bytes and write rights |
| CopyOnWrite.EveryEagerRunAgrees | kernel/vspace.c:475-583 | and so does every run of such a machine through the same events, whatever frames each was given |
| CopyOnWrite.WriteMakesProgress | kernel/trap.c:175-214 | a process may always write a page it owns: at once, or after one fault that no process can see |
| Regions.PageIndex | kernel/vspace.c:10-21 | every page of a region, upward or downward, has its own index within the region |
| Regions.IndexPage | kernel/vspace.c:10-21 | and every index its page: the two are inverse |
| Regions.RegionFoundIff | kernel/vspace.c:405-420 | on a page used by one region the region is found if and only if the address is below the region's end |
| VspaceUpdate.RemapIsOverlap | kernel/vspace.c:298-311 | the panic for a page already mapped means two regions use it |
| VspaceUpdate.NeverOut | kernel/vspace.c:281-315 | by counting: while a page that was mapped before still lacks a table, some frame of the old tables is available |
| VspaceUpdate.Rebuild | kernel/vspace.c:281-315 | each user page's entry afterwards is what its region's info says and clear where none is in use, no page being used twice; no other entry anywhere changed; it panics only if two regions use a page, a frame is not in the core map, or memory is out and a page was not mapped before |
| VspaceUpdate.SetupKvm | kernel/x86_64vm.c:133-160 | the flat map of a new table is exactly the kernel's ranges; nobody else's entry changed; fails only if memory is out or two ranges share a page, and without a panic only before it changed anything |
| VspaceState.MapMemOk | kernel/vspace.c:79-123 | giving a cleared frame to an unused info is the Map event, keeps every invariant, and reuses no frame |
| VspaceState.UnmapMemOk | kernel/vspace.c:107-121 | taking it back is the Unmap event |
| VspaceState.ShareMemOk | kernel/vspace.c:475-513 | marking a page read-only and shared, with one more reference, is a Copy of it in every process's eyes |
| VspaceState.BreakMemOk | kernel/trap.c:175-214 | moving a shared page to its own frame changes nothing any process sees |
| VspaceState.AddedView | kernel/vspace.c:79-123 | a range of added pages is seen by the process as zeroed pages, by the others not at all |
| Layout.HeapBelowStack | kernel/proc.c:258-278 | in an up-to-date address space the heap ends at or below the stack |
| Layout.FaultBelowStack | kernel/trap.c:139-168 | below 2 GB, a page without an entry is below the stack |
| Layout.GapIsFree | kernel/vspace.c:79-123 | no page between a region's old end and its new one is in use, so growing never meets the panic for it |
| Layout.OverlapIsCollision | kernel/proc.c:258-278 | growth makes two regions use a page only where the added pages run into another region's |
| Layout.NeverStuck | kernel/x86_64vm.c:193-222 | no page of an up-to-date address space is stuck, so teardown's loop ends |
| Layout.HardwareView | kernel/vspace.c:281-315 | what the hardware yields for an address is the frame, right and bytes of that page's own info, and it faults exactly when no info is in use |
| Layout.RegionMissed | kernel/vspace.c:405-420 | a ready address space without overlaps in which no region is found for an address on a used, shared page of the heap |
| Addresses.LoadIsByte | kernel/vspace.c:281-315 | a load of any user address through the hardware table yields the byte of the page the process sees there, given where its regions lie, and faults where there is none |
| ForkState.SharedDone | kernel/vspace.c:475-513 | when all lists are shared the child has every page of the parent with the same bytes and write right, and nobody sees anything else change |
| ForkState.ForkAllClean | kernel/vspace.c:568-583 | after the two table updates every process's table is up to date |
| ForkState.HalfwaySeen | kernel/vspace.c:568-583 | at any point of the sharing, processes other than the child see what they saw before |
| Teardown.CountsOfProcess | kernel/vspace.c:389-400 | the hardware table maps a frame exactly as often as the process's infos name it |
| Teardown.ReleasableAfterLists | kernel/vspace.c:389-400 | after the lists are freed every frame still has the references teardown will drop |
| Teardown.FreedCore | kernel/x86_64vm.c:250-266 | each core map entry after teardown: tables and lists gone, data frames less the process's own references |
| Teardown.GoneInv | kernel/vspace.c:389-400 | counts are exact again |
| Teardown.GoneView | kernel/vspace.c:389-400 | the other processes see what they saw, the dead one has nothing |
| Teardown.GoneAvailable | kernel/vspace.c:389-400 | the available frames grow by exactly the process's tables, lists and data frames nobody shares |
| Teardown.GoneClean | kernel/vspace.c:389-400 | all tables left are up to date |
| Vspace.Vspaces.Va2VpageInfo | kernel/vspace.c:424-451 | the list reaches the index, or memory is out; it goes through a null pointer exactly when the list is empty and memory is out; no used info, frame or byte changes, and nothing at all if the list reached before |
| Vspace.Vspaces.VregionAddMap | kernel/vspace.c:79-123 | all or nothing: on success exactly the pages beginning in the range are newly in use and zero; on failure every used page and its bytes are as before and fewer frames are left than pages were asked for, or the range reaches the kernel; panics only on a page in use; crashes only with memory out and an empty list or a start at address 0 |
| Vspace.Vspaces.Update | kernel/vspace.c:281-315 | this process's table is brought up to date, the others' stay so, and nobody sees a difference; panics only if two regions use a page, or memory is out and a page was not mapped before |
| Vspace.Vspaces.Sbrk | kernel/proc.c:258-278 | for every n returns the old top; the heap grows by n with zeroed pages, every other region of every process lies where it did and nothing else changes for any process; fails only if too few frames are left, and then nothing changes; panics only if memory is out or the heap runs into another region; crashes only with memory out and an empty list or a heap at address 0 |
| Vspace.Vspaces.GrowStack | kernel/trap.c:139-168 | the stack then begins at the faulting page, within ten pages of its top, new pages zero, every other region of every process where it was; it declines only addresses out of that range or for lack of memory, and then nothing changes; it panics only in that range, if memory is out or another region is in the way |
| Vspace.Vspaces.Load | kernel/vspace.c:281-315 | a load through the hardware table reads the process's own byte, and faults exactly on pages not in use |
| Vspace.Vspaces.StoreUser | kernel/vspace.c:281-315 | a store goes through exactly if the page's entry is present and writable, and changes the process's own byte and no other process's; a store that faults changes nothing and tells why |
| Vspace.Vspaces.CowCopy | kernel/trap.c:175-214 | for every address invisible to every process, and no region moves; never panics; crashes exactly if no region contains the address; succeeds exactly if the page is shared and a frame is available, and then the hardware lets the store through; otherwise changes nothing |
| Vspace.Vspaces.PageFault | kernel/trap.c:80-111 | for every address and error code: on a present page it is handled exactly if it is a write to a shared page and a frame is available; on a missing one the stack grew to it, or it is out of range, not the user's, or memory is short; an unhandled fault changed nothing; it crashes exactly on a write to a present page outside every region, and panics only where the stack could not grow |
| Vspace.Vspaces.StoreInstruction | kernel/trap.c:80-111 | a store to any user address, through a fault and a retry if need be: if it succeeds the process may write the page and its own byte is all that changes, but for a stack grown to reach it; if it fails without a panic, which needs an address on no used page, nobody sees a change and no region moves; on a page the process may write it succeeds whenever one frame is available and va2vregion finds the region that uses the page |
| Vspace.Vspaces.ShareInfo | kernel/vspace.c:489-508 | one more page of the parent is seen by the child, as a copy |
| Vspace.Vspaces.ShallowCopyVpiPage | kernel/vspace.c:475-513 | the rest of a list, recursively: one more region is shared, or memory is out |
| Vspace.Vspaces.VspaceCowCopy | kernel/vspace.c:568-583 | all lists shared and both tables brought up to date, the child's regions where the parent's are and all others where they were; or memory is out, and every process but the child sees what it saw if it returns |
| Vspace.Vspaces.VspaceInit | kernel/vspace.c:53-69 | an address space without pages whose table is exactly the kernel's; nobody else is affected; fails only if memory is out or kernel ranges overlap, and changes nothing if it returns |
| Vspace.Vspaces.Fork | kernel/proc.c:126-160 | on success the child sees the parent's memory at the parent's addresses with the same write rights, no other view changes and no region moves, all tables are up to date, the child's has the kernel, and not one data frame was copied; if it returns an error every process but the unfinished child sees what it saw; it fails only if memory is out or kernel ranges overlap |
| Vspace.Vspaces.FreePageDescList | kernel/vspace.c:374-384 | frees each page of a list once, last first |
| Vspace.Vspaces.VspaceFree | kernel/vspace.c:389-400 | exactly the frames nothing else refers to become available; the others see what they saw and their tables stay up to date |
| Loading.LoadData | kernel/vspace.c:148-164 | the page loop puts exactly the bytes of the file into the pages of the segment, the rest stays zero, and no other page of any process changes |
| Loading.AddSegment | kernel/vspace.c:239-250 | one segment: all its pages with their bytes and rights, or a failure with its cause; panics only on a page already in use |
| Loading.LoadSegments | kernel/vspace.c:228-251 | the loop over the segments: every page of the program shows the segment that covers it |
| Loading.VspaceLoadCode | kernel/vspace.c:203-268 | also the code region ends with the last segment and the empty heap starts one page behind it |
| Loading.VspaceInitStack | kernel/vspace.c:589-602 | one zeroed page below the given address; fails only if memory is out |
| Loading.ProgramReady | kernel/vspace.c:170-268 | a program laid out this way has the layout that growth, faults and teardown rely on |
| Loading.ProgramApart | kernel/vspace.c:170-268 | and no two of its regions use a page |
| Loading.InitCode | kernel/proc.c:96-105 | from any kernel state, also the empty one, to one with the first process: its code at 64 KB, five zeroed pages behind it and a stack page below 2 GB, all tables up to date, nobody else affected; it stops only if memory is out or kernel ranges overlap |
| Loading.LoadProgram | kernel/exec.c:12-36 | exec's new address space: the process sees the program's segments at their addresses, an empty heap a page behind and a zeroed stack page below 2 GB; all tables are up to date, nobody else is affected; fails only with a stated cause |
| MemoryRuns.CallIsEvents | kernel/vspace.c:475-583 | the effect of a call is the effect of its page events, in which fork is one copy per page of the parent; they are legal for private memory and need no more pages on the way than before or after |
| MemoryRuns.RunIsEvents | kernel/vspace.c:475-583 | the same for runs of calls |
| MemoryRuns.CallsRefineEager | kernel/vspace.c:475-583 | in every state of any run of loading, fork, stores, faults, sbrk, stack growth and exit every process sees what one run of the eager-copying machine through the same pages shows it at that point |
| MemoryRuns.EagerExists | kernel/kalloc.c:69-93 | there is such a machine for every run that starts without pages |
| KernelRuns.Perform | kernel/trap.c:80-111 | one request of any kind on the operations themselves: it is answered by the call asked for, with its effect on the pages the processes see and on where every region lies, and leaves every table up to date and every count exact; a fault or sbrk changes nothing only for a stated reason; or the kernel stops, for a stated cause |
| KernelRuns.ServedIsCallRun | kernel/vspace.c:475-583 | what the processes see of served requests is a run of calls |
| KernelRuns.Serve | kernel/trap.c:80-111 | any sequence of requests: each is answered in the state the one before left, up to the first that stops the kernel; in every state counts are exact and tables up to date, and a load of any address by any process yields what the eager machine has there after the same calls |
| KernelRuns.PowerOn | kernel/kalloc.c:69-93 | the same from a machine without an address space, for every amount of memory: nothing is taken for granted of the first state, and there is an eager machine to compare with |
| Reads.ForkReads | kernel/proc.c:126-160 | after fork the child reads at every address what the parent reads and read, and everybody else what they read before |
| Reads.StoreReads | kernel/trap.c:80-111 | a store is read back at its address by its process, and no other load of anybody changes |
| Reads.LoadReads | kernel/vspace.c:170-268 | a new program reads its file's bytes at their addresses, zeroes behind them and in the stack's page, and faults elsewhere |
| Reads.RequestReads | kernel/trap.c:80-111 | every request, address by address: what each load of each process yields afterwards, in terms of what loads yielded before and the call alone |
| Reads.ServedReads | kernel/trap.c:80-111 | the same at every step of every run |
| PipeRing.PutAppends | kernel/file.c:447-455 | a byte put into a ring with room goes behind the others, for all positions of the wrapping offsets, and none is overwritten |
| PipeRing.DropRemovesFirst | kernel/file.c:405-411 | a byte taken is the oldest |
| PipeRing.PipeBuffer.CopyIn | kernel/file.c:447-455 | the copy loop appends as many bytes as fit, in order |
| PipeRing.PipeBuffer.CopyOut | kernel/file.c:405-411 | the copy loop removes the oldest bytes and returns them in order |
| Pipe.StepKeepsInv | kernel/file.c:350-467 | every step of every process keeps the pipe's invariant |
| Pipe.RunKeepsInv | kernel/file.c:350-467 | so it holds in all states of all runs from pipe_open |
| Pipe.AlwaysDefined | kernel/file.c:350-467 | in every reachable state no process is about to use a pipe that is gone, or an end whose descriptor is closed |
| Pipe.PipeIsFifo | kernel/file.c:376-467 | in every state, bytes returned, bytes being returned and bytes in the ring, in that order, are the bytes of finished writes and of the one in progress |
| Pipe.WritesAreComplete | kernel/file.c:418-467 | a write returns its full length unless the read end is closed, else what it wrote, or -1 if that is nothing |
| Pipe.WritesAreContiguous | kernel/file.c:418-467 | in every state of every run the stream of all bytes returned, being returned and in the ring begins with the bytes of the first k writes to finish and then, without a gap, those of the next: no other write comes in between |
| Pipe.WriteInProgress | kernel/file.c:418-467 | and what a write in progress has put in is the end of the stream |
| Pipe.StreamGrows | kernel/file.c:376-467 | the stream only grows at its end |
| Pipe.EndOfFile | kernel/file.c:376-416 | a read of some bytes returns none only when the write end is closed for good and every byte written was returned or is on its way |
| Pipe.MutualExclusion | kernel/file.c:376-467 | at most one process is in the ring, one in a read and one in a write |
| Sleeplock.StepKeepsInv | kernel/sleeplock.c:25-59 | every step of any process or the scheduler keeps the locks' and sleepers' invariant |
| Sleeplock.RunKeepsInv | kernel/sleeplock.c:25-59 | so it holds in every state of every run |
| Sleeplock.MutualExclusion | kernel/sleeplock.c:25-59 | at most one process holds a sleeplock, and the lock's fields name it |
| Sleeplock.SleeperMeansHolder | kernel/proc.c:381-429 | no wakeup is lost: with the inner spinlock free, a process asleep on the lock means another process holds it |
| ProcTable.Ptable.Allocproc | kernel/proc.c:51-67 | the first unused slot becomes EMBRYO with the next pid, which is the allocation step of Lifecycle; none changes if all are in use |
| ProcTable.Ptable.Exit | kernel/proc.c:180-201 | children become init's, the caller a zombie, and everyone waiting on its parent runnable; nothing else changes |
| ProcTable.Ptable.Wait | kernel/proc.c:205-256 | reaps the first zombie child and returns its pid, fails exactly without children, and otherwise sleeps on its own pid: the two steps of Lifecycle |
| ProcTable.Ptable.Wakeup1 | kernel/proc.c:416-422 | exactly the sleepers on the channel become runnable |
| ProcTable.Ptable.Kill | kernel/proc.c:434-450 | the first slot with the pid is marked and woken if asleep; fails exactly when there is none |
| Lifecycle.StepKeepsInv | kernel/proc.c:51-450 | every step of any process keeps the table's invariant |
| Lifecycle.RunKeepsInv | kernel/proc.c:51-450 | so it holds in every state of every run from userinit |
| Lifecycle.PidsAreFresh | kernel/proc.c:51-67 | a new pid exceeds every pid a slot ever had and every pid a wait ever returned |
| Lifecycle.PidsAreUnique | kernel/proc.c:51-67 | no two slots in use share a pid |
| Lifecycle.ZombieStays | kernel/proc.c:180-256 | a zombie never runs again: it stays one until a wait returns its pid, after which no slot in use has it |
| Lifecycle.ReapedByOneWait | kernel/proc.c:205-256 | no pid is returned by two waits |
| Lifecycle.ParentsAreAlive | kernel/proc.c:180-201 | every started process but init has a parent that has not exited, or is init; an exiting process's children become init's |
| Lifecycle.OrphanIff | kernel/proc.c:180-201 | in every state the orphans are the children of init, once init has exited, and nobody else |
| Lifecycle.OrphansIff | kernel/proc.c:180-201 | somebody is orphaned in some state of a run if and only if, at some step, a process with a started child exits that is init, or exits when init has |
| Lifecycle.InitStaysZombie | kernel/proc.c:205-256 | no wait ever reaps init: from its exit on it is a zombie |
| Lifecycle.InitMayExit | kernel/proc.c:180-201 | a reachable state in which init is a zombie and its child runs |
| Lifecycle.NoMissedExit | kernel/proc.c:180-256 | no process but init is ever asleep in wait with a zombie child |
| Lifecycle.InitMissesIff | kernel/proc.c:180-256 | init sleeps in wait with a zombie child in some state of a run if and only if, at some step, a process that is not its child exits and leaves it a zombie while it is in wait |
| Lifecycle.InitMaySleepOnZombie | kernel/proc.c:180-201 | a reachable state in which init is |
| BufferRing.UnlinkKeepsRing | kernel/bio.c:150-151 | unlinking a node leaves both link directions a ring of the others, in the same order |
| BufferRing.PushKeepsRing | kernel/bio.c:152-155 | linking it in behind the head makes it first in both directions |
| BufferRing.MoveKeepsPermutation | kernel/bio.c:140-159 | moving a buffer to the front loses and doubles none |
| BufferRing.Bcache.constructor | kernel/bio.c:61-76 | the ring holds every buffer once |
| BufferRing.Bcache.Bget | kernel/bio.c:81-111 | the cached buffer if there is one, else the least recently used that is neither referenced nor dirty, renamed and invalid; the panic exactly when there is neither |
| BufferRing.Bcache.Unref | kernel/bio.c:140-159 | drops a reference; with the last one the buffer is the most recently used, the order of the rest unchanged |
| BufferCache.StepKeepsInv | kernel/bio.c:81-159 | every step of any client or of the disk keeps the cache's invariant |
| BufferCache.RunKeepsInv | kernel/bio.c:81-159 | so it holds in every state of every run |
| BufferCache.BreadReturnsLatest | kernel/bio.c:81-136 | a client that bread returned to holds the block it asked for, valid, with the contents last given to that block, and holds it alone |
| BufferCache.DiskIsLatest | kernel/ide.c:100-159 | a block that is nowhere dirty or being changed has its latest contents on the disk |
| BufferCache.BlocksAreUnique | kernel/bio.c:81-111 | no two buffers ever hold the same block, but for block 0 of disk 0 |
| BufferCache.IdentityIsStable | kernel/bio.c:81-111 | a referenced buffer is never renamed, and the list is always every buffer once |
| BufferCache.UnrefIsEnabled | kernel/bio.c:140-159 | brelse always finds the reference it drops and the buffer's place |
| FsLayout.Le16RoundTrip | mkfs.c:64-72 | two little-endian bytes give the number back |
| FsLayout.Le32RoundTrip | mkfs.c:77-87 | four do |
| FsLayout.DinodeRoundTrip | inc/fs.h:32-45 | the 64 bytes of an inode give it back |
| FsLayout.SectorWrite | mkfs.c:454-477 | replacing part of one sector is a write into the extent at that offset and nowhere else |
| FsLayout.WriteContinues | mkfs.c:454-477 | adjacent writes are one write |
| FsLayout.InodeIsWritten | mkfs.c:340-352 | writing an inode's bytes changes that inode, no other inode and no other block |
| Mkfs.Image.constructor | mkfs.c:165-173 | a zeroed disk with the superblock's bytes in block 1 |
| Mkfs.Image.Winode | mkfs.c:340-352 | afterwards that inode decodes to what was given; every other inode and block is as it was |
| Mkfs.Image.Rinode | mkfs.c:358-369 | the inode the disk holds |
| Mkfs.Image.Ialloc | mkfs.c:396-407 | consecutive numbers, empty inodes, all built so far kept |
| Mkfs.Image.Iappend | mkfs.c:454-477 | for any length and offset the bytes land at the end of the file, the size grows by them, and nothing else changes |
| MkfsMain.LayoutOfOk | mkfs.c:101-312 | for input that fits, table, root directory and files lie one behind the other on the disk |
| MkfsMain.MakeTable | mkfs.c:191-208 | the inode table's own inode covers the blocks of all inodes to come |
| MkfsMain.MakeRoot | mkfs.c:214-227 | the root directory's inode has room for all entries to come |
| MkfsMain.MakeEntries | mkfs.c:229-250 | dot, dot-dot and the console are the first entries, and the console's inode a device |
| MkfsMain.AddFile | mkfs.c:255-301 | one more file with its inode, entry and contents; all before it intact |
| MkfsMain.AddChunks | mkfs.c:290-291 | the contents are the chunks read, joined, however the reads were cut |
| FsBitmap.Balloc | mkfs.c:414-434 | exactly the first `used` bits of the bitmap are set and no other block changes |
| FsBitmap.BlockBit | kernel/fs.c:60-107 | a block's bit, addressed as the kernel does, is set if and only if mkfs used the block |
| FsBitmap.Build | mkfs.c:101-315 | for all files that fit, the finished image: superblock, bitmap, table, directory and every file's bytes |
| FsRead.Readi | kernel/fs.c:337-362 | the block loop returns the slice of the file, cut at its end, or -1 past it or on overflow |
| FsRead.NamecmpIsEquality | kernel/fs.c:393 | comparing stored names is equality of the first 14 bytes, whatever follows a terminator |
| FsRead.Dirlookup | kernel/fs.c:401-423 | the first entry with the name |
| FsRead.Skipelem | kernel/fs.c:439-460 | the first element of a path and the rest, slashes removed |
| FsRead.Namei | kernel/fs.c:466-512 | the loop of namex finds what resolving the path element by element gives, whatever the name buffer held |
| FsRead.LookupRoot | kernel/fs.c:401-423 | in a finished image a lookup finds the entry of that name if and only if there is one |
| FsRead.RoundTrip | mkfs.c:101-315 | a file put in by mkfs is found at "/name" by the kernel if and only if no entry before it has the same first 14 bytes, and reads back as its slice at every offset and length |
| FsRead.UnknownName | kernel/fs.c:466-512 | a name not put in is not found |
| FsRead.PathMeaning | kernel/fs.c:466-512 | for every absolute path: without elements it is the root; if all elements before the last are dots the last is looked up in the root; otherwise nothing is found |
| FsRead.ExtentsAreDisjoint | mkfs.c:101-315 | table, root directory and files occupy disjoint extents behind the bitmap, on the disk and large enough |
| FsRead.SuperblockReadsBack | kernel/fs.c:29-35 | the kernel's superblock fields are where mkfs put the bitmap and the table |
| FsRead.DinodeReadsBack | kernel/fs.c:187-197 | reading the inode table as a file at an inode's offset gives that inode |
| HeapRing.BlocksAreDisjoint | user/lib/umalloc.c:24-85 | no two blocks, free or handed out, overlap |
| HeapRing.InsertKeepsHeap | user/lib/umalloc.c:24-42 | linking a block in at its address keeps the list sorted and every other block |
| HeapRing.MergeKeepsHeap | user/lib/umalloc.c:31-40 | joining two touching free blocks loses no unit |
| HeapRing.TakeKeepsHeap | user/lib/umalloc.c:72-73 | unlinking an exact fit keeps the rest |
| HeapRing.SplitKeepsHeap | user/lib/umalloc.c:74-78 | cutting off the tail keeps every unit and every other block |
| HeapRing.ObtainKeepsHeap | user/lib/umalloc.c:44-58 | new units from sbrk join the heap as a block of their own |
| Umalloc.FreeKeepsHeap | user/lib/umalloc.c:24-42 | freeing keeps the list sorted, linked and fully coalesced, every unit and every other block |
| Umalloc.StopsAtPlace | user/lib/umalloc.c:28-30 | the search's test holds at the block's place in the circular list and nowhere else |
| Umalloc.Allocator.Free | user/lib/umalloc.c:24-42 | the block is free again, joined with what it touches; no unit is lost, no other block changes, and nothing is written inside one |
| Umalloc.Allocator.Morecore | user/lib/umalloc.c:44-58 | after success there is a free block large enough; the units grow by exactly those obtained |
| Umalloc.Allocator.Malloc | user/lib/umalloc.c:60-85 | one new block, large enough and overlapping none, everything else as it was and nothing written inside a live block; asks for more memory exactly when no free block is large enough, and null exactly when that fails too |
| Umalloc.Allocator.TakeFrom | user/lib/umalloc.c:71-81 | a free block large enough yields the block asked for, whole or its tail |
| Grep.Match | user/grep.c:68-76 | true if and only if some part of the text, at its start if anchored by ^, is in the language of the pattern |
| Grep.Matchhere | user/grep.c:79-89 | true if and only if a prefix of the text, all of it if anchored by $, is in the language |
| Grep.Matchstar | user/grep.c:92-98 | true if and only if some number of repetitions and then the rest fit |
| Grep.OnePattern | user/grep.c:79-89 | the language of a pattern beginning with a character or dot |
| Grep.StarPattern | user/grep.c:92-98 | the language of a pattern beginning with a repetition |
| Grep.AnchorIsLastDollar | user/grep.c:79-89 | a pattern is anchored at the end if and only if its last character is a dollar, after a star as well; what is before reads as characters and repetitions, a star in front and any other dollar being ordinary characters |
| ShellParser.Gettoken | user/sh.c:262-303 | the cursor version returns the token and rest the grammar says |
| ShellParser.PeekAt | user/sh.c:305-313 | moves over exactly the spaces and looks at the next character |
| ShellParser.Parseredirs | user/sh.c:361-383 | the redirections that follow, the tree around the command built outward |
| ShellParser.Parseexec | user/sh.c:401-434 | a simple command or block with its redirections, or a panic, as the grammar says |
| ShellParser.Parseblock | user/sh.c:385-399 | a line in parentheses and the redirections behind it |
| ShellParser.Parsepipe | user/sh.c:350-359 | pipes nest to the right |
| ShellParser.Parseline | user/sh.c:335-348 | & applies to what is before it, semicolons nest to the right |
| ShellParser.Parsecmd | user/sh.c:320-333 | the whole line is consumed or it is a panic |
| ShellPrint.LineParse | user/sh.c:262-434 | a printed tree, before anything that can close a line, parses to itself and exactly its text is consumed |
| ShellPrint.ParseUndoesPrint | user/sh.c:262-434 | printing any tree and parsing it gives the tree back |
| ShellPrint.ParsePrintParse | user/sh.c:262-434 | for every accepted input: the tree can be printed, and what is printed parses to the same tree |
| ShellWords.ParsedWordsArePlaced | user/sh.c:262-434 | every word of every successful parse is a whole word of the input, followed by a separator or the end |
| ShellWords.Nulterminate | user/sh.c:437-481 | exactly the characters behind the words become NUL |
| ShellWords.WordsAreStrings | user/sh.c:437-481 | afterwards every word, read as a C string at its place, is its token: no termination cuts another word |
| ShellWords.ParseInPlace | user/sh.c:320-333 | parsecmd as a whole, for every NUL-terminated input |

## Left out

- Boot, the console, interrupts other than the page fault, the system call wrappers and the descriptor table outside pipes: no property that spans operations.
- The TLB, `lcr3` and multiple CPUs seeing stale entries: the hardware is taken to walk the current table.
- Page frames and pages are numbers, not byte addresses; kernel addresses are taken modulo 2^48, as Intel's Software Developer's Manual, volume 3A, section 4.5 reads them.
- Loading.LoadProgram: program headers are in ascending order, as the System V ABI, chapter 5, "Program Header", requires of loadable segments, none on a page of another, and end at least eleven pages below 2 GB; the ELF header's checks, reading the file, whose bytes are given, and the arguments `exec` puts on the stack are left out.
- Loading.VspaceLoadCode: the same.
- Loading.InitCode: the initial program ends at least eleven pages below 2 GB.
- Loading.VspaceInitStack: takes a page-aligned address, as its caller passes.
- `present` is always set in an info that is in use; `vspacemarknotpresent` and swapping are not modelled.
- What becomes of an address space a failed `fork` or `exec` leaves behind: `fork` never frees it, `exec` does, and a run of `KernelRuns` ends there.
- `vspacecopy`, which `fork` no longer calls, is modelled as the eager machine's copy of one page at a time.
- Regions.IndexPage: indices are not truncated to 32 bits, which cannot happen below 2 GB.
- Vspace.Vspaces.VregionAddMap: takes a range that lies on one side of the region's base, as all callers pass.
- KernelRuns.Perform: the steps of `fork` and `exit` outside memory are those of `Lifecycle`; which requests come is up to the processes, so there is no scheduler in it.
- Pipe: calls on the wrong end, and liveness; a reader that takes part of a full ring does not wake the writer until the ring is empty, so only safety is stated. A sleeper may wake at any time, which covers every wakeup the code does. A process that takes the pipe's lock twice is a panic and ends the run.
- Sleeplock: taking a spinlock is one step; the interrupt nesting of pushcli and popcli is not modelled.
- Lifecycle: pids are unbounded, so the wrap-around of a 32-bit counter is left out; a pid used as a channel equals no kernel address.
- BufferCache: claims are for every block but block 0 of disk 0, which all untouched buffers name; the disk queue is a sequence and not links; clients change a buffer only while they hold it and mark it before releasing; the crash injection of `crashn` is left out.
- MkfsMain.AddFile: the prefix and leading underscore of file names are taken to be stripped already.
- FsRead.RoundTrip: at most 65533 files, the range of a 16-bit inode number, whose names have no slash or NUL.
- FsRead.PathMeaning: for names that differ in their first 14 bytes.
- FsRead.Readi: device files are left out; an inode is read from the disk and not through the inode cache of `iget` and `locki`.
- FsRead.Dirlookup: called on a directory whose size is a whole number of entries; on others the code panics.
- FsRead.Namei: absolute paths; a relative one starts at the current directory, and `nameiparent` is left out.
- `writei` writes only to devices in this version, and there is no journal: nothing to state.
- Umalloc.Allocator.Malloc: addresses are in 16-byte units, `base` lies below the heap, requests are below 2^31 bytes, and of the bytes inside a block only that no header is written there is stated.
- The shell's `runcmd`, running out of memory while parsing, and the difference between `>` and `>>`, which give the same tree. Parseargs' node is built when its loop ends, not filled while already wrapped.
- The loop of `grep` that cuts its input into lines.
