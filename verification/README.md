# Checkpoint and restore, verified

A Dafny model of the parts of CRIU 3.15, and of TransProc's multi-threaded tracer, that are hard to get right, with
proofs about whole runs of them. `dafny verify dfyconfig.toml` checks everything.

Concurrent protocols are state machines: a state holds what is shared and where every participant stands, a step is one
shared access or one system call, and a run is any interleaving. Sequential code that works by updating things is a
class or a method with loops. Pages, bytes, kernel objects and the answers of system calls are explicit; what the kernel
may choose freely (where `mmap` puts a region, how a transfer is cut, who runs next, how a red-black tree is balanced)
is a parameter, and the results hold for every choice.

| files | what they model |
|---|---|
| `FdRestore*.dfy` | parallel restore of descriptors: masters, peers, message queues with and without bounds, event bits, plain files and epolls |
| `Cow*.dfy` | private memory down a tree of forks: links, premapping, the content pass, dropping |
| `Tracer*.dfy` | tracer threads that bring all threads of a process to their return addresses, on the bytes of its text |
| `Stage*.dfy` | restore stages: criu, the root task, tasks, threads, zombies and helpers around one counter, and the futex calls below |
| `SearchTree.dfy`, `KcmpIds.dfy`, `FileIds.dfy`, `FileIdRuns.dfy`, `FileIdServe.dfy` | identity of kernel objects and file IDs |
| `RestorerHint.dfy` | the place of the restorer blob |
| `GhostChunks.dfy` | sparse contents of ghost files |
| `BfdSpec.dfy`, `Bfd.dfy`, `BfdPool.dfy` | buffered streams and the buffers they share |
| `PagemapCache.dfy` | the cache of `/proc/pid/pagemap` |
| `PageEmission.dfy`, `PageParents.dfy` | which pages of an area go into the page pipe, and chains of incremental dumps |
| `DescriptorLog.dfy`, `FilemapCtx.dfy` | descriptors shared by file mappings |
| `EpollOffsets.dfy` | offsets of duplicate epoll targets |
| `Bitmap.dfy` | runs of bits in a bitmap |

## Where the code does less than one might expect

Seven properties do not hold as one would first state them; each has a lemma with an input that shows it and a lemma that
says exactly when the property holds.

- An area inherited copy-on-write shows, where the images list no page, what its first ancestor mapped. The file offset
  is not among the things `check_cow_vmas` compares, so that is the area's own mapping exactly when the offsets agree
  (`CowChain.OwnBackingIff`, `CowChain.OffsetIsNotCompared`).
- `prepare_cow_vmas_for` steps over an area that coincides with one of the parent unless some area of the parent starts
  at or after the preceding area and before this one (`CowLinks.PrepareCowVmasFor`, `CowLinks.CoincidingPairSteppedOver`).
  Nothing but sharing is lost.
- File IDs are cut to 32 bits, and only the tree checks for zero. IDs are told apart exactly while no more than 2^32
  numbers are drawn (`FileIdRuns.ApartIffFewEnough`, `FileIdRuns.TooManyCollide`).
- The cache of file IDs keeps devices in 32 bits, so files on different devices can share a special ID. Special requests
  share one exactly as the fields say, the device taken modulo 2^32 on the side of the cache
  (`FileIdRuns.SpecialByFields`, `FileIdRuns.WideDeviceShares`).
- A page left as a hole to the parent images is in them whatever modes of pre-dump follow one another, unless the parent
  was a pre-dump by read of an area that could not be read then and can be read now
  (`PageParents.HoleInParentIff`, `PageParents.MadeReadable`).
- `restorer_get_vma_hint` forgets the last area of a list once the block does not fit below it. The place it finds is
  free, whatever is asked for, exactly when no address below the end of the address space lies in a last area only
  (`RestorerHint.HintIsFreeIff`, `RestorerHint.HintRunsIntoLastArea`).
- Nothing makes the tracer's main thread wait for all tracees before it removes the trap. One that is still running then
  may be stopped by the breakpoint another thread has in the shared text, and its return address is read from whatever
  frame it is in. The process is sure to be suspended with all threads at the return addresses of the calls that run into
  the trap exactly when all have run into it by then (`TracerLate.OwnReturnsIff`, `TracerLate.SecondThreadElsewhere`).

Further places where the code is followed rather than what its surroundings suggest: the munmap of an older premapped
region in `prepare_mappings` is never reached, because the address it tests is only set there; a premap with `pieok`
looks at the first pagemap entry without asking whether there is one, which is a failure of the task in
`CowPremap.EntryThere`; `copy_chunk_to_file` repeats a transfer that moves nothing, so a truncated image makes it spin;
`bflush` keeps what a short write has already put into the file; and `fd_id_generate` never looks in the cache, so a
special ID for a file and the ID of the object behind it agree only if the object came first
(`FileIdRuns.ObjectThenSpecial`, `FileIdRuns.SpecialThenObject`).

## Model

| member | source | states |
|---|---|---|
| `FdRestoreDelivery.StepInv` | criu-3.15/criu/files.c:990-1251 | Every step of every task keeps the invariant of the protocol: who may hold which message, which bit or sleeper answers for it, and what is planted where. |
| `FdRestoreTheorems.SleeperMissesNothing` | criu-3.15/criu/files.c:187-215 | No lost wakeup: when a task sleeps with its bit clear, any descriptor that is queued for it, or received and not restored, is one whose sender is still between sending it and setting the bit. |
| `FdRestoreTheorems.SleeperIsWoken` | criu-3.15/criu/files.c:187-200 | A sleeper whose bit is set has someone about to call futex_wake for it. |
| `FdRestoreTheorems.AllReady` | criu-3.15/criu/eventpoll.c:394-413 | If only opened epolls are left on a task's list, no watched descriptor is found not ready. |
| `FdRestoreEpoll.FinishedIffReady` | criu-3.15/criu/eventpoll.c:394-445 | A look at an opened epoll finishes it if and only if every descriptor it watches is restored, or is an epoll that is open. |
| `FdRestoreEpoll.FinishedWhenReady` | criu-3.15/criu/eventpoll.c:394-445 | Whatever step of whatever run restores an epoll, all it watches is restored, or open if it is an epoll, and in the descriptor table of the task. |
| `FdRestoreTheorems.NoDeadlock` | criu-3.15/criu/files.c:1197-1238 | In every state of every interleaving with plain files and epolls, all tasks are done or one can move, as long as queues have room; bounded queues are below. |
| `FdRestoreTheorems.NoBug` | criu-3.15/criu/files.c:990-1166 | No BUG_ON on `received` or `stage` fires, no unexpected entry is received, and no list is left over, in any run. |
| `FdRestoreTheorems.NothingUnexpected` | criu-3.15/criu/files.c:990-1166 | What those checks test, in every state of every run: an entry a task comes to is not restored, one to be received or opened is untouched, a received message is for a listed entry and the first for it, and a task leaves the loop with nothing listed. |
| `FdRestoreTheorems.PlantedOnce` | criu-3.15/criu/files.c:990-1127 | No entry is planted twice; a task that leaves the loop has every entry restored, planted once, with the file its own master opened, and its fake entries closed. |
| `FdRestoreTheorems.StagesOnlyRise` | criu-3.15/criu/files.c:1108-1166 | Over any stretch of a run stages only rise and an opened file stays the same file. |
| `FdRestoreTermination.StepLowers` | criu-3.15/criu/files.c:1197-1251 | Every step of any task lowers a measure: passes are paid for by progress or by wakeups still to come. |
| `FdRestoreTermination.RunsEnd` | criu-3.15/criu/files.c:1197-1251 | Every run, however scheduled, has a bounded number of steps. |
| `FdRestoreTermination.MaximalRunsRestoreEverything` | criu-3.15/criu/files.c:1197-1251 | A run that cannot go on has restored the whole descriptor table of every task. |
| `FdRestoreCapacity.CollectDescFle` | criu-3.15/criu/files.c:803-811 | The new user of a file goes behind all users of the same or an earlier task, which keeps users in the order of tasks. |
| `FdRestoreCapacity.NeverStuck` | criu-3.15/criu/files.c:1025-1039 | With receive queues of any capacity of at least one and users in the order of tasks, all tasks are done or one can move: the last task that waits for room waits for one that does not. |
| `FdRestoreCapacity.BoundedRunsRestoreEverything` | criu-3.15/criu/files.c:1025-1251 | Every such run is bounded, and one that cannot go on has restored every descriptor table. |
| `FdRestoreCapacity.UnorderedUsersDeadlock` | criu-3.15/criu/files.c:803-824 | Without that order two tasks can wait for room in each other's queues for ever. |
| `CowLinks.LinkPair` | criu-3.15/criu/mem.c:781-785 | Comparing one pair keeps the exact description of all links made and marks set so far. |
| `CowLinks.SteppedOver` | criu-3.15/criu/mem.c:787-792 | An area that starts no later than the parent's current area is not one the walk stops at. |
| `CowLinks.NextChild` | criu-3.15/criu/mem.c:787-792 | The areas passed over are exactly left without link, and the walk stops at the next one for the stated reason. |
| `CowLinks.NextParent` | criu-3.15/criu/mem.c:794-799 | If the parent's list ends, no remaining area of the child coincides with anything. |
| `CowLinks.PrepareCowVmasFor` | criu-3.15/criu/mem.c:773-801 | An area is linked to an area of the parent if and only if the two coincide and the walk stops at it; the parent's areas become COW roots exactly if linked to and unmarked. |
| `CowLinks.CoincidingPairSteppedOver` | criu-3.15/criu/mem.c:773-801 | A coinciding pair that the walk leaves without link. |
| `CowTree.PrepareCowVmas` | criu-3.15/criu/mem.c:803-835 | Over a whole tree of tasks, an area inherits from an area of the parent if and only if both tasks run the same executable, the areas coincide in all that is compared and the walk stops there; an area that does not inherit is a COW root if and only if some child inherits from it. |
| `CowTree.TreeLinksAreValid` | criu-3.15/criu/mem.c:739-835 | In the end, after all children of every parent, each link joins areas with equal bounds that may share pages, its target is marked, and no two links of a task go to one area. |
| `CowMemory.Moved` | criu-3.15/criu/mem.c:893-912 | mremap: every private page of the area appears at the new place, none stays, and nothing else changes. |
| `CowPremap.CheckWrite` | criu-3.15/criu/mem.c:1006-1012 | An area is marked as not written if and only if some pagemap entry ends behind its start and each such entry starts behind its end; the reader stays where the next area may go on. |
| `CowPremap.OwnStep` | criu-3.15/criu/mem.c:856-892 | Mapping an area of its own keeps the layout: disjoint areas, one after the other, inside the reserved size. |
| `CowPremap.InheritedStep` | criu-3.15/criu/mem.c:893-912 | Moving the parent's mapping keeps the layout, brings exactly the parent's private pages and leaves those of other areas. |
| `CowRestore.AddressSpace.PremapPrivateVma` | criu-3.15/criu/mem.c:837-930 | The area gets the next place in the region, shows what it is to show, and has the parent's private pages or none. |
| `CowRestore.AddressSpace.PremapPrivVmas` | criu-3.15/criu/mem.c:974-1026 | Succeeds if and only if the areas do not descend and the pagemap has an entry if it is looked at; then exactly the chosen areas are mapped, disjoint and within rst_priv_size, and exactly those left to the restorer and seen not to be written are marked. |
| `CowRestore.AddressSpace.FindVma` | criu-3.15/criu/mem.c:1077-1094 | Finds the private area that holds the address, or there is none. |
| `CowRestore.AddressSpace.RestoreInherited` | criu-3.15/criu/mem.c:1128-1145 | An inherited page then holds the image page, is marked, and is no longer one the parent alone has. |
| `CowRestore.AddressSpace.RestoreFresh` | criu-3.15/criu/mem.c:1146-1169 | A run of pages of an area of its own holds the image pages and is marked. |
| `CowRestore.AddressSpace.Enqueue` | criu-3.15/criu/mem.c:1096-1118 | Pages of an area left to the restorer are listed for it and nothing mapped changes. |
| `CowRestore.AddressSpace.RestoreSome` | criu-3.15/criu/mem.c:1096-1169 | Whichever way a page goes, the pass has come further in the same image; an area marked as not written is not met. |
| `CowRestore.AddressSpace.RestoreEntry` | criu-3.15/criu/mem.c:1056-1170 | All pages of a pagemap entry are restored across any number of areas, or one of them lies outside all private areas. |
| `CowRestore.AddressSpace.RestorePages` | criu-3.15/criu/mem.c:1048-1172 | After the loop every listed page is where it belongs, or a listed page lies outside all private areas. |
| `CowRestore.AddressSpace.DropUnshared` | criu-3.15/criu/mem.c:1190-1206 | Exactly the pages still set in the parent's bitmap are dropped from the area. |
| `CowRestore.AddressSpace.RestorePrivVmaContent` | criu-3.15/criu/mem.c:1028-1224 | Succeeds if and only if every listed page lies in a private area; then listed pages show their contents and are the set bits, all others have no private page left, the restorer's list is exact, and inherited pages are written only if they differ from the parent's. |
| `CowSharing.InheritedCopy` | criu-3.15/criu/mem.c:1128-1145 | Comparing one inherited page keeps the exact account of which pages are written. |
| `CowSharing.CopiesKeepShared` | criu-3.15/criu/mem.c:1120-1146 | After the whole pass a page of an inherited area has been written if and only if the images list it with a content other than the parent shows there; every other page is still shared with the parent. |
| `CowImages.NothingToReserveIff` | criu-3.15/criu/mem.c:1258-1285 | The reserved size is zero if and only if no private area has a page. |
| `CowImages.PremappedIff` | criu-3.15/criu/mem.c:932-1003 | A private area is premapped if and only if it is inherited or inherited from, or the pages cannot be restored in place, or it grows down and another area ends where it starts. |
| `CowImages.PagesAreThere` | criu-3.15/criu/mem.c:1048-1172 | A page of a pagemap entry that is not left to the lazy-pages daemon shows its image content if its area is premapped, and is queued for the restorer if not. |
| `CowImages.OthersAreUntouched` | criu-3.15/criu/mem.c:1190-1206 | A page no such entry holds has no private copy in a restored task. |
| `CowImages.QueuedAreHeld` | criu-3.15/criu/mem.c:1096-1118 | What is queued for the restorer is held by such an entry, with its content. |
| `CowRestore.AddressSpace.PrepareMappings` | criu-3.15/criu/mem.c:1258-1330 | Premap and content pass together, with the exact conditions of success, from any state a parent can hand down. |
| `CowForks.RestoreTask` | criu-3.15/criu/cr-restore.c:1743-1774 | A task forked from a restored one is restored if and only if its images allow it, shares with it every page that is the same, and can be forked from in turn. |
| `CowForks.RestoreChain` | criu-3.15/criu/mem.c:1258-1330 | Over any fork depth: every task is restored, or some task of the chain has images that do not allow it. |
| `CowChain.BranchIsSound` | criu-3.15/criu/mem.c:803-835 | Every branch of a tree, with the links prepare_cow_vmas makes, meets what the restore of a chain needs. |
| `CowForks.RestoreBranch` | criu-3.15/criu/mem.c:803-1330 | Links for a whole tree and then any task of it with all its ancestors: restored if and only if the images of each of them allow it. |
| `CowChain.RestoredShows` | criu-3.15/criu/mem.c:1028-1207 | A reader sees the image page where one is listed and otherwise the backing of the first ancestor's mapping: no page of a parent leaks. |
| `CowChain.RootCoincides` | criu-3.15/criu/mem.c:739-766 | An area and the one its first ancestor mapped have the same bounds, kind, file and growth, and both are private. |
| `CowChain.OwnBackingIff` | criu-3.15/criu/mem.c:739-766 | Untouched pages show the area's own backing for all file contents if and only if it is anonymous or the offsets agree. |
| `CowChain.OffsetIsNotCompared` | criu-3.15/criu/mem.c:739-766 | Two tasks, both restorable with the links prepare_cow_vmas makes, where in every restored state a reader of an untouched page sees the wrong page of the file. |
| `TracerText.PokeBack` | tools/tracer.c:345-356 | Writing back the word that was read undoes any write of that word. |
| `TracerText.NopOnly` | tools/tracer.c:327-340 | Removing the trap changes the trap instruction to a NOP and no other byte, on both machines. |
| `TracerText.BreakInPlace` | tools/tracer.c:306-321 | A breakpoint stands at its address, keeps every byte outside its word, and zeroes the upper half of the word. |
| `TracerInvariant.ThreadStepInv` | tools/tracer.c:378-564 | Every step of a tracer thread keeps the invariant on lock, flag, counter, registers and the bytes of the text. |
| `TracerInvariant.TraceeStepInv` | tools/tracer.c:438-464 | So does a tracee that runs into the trap, its own breakpoint or, while it still runs freely, the live breakpoint of another thread. |
| `TracerTheorems.SuspendedAtReturnAddresses` | tools/tracer.c:532-561 | When the process is suspended, every tracee stands at the return address its own thread read, however it was stopped first; the text is the original but for the NOP, and the indicator is restored. |
| `TracerTheorems.OneLiveBreakpoint` | tools/tracer.c:503-530 | At most one injected breakpoint is in the text, that of the holder of the lock; otherwise the text is the original with trap or NOP. |
| `TracerTheorems.StopsAtInstruction` | tools/tracer.c:438-466 | A tracee is stopped only by a trap instruction in the text, and stands behind its one byte on x86 and at it on ARM. |
| `TracerTheorems.BreakpointArmed` | tools/tracer.c:504-515 | A tracee let go has its own breakpoint in place as long as it runs, and no other is in the text. |
| `TracerTheorems.NoRaces` | tools/tracer.c:468-552 | In any run the flag, the counter and the words of breakpoints are read and written only by the thread that holds the lock. |
| `TracerTheorems.NobodyMissesTheFlag` | tools/tracer.c:483-494 | Once the flag is up it stays up until every thread has left its first loop. |
| `TracerTheorems.NoEarlyExit` | tools/tracer.c:542-552 | No thread but the main one exits before the process is suspended. |
| `TracerTheorems.TrappedAtOwnReturn` | tools/tracer.c:438-466 | A tracee stopped by the time the trap is removed is suspended at the return address of the call that ran into the trap. |
| `TracerLate.LateTraceeAnywhere` | tools/tracer.c:438-561 | From every state in which the trap is about to go and a tracee still runs freely, there is a run that suspends the process with that tracee at any address of the text. |
| `TracerLate.OwnReturnsIff` | tools/tracer.c:466-486 | All runs from the removal of the trap suspend every tracee at its own return address if and only if none runs freely then. |
| `TracerLate.SecondThreadElsewhere` | tools/tracer.c:438-561 | A run of a process with several threads that ends with the second one at any chosen address. |
| `TracerProgress.NoDeadlock` | tools/tracer.c:378-564 | If all tracees have been stopped once, someone can take a useful step, or the holder of the lock can end a look in vain, until all threads have exited. |
| `TracerProgress.UsefulStepsBounded` | tools/tracer.c:378-564 | However long threads spin, a run has a bounded number of steps that are not in vain. |
| `TracerProgress.FairRunsEnd` | tools/tracer.c:489-548 | If a useful step comes at least once in b steps, the run ends within b times that bound. |
| `TracerProgress.CanFinish` | tools/tracer.c:378-564 | From every state with all tracees stopped once, a bounded number of steps leads to the suspended process with all threads gone. |
| `StageInvariant.CountFresh` | criu-3.15/criu/cr-restore.c:131-150 | The number stage_participants gives is the number of parts that are to finish the stage, whenever nobody has. |
| `StageInvariant.RootStepInv` | criu-3.15/criu/cr-restore.c:1930-1946 | The root task's waits, counts and switches keep the counter exact. |
| `StageInvariant.CriuStepInv` | criu-3.15/criu/cr-restore.c:2243-2411 | criu's waits, counts and switches keep the counter exact. |
| `StageInvariant.PartStepInv` | criu-3.15/criu/cr-restore.c:1194-1238 | A part leaves the counter exactly when it decrements it. |
| `StageTheorems.RestoreAfterForking` | criu-3.15/criu/cr-restore.c:1930-1949 | No part begins to restore before every process, even one not forked yet, has finished FORKING. |
| `StageTheorems.CriuAfterRestore` | criu-3.15/criu/cr-restore.c:2321-2345 | criu passes its wait only after every thread, zombie and helper has finished RESTORE. |
| `StageTheorems.RootAfterOthers` | criu-3.15/criu/cr-restore.c:3505-3508 | The root task goes on only after everyone but its own threads has finished RESTORE. |
| `StageTheorems.LaterStages` | criu-3.15/criu/cr-restore.c:2343-2411 | The same for the later stages of all living threads. |
| `StageChildren.ChildrenDieFirst` | criu-3.15/criu/pie/restorer.c:1859-1864 | In any run a process is past its wait for children only when every zombie and helper below it is dead. |
| `StageChildren.AllDeadBeforeCreds` | criu-3.15/criu/cr-restore.c:2343-2399 | So criu goes on to the stage of credentials only when every zombie and helper of the tree is dead. |
| `StageTheorems.NoChildDiesEarly` | criu-3.15/criu/cr-restore.c:1219-1230 | A waiting parent never finds a dead child while the stage is still RESTORE. |
| `StageTheorems.CounterIsExact` | criu-3.15/criu/cr-restore.c:203-216 | The reused counter always is the number of parts still to finish the stage it was set for. |
| `StageTheorems.NeverStuck` | criu-3.15/criu/cr-restore.c:172-232 | Until criu has finished and every part is over, something can happen; that nobody sleeps through it is stated below. |
| `StageTheorems.RunsEnd` | criu-3.15/criu/cr-restore.c:2243-2411 | Every run is bounded in the number of tasks and threads. |
| `StageTheorems.MaximalRunsComplete` | criu-3.15/criu/cr-restore.c:2243-2411 | A run that cannot go on has completed the restore, with zombies and helpers dead. |
| `StageWords.WaitsOnStageIff` | criu-3.15/criu/cr-restore.c:172-232 | A part waits on the stage word exactly where there are two stages of which one lets it go on and one does not. |
| `StageWords.WaitsOnCounterIff` | criu-3.15/criu/cr-restore.c:172-232 | The same for the counter. |
| `StageWords.WaitSleeps` | criu-3.15/include/common/lock.h:53-134 | Whoever cannot go on for the sake of a word reads it and goes to sleep unless it changes in between. |
| `StageWords.WakesOnlyChanges` | criu-3.15/include/common/lock.h:53-134 | Nobody wakes a word it has not changed. |
| `StageWords.WokenByOwnWord` | criu-3.15/include/common/lock.h:53-134 | A sleeper is woken only by a call for the word it waits on. |
| `StageWords.OnlyTasksSpawn` | criu-3.15/criu/pie/restorer.c:1771-1840 | In any run only living processes make further threads, never zombies, helpers or other threads. |
| `StageWakeups.EndOfWaitWakes` | criu-3.15/criu/cr-restore.c:203-232 | A step that ends a wait on the counter or the stage is one that wakes that word; the switches without a wake end no wait. |
| `StageWakeups.NoLostWakeup` | criu-3.15/include/common/lock.h:53-134 | With read, FUTEX_WAIT and FUTEX_WAKE as separate steps: whoever sleeps on a word whose value lets it pass has someone about to wake that word. |
| `StageWakeups.StagesRun` | criu-3.15/criu/cr-restore.c:172-232 | The stages below any run of futex calls go through a run of the stages, so all of the above holds in it. |
| `StageWakeups.FRunsEnd` | criu-3.15/criu/cr-restore.c:172-232 | Every run of futex calls is bounded. |
| `StageWakeups.FMaximalRunsComplete` | criu-3.15/criu/cr-restore.c:2243-2411 | One that cannot go on has completed the restore. |
| `SearchTree.LinkOrder` | criu-3.15/criu/kcmp-ids.c:87-125 | Linking a node where the search ended puts it at its place in the order. |
| `SearchTree.ReplaceOrder` | criu-3.15/criu/kcmp-ids.c:87-125 | Growing the subtree below a node changes that node and no other in the order. |
| `KcmpIds.KidTree.SearchSub` | criu-3.15/criu/kcmp-ids.c:98-116 | Finds the entry of the same object, or none has it, unless a comparison fails. |
| `KcmpIds.KidTree.SearchGen` | criu-3.15/criu/kcmp-ids.c:136-147 | Finds the group of the genid, or there is none. |
| `KcmpIds.KidTree.Generate` | criu-3.15/criu/kcmp-ids.c:127-155 | Both levels stay ordered under any balancing; a known object gets its ID and nothing changes, a new one the next number and one new entry; failures of this request change nothing; the BUG_ON is met exactly on a truncated zero. |
| `KcmpIds.KidTree.LookupEpollTfd` | criu-3.15/criu/kcmp-ids.c:189-208 | Finds the known element behind an epoll slot if and only if there is one. |
| `FileIds.BucketSuffices` | criu-3.15/criu/file-ids.c:61-74 | Looking through one hash chain finds what looking through everything cached would. |
| `FileIds.FindsWhatWasCached` | criu-3.15/criu/file-ids.c:43-74 | A cached file is found again if its device number fits 32 bits, and never otherwise. |
| `FileIds.LatestByFields` | criu-3.15/criu/file-ids.c:43-74 | What is found for a file is the ID of the entry cached last with the same stored device, inode and mount, and nothing exactly if there is none. |
| `FileIds.FileIds.CacheOne` | criu-3.15/criu/file-ids.c:43-59 | The cache then holds the new entry in front of all others of the same file. |
| `FileIds.FileIds.Lookup` | criu-3.15/criu/file-ids.c:61-74 | Yields the ID cached last for the file, or none. |
| `FileIds.FileIds.GenerateSpecial` | criu-3.15/criu/file-ids.c:76-92 | A cached ID, or the next number of the tree's counter, which is then cached. |
| `FileIds.FileIds.Generate` | criu-3.15/criu/file-ids.c:94-113 | The ID of the object; a fresh one is cached for its file. |
| `FileIdRuns.SameNumberIffSameObject` | criu-3.15/criu/kcmp-ids.c:64-155 | For any sequence of requests, with failures and special requests among them, two that do not fail get the same number if and only if they are for the same genid and kernel object. |
| `FileIdRuns.NewIffFirstSight` | criu-3.15/criu/kcmp-ids.c:123-154 | new_id is raised exactly on the first request for an object that does not fail. |
| `FileIdRuns.SpecialGets` | criu-3.15/criu/file-ids.c:76-92 | A special request for a file gets the number cached last for its device, inode and mount, and a new one exactly if none is cached. |
| `FileIdRuns.SpecialByFields` | criu-3.15/criu/file-ids.c:61-92 | Stated on the fields of the requests alone: which earlier request a special one takes its number from, and that it draws a new one exactly if there is none. |
| `FileIdRuns.SharedWithSameFile` | criu-3.15/criu/file-ids.c:61-92 | With devices below 2^32 a number is only taken from a request for the same device, inode and mount. |
| `FileIdRuns.WideDeviceShares` | criu-3.15/criu/file-ids.c:43-59 | Two special requests for different devices, one of them wider than 32 bits, that share a number. |
| `FileIdRuns.SpecialIsApart` | criu-3.15/criu/file-ids.c:87-91 | A number drawn for a special request is never an object's, earlier or later. |
| `FileIdRuns.ObjectThenSpecial` | criu-3.15/criu/file-ids.c:76-113 | First the object, then a special request for its file: they share the ID. |
| `FileIdRuns.SpecialThenObject` | criu-3.15/criu/file-ids.c:76-113 | First the special request, then the object: they do not, and later special requests get the object's. |
| `FileIdRuns.FailedChangesNothing` | criu-3.15/criu/kcmp-ids.c:111-119 | Without a failed request all others get the same answers. |
| `FileIdRuns.SameIdIffSameNumber` | criu-3.15/criu/kcmp-ids.c:64-85 | Stored 32-bit IDs agree exactly if the numbers do, up to 2^32 draws. |
| `FileIdRuns.ApartIffFewEnough` | criu-3.15/criu/kcmp-ids.c:64-85 | All IDs drawn are different if and only if no more than 2^32 are drawn. |
| `FileIdRuns.TooManyCollide` | criu-3.15/criu/kcmp-ids.c:64-85 | 2^32 + 1 special requests of which the last gets the ID of the first. |
| `FileIdServe.Serve` | criu-3.15/criu/file-ids.c:43-113 | The tree, its counter and the cache give exactly these answers, with any failing comparisons and allocations, and fail only where something fails; they stop exactly at a new object whose number is cut to zero. |
| `RestorerHint.Advance` | criu-3.15/criu/cr-restore.c:2597-2607 | No address skipped by one list fits, and giving up means that none fits. |
| `RestorerHint.GetVmaHint` | criu-3.15/criu/cr-restore.c:2581-2627 | The lowest address at or above mmap_min_addr that fits both lists, or -1 if and only if there is none. |
| `RestorerHint.HintIsFreeIff` | criu-3.15/criu/cr-restore.c:2581-2627 | The place found is free in both lists, for every length and lowest address, if and only if no address below the task size lies in a last area and in no other. |
| `RestorerHint.HighLastAreas` | criu-3.15/criu/cr-restore.c:2589-2590 | That is so if the last areas start at or above the task size. |
| `RestorerHint.HintRunsIntoLastArea` | criu-3.15/criu/cr-restore.c:2597-2601 | One area in both lists and a place found inside it. |
| `GhostChunks.CopyChunkFromFile` | criu-3.15/criu/files-reg.c:163-178 | Sends exactly the chunk, however the transfer is cut. |
| `GhostChunks.DecodeEncoded` | criu-3.15/criu/files-reg.c:180-266 | The image of any list of chunks decodes to the file they make. |
| `GhostChunks.CopyFileToChunks` | criu-3.15/criu/files-reg.c:180-218 | For every layout of holes, with or without SEEK_DATA, the image decodes to the file. With SEEK_DATA its chunks are in order, not empty, and hold exactly the bytes the file system keeps. |
| `GhostChunks.CopyChunkToFile` | criu-3.15/criu/files-reg.c:220-244 | Writes exactly the chunk at its offset; spins only if the image ends too early. |
| `GhostChunks.CopyFileFromChunks` | criu-3.15/criu/files-reg.c:246-266 | For every image: the file it decodes to over zeros, or a refusal exactly of something that is no entry, or spinning only if it ends inside a chunk. |
| `GhostChunks.RoundTrip` | criu-3.15/criu/files-reg.c:163-266 | Dump and restore give the same size and bytes. |
| `BfdSpec.AllReadIffShort` | criu-3.15/criu/bfd.c:176-235 | All pieces of a file are read if and only if each is shorter than the buffer; otherwise those before the first long one. |
| `Bfd.Stream.Refill` | criu-3.15/criu/bfd.c:140-159 | What is still to be read does not change, the buffer's bytes stay in front, and with full reads it is full or the file at its end. |
| `Bfd.Stream.Strnchr` | criu-3.15/criu/bfd.c:161-169 | The first delimiter in the buffer, when the part skipped has none. |
| `Bfd.Stream.ReadChr` | criu-3.15/criu/bfd.c:176-235 | With reads that are short only at the end: the next piece and exactly the bytes behind it, or nothing at the end or if the piece does not fit. With any reads: no byte is lost or repeated, and an error is reported only after a failed read. |
| `Bfd.Stream.ReadPieces` | criu-3.15/criu/bfd.c:176-235 | Successive calls give the delimiter split up to the first long piece, and then nothing for ever. |
| `Bfd.Stream.BRead` | criu-3.15/criu/bfd.c:302-333 | The next slice of the file over any pattern of short reads; it is short only at the end. |
| `Bfd.ReadAll` | criu-3.15/criu/bfd.c:302-333 | Any sequence of sizes gives the file slice by slice; it stops only at a failed read. |
| `Bfd.Stream.Flush` | criu-3.15/criu/bfd.c:237-251 | After success the file holds all that was accepted; it fails only if its write fails or is short, and then the buffer still holds everything. |
| `Bfd.Stream.BWrite` | criu-3.15/criu/bfd.c:253-278 | Exactly the first r bytes are accepted behind all earlier ones, and all of them unless a write of this call fails or is short; nothing is written while there is room. |
| `Bfd.Stream.BWritev` | criu-3.15/criu/bfd.c:280-300 | The same for the concatenation of a vector. |
| `Bfd.Stream.Close` | criu-3.15/criu/bfd.c:120-138 | The file holds all that was accepted, or a write fails or is short and that is reported. |
| `Bfd.WriteAll` | criu-3.15/criu/bfd.c:120-300 | Any mix of bwrite and bwritev and then bclose leaves their concatenation in the file, unless a write fails or is short. |
| `BfdPool.Streams.BufGet` | criu-3.15/criu/bfd.c:37-77 | The buffer handed out belongs to no open stream and is no longer free; it fails exactly if there is none and none can be made. |
| `BfdPool.Streams.BufPut` | criu-3.15/criu/bfd.c:79-89 | The buffer is free again and first in line, and open streams still have buffers of their own. |
| `BfdPool.Session` | criu-3.15/criu/bfd.c:37-333 | Any calls on any number of readers and writers that share the pool: reads yield their own files, closed writers' files hold what they were given unless a failed flush is on record, and it ends early only at a call that fails for a reason of its own. |
| `PagemapCache.Pmc.Window` | criu-3.15/criu/pagemap-cache.c:95-152 | The window is the area, or reaches to the end of its two megabytes exactly if the area is small, starts in their first quarter and the next area ends in them; it covers the area and fits the buffer, and the first BUG_ON is not met. |
| `PagemapCache.Pmc.FillCache` | criu-3.15/criu/pagemap-cache.c:95-164 | After a read the window holds the pagemap's entries; after a failed one it is empty. |
| `PagemapCache.Pmc.GetMap` | criu-3.15/criu/pagemap-cache.c:166-181 | Hit or miss, the entries are those a direct read would give. |
| `PagemapCache.Ask` | criu-3.15/criu/pagemap-cache.c:166-181 | For any sequence of areas every answer is a direct read. |
| `PageEmission.EmitIsExact` | criu-3.15/criu/mem.c:102-132 | What is to be emitted is each page that passes should_dump_page once, in ascending order, as a page or a hole. |
| `PageEmission.PagePipe.GenerateIovs` | criu-3.15/criu/mem.c:167-226 | Puts out exactly what is to be emitted up to the offset it returns, and stops early only at a page the full pipe does not take. |
| `PageEmission.PagePipe.DumpArea` | criu-3.15/criu/mem.c:424-438 | Across any number of full pipes the whole area is emitted, none twice and none missing; it fails exactly if a drain fails, and the loop ends. |
| `PageEmission.EmitIsDumped` | criu-3.15/criu/mem.c:85-132 | On the bits of the entries: all of a vdso or AIO ring, nothing of a vvar, no page of a private mapping that is the file's, and else the pages present or swapped that are not the zero page; a hole exactly if clean and the area may refer to the parent images. |
| `PageEmission.PagePipe.GenerateVmaIovs` | criu-3.15/criu/mem.c:350-440 | An area is scanned unless it is shared, an AIO ring in a pre-dump, or unreadable in a pre-dump by read; if it is, everything to be emitted goes out. |
| `PageEmission.Dump` | criu-3.15/criu/mem.c:350-440 | Whatever the pipe can hold, what comes out is what the bits ask for, each page once, in ascending order. |
| `PageParents.HoleInParentIff` | criu-3.15/criu/mem.c:364-413 | The parent images have the page of a hole if and only if the parent was not a pre-dump by read of an unreadable area. |
| `PageParents.HolesAreInParent` | criu-3.15/criu/mem.c:364-413 | So modes of pre-dump may follow one another in any order while the protection of the area stays. |
| `PageParents.MadeReadable` | criu-3.15/criu/mem.c:403-409 | An area made readable between two dumps, whose hole is over nothing. |
| `PageParents.RestoredAsLast` | criu-3.15/criu/pagemap.c:186-240 | Over any chain of incremental dumps, in any modes, every page of the last is read back through the holes with what it held at the last dump. |
| `PageParents.WantedIsRestored` | criu-3.15/criu/mem.c:167-226 | And every page that should be in the images is read back so. |
| `FilemapCtx.Ctx.OpenFilemap` | criu-3.15/criu/files-reg.c:2324-2367 | Keeps, in either mode, the exact account of who uses which descriptor, what is open and who is to close it; fails exactly if an open is needed and fails. |
| `FilemapCtx.OpenVmas` | criu-3.15/criu/mem.c:1366-1400 | Succeeds exactly if every open that is needed does. Each descriptor is then open for the file of its areas, shared by exactly a run of mappings of one file, and marked for closing at exactly its last user. |
| `FilemapCtx.MapAndClose` | criu-3.15/criu/pie/restorer.c:728-738 | The calls made are legal: every area is mapped once, in order, from an open descriptor of its own file, only open descriptors are closed, and none is left open. |
| `FilemapCtx.RestoreFiles` | criu-3.15/criu/pie/restorer.c:728-738 | Both parts together: each descriptor is closed exactly once and not used after that. |
| `FilemapCtx.PremapFiles` | criu-3.15/criu/mem.c:982-1023 | In auto-close mode exactly the file mappings before the first failing open are made, once each, in order, while their own descriptor is the only one open; each is closed exactly once, after its last use, also if an open fails. |
| `DescriptorLog.Balanced` | criu-3.15/criu/files-reg.c:2324-2367 | In any legal log that leaves nothing open, every mapping finds its file open and every descriptor is closed exactly once, after its last use. |
| `EpollOffsets.StillCovers` | criu-3.15/criu/eventpoll.c:291-308 | Reordering keeps one entry for each target. |
| `EpollOffsets.BeforeIsEarlier` | criu-3.15/criu/eventpoll.c:195-206 | In target order the entries before one with the same target are the earlier entries with that target. |
| `EpollOffsets.TargetOffsets` | criu-3.15/criu/eventpoll.c:291-308 | For every n, entry i ends at place i with the number of earlier entries of the same target. |
| `Bitmap.MaskFormulas` | criu-3.15/criu/bitmap.c:5-11 | The shifts of the two mask macros give the bits from, and the bits below, a number. |
| `Bitmap.ChangeBits` | criu-3.15/criu/bitmap.c:16-54 | Exactly the bits [start, start + nr) change, across word boundaries and for nr = 0. |

## Left out

- CowRestore.AddressSpace.PrepareMappings: areas are disjoint and not empty, as in any address space.
- GhostChunks.CopyFileFromChunks: the protobuf encoding of entries is any that is read back as it was written.
- Bfd.Stream.ReadChr: the exact pieces are stated for reads that are short only at the end of the file; a piece with a zero byte in it is seen shorter by C.
- KcmpIds.KidTree.Generate: works on tree values, so the links of nodes in place and their aliasing are not captured; balancing is any function that keeps the order. The wrap of the 64-bit counter is not modelled, because it changes no stored ID.
- Bitmap.ChangeBits: works on the 64 bits of each word; that the mask macros give those bits is stated apart in `Bitmap.MaskFormulas`.
- Failure, abort and rollback of the protocols: a failing ptrace call, a task that dies, stage switches after an abort.
- Time limits: futex waits that look again after two minutes, and alarms.
- Open methods of pipes, sockets, ttys, autofs and inherited descriptors; only plain files and epolls are modelled. Forced masters, which only unix sockets have, are not.
- A traced thread that runs into the trap before its tracer has seized it, which ends the process; frames that return to addresses outside the text; traps of the program's own; what the zeroed half of a breakpoint's word does to other threads.
- Tracees reaching the trap or a breakpoint at all.
- Hidden guard pages of growing stacks, AIO rings, userfaultfd service, vDSO handling in `Cow*.dfy`; shared memory in `PageEmission.dfy`.
- `vm_open`, `mmap` and `mremap` failing in `premap_private_vma`, and reads of the page images that fail.
- `lseek` failing for other reasons than a file system without SEEK_DATA.
- Overflow of `int` sizes in `bwritev` and of `int` bit numbers in `bitmap.c`.
- The search for epoll targets with `bsearch` and the repeated lookup of moved targets; the restore order of entries of one file.
- The CNT statistics and the choice of lazy pages in `is_stack`.
- `tools/tracer2.c`, `attach_pid.c`, `debugger.c`, the controllers, and image, option and kernel-probing code.
