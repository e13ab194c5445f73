/** Tasks forked and restored one below the other (criu/cr-restore.c and criu/mem.c). */
module CowForks {
  import opened CowMemory
  import opened CowPremap
  import opened CowContent
  import opened CowSharing
  import opened CowRestore
  import opened CowTree
  import opened CowChain

  /** Forks and restores task i below a task that hands down its areas and memory. */
  method RestoreTask(fs: Files, tasks: seq<Task>, i: nat, pareas: seq<Area>, memory: map<nat, Page>, kernel: Kernel)
      returns (ok: bool, t: AddressSpace)
    requires Sound(tasks) && i < |tasks| && FindsRoom(kernel) && HandsDown(Above(tasks, i), pareas, memory)
    requires i > 0 ==> SourcedSo(tasks, i - 1, pareas)
    ensures fresh(t) && (ok <==> Restorable(tasks[i]))
    ensures ok ==> Restored(fs, tasks, i, t.areas, t.memory, t.queued) && HandsDown(tasks[i].vmas, t.areas, t.memory)
    ensures ok ==> KeepsShared(fs, tasks[i].vmas, t.areas, pareas, memory, t.copied, tasks[i].Image())
  {
    var vmas, pvmas := tasks[i].vmas, Above(tasks, i);
    t := new AddressSpace(fs, vmas, pvmas, pareas, memory);
    assert SoundTask(tasks[i]) && ValidLinks(vmas, pvmas);
    var at0 := kernel(memory.Keys + Occupied(pvmas, pareas), PrivateSize(vmas));
    if PrivateSize(vmas) > 0 { RegionApart(vmas, pvmas, pareas, memory, kernel, at0); }
    ok := t.PrepareMappings(at0, tasks[i].pm, tasks[i].lazyPages, tasks[i].pieok);
    if ok {
      SourceFromRoot(tasks, i, t.areas, pareas);
      RestoredHandsDown(fs, vmas, t.areas, t.memory, tasks[i].Image());
    }
  }

  /** A task and its ancestors, the root first: every task of a tree is the last of such a chain.  `last` is the task
      the restore comes to. */
  method RestoreChain(fs: Files, tasks: seq<Task>, kernel: Kernel) returns (ok: bool, t: AddressSpace, last: nat)
    requires tasks != [] && Sound(tasks) && FindsRoom(kernel)
    ensures ok <==> RestorableUpTo(tasks, |tasks|)
    ensures ok ==> last == |tasks| - 1 && Restored(fs, tasks, last, t.areas, t.memory, t.queued)
  {
    last := 0;
    ok, t := RestoreTask(fs, tasks, last, [], map[], kernel);
    var n: nat := 1;
    RestorableNext(tasks, last, n);
    while ok && n < |tasks|
      invariant n == last + 1 <= |tasks| && (ok <==> RestorableUpTo(tasks, n))
      invariant ok ==>
                  Restored(fs, tasks, last, t.areas, t.memory, t.queued)
                      && HandsDown(tasks[last].vmas, t.areas, t.memory)
    {
      last, n := n, n + 1;
      ok, t := RestoreTask(fs, tasks, last, t.areas, t.memory, kernel);
      RestorableNext(tasks, last, n);
    }
    if !ok && RestorableUpTo(tasks, |tasks|) { RestorableMonotone(tasks, n, |tasks|); }
  }

  /** Links for the whole tree, then any task of it with all its ancestors: it is restored if and only if each of them
      can be, and then shows what Restored says. */
  method RestoreBranch(fs: Files, items: seq<Item>, path: seq<nat>, pages: seq<Pagemap>, kernel: Kernel)
      returns (ok: bool, t: AddressSpace, tasks: seq<Task>, last: nat)
    requires Images(items, path, pages) && FindsRoom(kernel)
    ensures Sound(tasks) && |tasks| == |path|
    ensures forall m :: 0 <= m < |path| ==> Marks(items, |items|, path[m], tasks[m].vmas)
    ensures forall m :: 0 <= m < |path| ==>
              tasks[m] == Task(tasks[m].vmas, pages[m].pm, pages[m].lazyPages, pages[m].pieok)
    ensures ok <==> RestorableUpTo(tasks, |tasks|)
    ensures ok ==> last == |tasks| - 1 && Restored(fs, tasks, last, t.areas, t.memory, t.queued)
  {
    var lists := PrepareCowVmas(items);
    BranchIsSound(items, lists, path, pages);
    tasks := TasksOf(lists, path, pages);
    ok, t, last := RestoreChain(fs, tasks, kernel);
  }
}
