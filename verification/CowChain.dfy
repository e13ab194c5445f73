/** Private memory down a chain of forks: the root is restored first, each task forks from the one before it. */
module CowChain {
  import opened CowMemory
  import opened CowPremap
  import opened CowContent
  import opened CowLinks
  import opened CowTree
  import opened Options

  /** What the images say of one task. */
  datatype Task = Task(vmas: seq<Vma>, pm: seq<PagemapEntry>, lazyPages: bool, pieok: bool) {
    function Image(): map<nat, Page> { ImageOf(pm, lazyPages) }
  }

  /** Images as a dump writes them, with the links prepare_cow_vmas makes; the root has no parent. */
  ghost predicate Sound(tasks: seq<Task>) {
    && (forall i :: 0 <= i < |tasks| ==> SoundTask(tasks[i]))
    && (forall i {:trigger Above(tasks, i)} :: 0 <= i < |tasks| ==> ValidLinks(tasks[i].vmas, Above(tasks, i)))
  }

  /** The areas of the parent of task i. */
  function Above(tasks: seq<Task>, i: nat): seq<Vma>
    requires i <= |tasks|
  {
    if i == 0 then [] else tasks[i - 1].vmas
  }

  ghost predicate SoundTask(t: Task) {
    t.vmas != [] && WellFormed(t.vmas) && SortedPagemap(t.pm) && DistinctLinks(t.vmas)
  }

  /** The conditions under which a task is restored. */
  ghost predicate Restorable(t: Task) {
    && PrivateSize(t.vmas) > 0 && NotDescending(t.vmas) && EntryThere(t.vmas, t.pm, t.pieok)
    && forall a :: a in t.Image() ==> InPrivate(t.vmas, a)
  }

  /** The first n tasks can be restored. */
  ghost predicate RestorableUpTo(tasks: seq<Task>, n: nat) {
    n <= |tasks| && forall i :: 0 <= i < n ==> Restorable(tasks[i])
  }

  lemma RestorableNext(tasks: seq<Task>, n: nat, n': nat)
    requires n < |tasks| && n' == n + 1
    ensures RestorableUpTo(tasks, n') <==> RestorableUpTo(tasks, n) && Restorable(tasks[n])
  {
  }

  lemma RestorableMonotone(tasks: seq<Task>, n: nat, n': nat)
    requires n <= n' <= |tasks| && RestorableUpTo(tasks, n')
    ensures RestorableUpTo(tasks, n)
  {
  }

  /** The first ancestor that maps the area itself decides what untouched pages show. */
  function RootVma(tasks: seq<Task>, i: nat, k: nat): Vma
    requires i < |tasks| && k < |tasks[i].vmas|
  {
    var vma := tasks[i].vmas[k];
    if IsInherited(vma) && i > 0
        && vma.pvma.index < |tasks[i - 1].vmas| then RootVma(tasks, i - 1, vma.pvma.index) else vma
  }

  /** Where mmap(NULL, ...) puts a region of n pages when some pages are taken. */
  type Kernel = (set<nat>, nat) -> nat

  ghost predicate FindsRoom(kernel: Kernel) {
    forall used: set<nat>, n: nat, a :: a in used ==> a < kernel(used, n) || kernel(used, n) + n <= a
  }

  /** The pages of the premapped areas. */
  function Occupied(vmas: seq<Vma>, areas: seq<Area>): (r: set<nat>)
    requires |areas| == |vmas|
    ensures forall k, a :: 0 <= k < |vmas| && InArea(vmas, areas, k, a) ==> a in r
  {
    if vmas == [] then {}
    else
      var n := |vmas| - 1;
      var rest := Occupied(vmas[..n], areas[..n]);
      assert forall k, a :: 0 <= k < n && InArea(vmas, areas, k, a) ==> InArea(vmas[..n], areas[..n], k, a);
      if areas[n].premapped && vmas[n].Len() > 0 then rest + Range(areas[n].addr, vmas[n].Len()) else rest
  }

  /** And no others. */
  lemma {:induction false} OnlyPremapped(vmas: seq<Vma>, areas: seq<Area>, a: nat)
    requires |areas| == |vmas| && a in Occupied(vmas, areas)
    ensures exists k :: 0 <= k < |vmas| && InArea(vmas, areas, k, a)
  {
    var n := |vmas| - 1;
    if a in Occupied(vmas[..n], areas[..n]) {
      OnlyPremapped(vmas[..n], areas[..n], a);
      var k :| 0 <= k < n && InArea(vmas[..n], areas[..n], k, a);
      assert InArea(vmas, areas, k, a);
    } else {
      assert InArea(vmas, areas, n, a);
    }
  }

  /** A task that can be forked from. */
  ghost predicate HandsDown(vmas: seq<Vma>, areas: seq<Area>, memory: map<nat, Page>) {
    && DisjointAreas(vmas, areas) && Marked(vmas, areas, memory)
    && (forall j :: 0 <= j < |vmas| && vmas[j].priv && vmas[j].pvma != NotShared ==> areas[j].premapped)
    && (forall j :: 0 <= j < |vmas| ==> vmas[j].start < vmas[j].end)
  }

  lemma RestoredHandsDown(fs: Files, vmas: seq<Vma>, areas: seq<Area>, memory: map<nat, Page>, image: map<nat, Page>)
    requires TaskRestored(fs, vmas, areas, memory, image) && WellFormed(vmas)
    ensures HandsDown(vmas, areas, memory)
  {
    forall k, o | 0 <= k < |vmas| && areas[k].premapped && 0 <= o < vmas[k].Len() && !NoPage(memory, areas[k].addr, o)
      ensures o in areas[k].bits
    {
      assert PageRestored(fs, vmas[k], areas[k], memory, image, o);
    }
  }

  /** A free region is free of the parent's areas. */
  lemma {:induction false} RegionApart(vmas: seq<Vma>, pvmas: seq<Vma>, pareas: seq<Area>, memory: map<nat, Page>,
                                       kernel: Kernel,
                    at0: nat)
    requires HandsDown(pvmas, pareas, memory) && ValidLinks(vmas, pvmas) && DistinctLinks(vmas) && FindsRoom(kernel)
    requires at0 == kernel(memory.Keys + Occupied(pvmas, pareas), PrivateSize(vmas))
    requires PrivateSize(vmas) > 0
    ensures ParentReady(vmas, pvmas, pareas, at0)
    ensures forall a :: a in memory ==> a < at0 || at0 + PrivateSize(vmas) <= a
  {
    var used, n := memory.Keys + Occupied(pvmas, pareas), PrivateSize(vmas);
    forall j | 0 <= j < |pvmas| && pareas[j].premapped
      ensures pareas[j].addr + pvmas[j].Len() <= at0 || at0 + n <= pareas[j].addr
    {
      // a region that overlapped the area would hold one of its pages
      var a := if at0 < pareas[j].addr then pareas[j].addr else at0;
      assert InArea(pvmas, pareas, j, a) ==> a in used;
    }
  }

  /** Task i is restored: listed pages hold their contents in the premapped areas or wait for the restorer, and
      every untouched page has no private copy and shows the mapping its first ancestor made. */
  ghost predicate Restored(fs: Files, tasks: seq<Task>, i: nat, areas: seq<Area>, memory: map<nat, Page>,
                           queued: map<nat, Page>) {
    && i < |tasks|
    && TaskRestored(fs, tasks[i].vmas, areas, memory, tasks[i].Image())
    && LeftToRestorer(tasks[i].vmas, areas, queued, tasks[i].Image())
    && SourcedSo(tasks, i, areas)
  }

  ghost predicate SourcedSo(tasks: seq<Task>, i: nat, areas: seq<Area>) {
    && i < |tasks| && |areas| == |tasks[i].vmas|
    && (forall k :: 0 <= k < |areas| ==> areas[k].premapped == ToPremap(tasks[i].vmas, k, tasks[i].pieok))
    && (forall k :: 0 <= k < |areas| && areas[k].premapped ==> areas[k].source == RootVma(tasks, i, k).Source())
  }

  /** An inherited area has the source of the parent's area, so that of the first ancestor. */
  lemma SourceFromRoot(tasks: seq<Task>, i: nat, areas: seq<Area>, pareas: seq<Area>)
    requires Sound(tasks) && i < |tasks| && MappedSo(tasks[i].vmas, areas, pareas, tasks[i].pieok)
    requires i > 0 ==> SourcedSo(tasks, i - 1, pareas)
    ensures SourcedSo(tasks, i, areas)
  {
    forall k | 0 <= k < |areas| && areas[k].premapped ensures areas[k].source == RootVma(tasks, i, k).Source() {
      assert ValidLinks(tasks[i].vmas, Above(tasks, i));
      assert Sourced(tasks[i].vmas[k], areas[k], pareas);
    }
  }

  /** What page o of an area of a task is to show: the image page if there is one, else the backing of the mapping
      that the first ancestor made. */
  ghost function Shown(fs: Files, vma: Vma, root: Vma, image: map<nat, Page>, o: nat): Page {
    if vma.start + o in image then image[vma.start + o] else Backing(fs, root.Source(), o)
  }

  lemma {:induction false} SourceOfRoot(tasks: seq<Task>, i: nat, areas: seq<Area>, k: nat, root: Vma)
    requires SourcedSo(tasks, i, areas) && k < |areas| && areas[k].premapped && root == RootVma(tasks, i, k)
    ensures areas[k].source == root.Source()
  {
  }

  /** What a reader sees in a restored task. */
  lemma {:induction false} RestoredShows(fs: Files, tasks: seq<Task>, i: nat, areas: seq<Area>, memory: map<nat, Page>,
                      queued: map<nat, Page>, k: nat, o: nat)
    requires Restored(fs, tasks, i, areas, memory, queued) && k < |areas| && areas[k].premapped
    requires o < tasks[i].vmas[k].Len()
    ensures Visible(fs, memory, areas[k], o) == Shown(fs, tasks[i].vmas[k], RootVma(tasks, i, k), tasks[i].Image(), o)
  {
    var vmas, image, root := tasks[i].vmas, tasks[i].Image(), RootVma(tasks, i, k);
    PageOfTask(fs, vmas, areas, memory, image, k, o);
    SourceOfRoot(tasks, i, areas, k, root);
    RestoredPageShows(fs, vmas[k], areas[k], memory, image, o);
  }

  /** An area and the one its first ancestor mapped agree in everything check_cow_vmas compares. */
  lemma {:induction false} RootCoincides(tasks: seq<Task>, i: nat, k: nat)
    requires Sound(tasks) && i < |tasks| && k < |tasks[i].vmas|
    ensures var vma, root := tasks[i].vmas[k], RootVma(tasks, i, k);
            && vma.start == root.start && vma.end == root.end && vma.priv == root.priv
            && vma.growsdown == root.growsdown && vma.anon == root.anon && (!vma.anon ==> vma.shmid == root.shmid)
  {
    assert ValidLinks(tasks[i].vmas, Above(tasks, i));
    if IsInherited(tasks[i].vmas[k]) { RootCoincides(tasks, i - 1, tasks[i].vmas[k].pvma.index); }
  }

  /** Untouched pages of an area show the area's own mapping, whatever the files hold, if and only if the area is
      anonymous or its first ancestor maps the file from the same offset: offsets are not among the things compared. */
  lemma {:induction false} OwnBackingIff(tasks: seq<Task>, i: nat, k: nat, o: nat)
    requires Sound(tasks) && i < |tasks| && k < |tasks[i].vmas|
    ensures (forall fs: Files ::
              Backing(fs, RootVma(tasks, i, k).Source(), o) == Backing(fs, tasks[i].vmas[k].Source(), o))
            <==> tasks[i].vmas[k].anon || RootVma(tasks, i, k).pgoff == tasks[i].vmas[k].pgoff
  {
    var vma, root := tasks[i].vmas[k], RootVma(tasks, i, k);
    RootCoincides(tasks, i, k);
    if !vma.anon && root.pgoff != vma.pgoff {
      var fs: Files := (shmid, page) => if page == vma.pgoff + o then Page([1]) else Page([2]);
      assert Backing(fs, root.Source(), o) != Backing(fs, vma.Source(), o);
    }
  }

  // ----- the links come from prepare_cow_vmas

  /** What the images say of a task's pages. */
  datatype Pagemap = Pagemap(pm: seq<PagemapEntry>, lazyPages: bool, pieok: bool)

  /** A task and its ancestors, the root first. */
  ghost predicate Branch(items: seq<Item>, path: seq<nat>) {
    && path != [] && (forall m :: 0 <= m < |path| ==> path[m] < |items|) && items[path[0]].parent == None
    && forall m {:trigger Step(items, path, m)} :: 0 <= m < |path| - 1 ==> Step(items, path, m)
  }

  predicate Step(items: seq<Item>, path: seq<nat>, m: nat)
    requires m + 1 < |path| && path[m + 1] < |items|
  {
    items[path[m + 1]].parent == Some(path[m])
  }

  /** Images as a dump writes them: areas that are not empty and do not overlap, pages in order. */
  ghost predicate Images(items: seq<Item>, path: seq<nat>, pages: seq<Pagemap>) {
    && Tree(items) && Branch(items, path) && |pages| == |path|
    && forall m :: 0 <= m < |path| ==>
        items[path[m]].vmas != [] && WellFormed(items[path[m]].vmas) && SortedPagemap(pages[m].pm)
  }

  function TasksOf(lists: seq<seq<Vma>>, path: seq<nat>, pages: seq<Pagemap>): seq<Task>
    requires |pages| == |path| && forall m :: 0 <= m < |path| ==> path[m] < |lists|
  {
    seq(|path|, m requires 0 <= m < |path| => Task(lists[path[m]], pages[m].pm, pages[m].lazyPages, pages[m].pieok))
  }

  lemma SameBounds(items: seq<Item>, i: nat, vmas: seq<Vma>)
    requires i < |items| && Marks(items, |items|, i, vmas) && WellFormed(items[i].vmas)
    ensures WellFormed(vmas)
  {
    assert forall k :: 0 <= k < |vmas| ==>
        vmas[k].start == items[i].vmas[k].start && vmas[k].end == items[i].vmas[k].end;
  }

  /** Every branch of the tree, with the links prepare_cow_vmas makes, is one the restore can work with. */
  lemma BranchIsSound(items: seq<Item>, lists: seq<seq<Vma>>, path: seq<nat>, pages: seq<Pagemap>)
    requires Images(items, path, pages) && AllMarks(items, |items|, lists)
    ensures Sound(TasksOf(lists, path, pages))
  {
    var tasks := TasksOf(lists, path, pages);
    forall m | 0 <= m < |tasks| ensures SoundTask(tasks[m]) && ValidLinks(tasks[m].vmas, Above(tasks, m)) {
      assert Marks(items, |items|, path[m], lists[path[m]]);
      SameBounds(items, path[m], lists[path[m]]);
      TreeLinksAreValid(items, lists, path[m]);
      if m > 0 { assert Step(items, path, m - 1); }
      assert Above(tasks, m) == ParentVmas(items, lists, path[m]);
    }
  }

  /** A task and its child that both can be restored, with links that prepare_cow_vmas makes; and a file of which the
      child, however it is restored, shows the wrong page. */
  lemma OffsetIsNotCompared() returns (items: seq<Item>, tasks: seq<Task>, fs: Files)
    ensures |tasks| == |items| == 2 && Tree(items) && AllMarks(items, 2, [tasks[0].vmas, tasks[1].vmas])
    ensures Sound(tasks) && Restorable(tasks[0]) && Restorable(tasks[1]) && |tasks[1].vmas| == 1
    ensures forall areas: seq<Area>, memory, queued :: Restored(fs, tasks, 1, areas, memory, queued) ==>
              areas[0].premapped && Visible(fs, memory, areas[0], 0) != Backing(fs, tasks[1].vmas[0].Source(), 0)
  {
    var mapped := Vma(4, 5, true, false, false, 7, 0, NotShared);
    items := [Item([mapped], 0, None), Item([mapped.(pgoff := 3)], 0, Some(0))];
    var parent, child := mapped.(pvma := CowRoot), mapped.(pgoff := 3, pvma := Inherited(0));
    tasks := [Task([parent], [], false, false), Task([child], [], false, false)];
    fs := (shmid, page) => if page == 0 then Page([1]) else Page([2]);
    assert Coincide(items[1].vmas[0], items[0].vmas[0]) && CowTree.Linked(items, 1, 0, 0) && Wanted(items, 2, 0, 0);
    assert ValidLinks(tasks[0].vmas, Above(tasks, 0)) && ValidLinks(tasks[1].vmas, Above(tasks, 1));
    OneAreaSize(parent);
    OneAreaSize(child);
    forall areas: seq<Area>, memory, queued | Restored(fs, tasks, 1, areas, memory, queued)
      ensures areas[0].premapped && Visible(fs, memory, areas[0], 0) != Backing(fs, child.Source(), 0)
    {
      RestoredShows(fs, tasks, 1, areas, memory, queued, 0, 0);
      assert RootVma(tasks, 1, 0) == parent;
    }
  }

  lemma OneAreaSize(vma: Vma)
    requires vma.priv && vma.start < vma.end
    ensures PrivateSize([vma]) == vma.Len()
  {
    assert [vma][..0] == [];
  }
}
