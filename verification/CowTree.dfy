/** The links of a whole tree of tasks (criu/mem.c, prepare_cow_vmas). */
module CowTree {
  import opened Options
  import opened CowMemory
  import opened CowLinks

  /** The tasks, parents before children: their areas, the executables they run, and their parents. */
  datatype Item = Item(vmas: seq<Vma>, exe: nat, parent: Option<nat>)

  ghost predicate Tree(items: seq<Item>) {
    forall i :: 0 <= i < |items| ==>
      && (items[i].parent.Some? ==> items[i].parent.value < i)
      && Ascending(items[i].vmas) && forall k :: 0 <= k < |items[i].vmas| ==> items[i].vmas[k].pvma == NotShared
  }

  /** Task i is compared with its parent: both have areas and run the same executable. */
  predicate Compared(items: seq<Item>, i: nat)
    requires i < |items|
  {
    && items[i].parent.Some? && items[i].parent.value < |items| && items[i].vmas != []
    && var parent := items[items[i].parent.value]; parent.vmas != [] && items[i].exe == parent.exe
  }

  /** Two private areas with the same bounds and flags, of the same file if of any. */
  ghost predicate SameArea(vma: Vma, pvma: Vma) {
    && vma.start == pvma.start && vma.end == pvma.end && vma.priv && pvma.priv
    && vma.growsdown == pvma.growsdown && vma.anon == pvma.anon && (vma.anon || vma.shmid == pvma.shmid)
  }

  /** Area k of task i is to inherit from area j of the parent, which runs the same executable. */
  ghost predicate Linked(items: seq<Item>, i: nat, k: nat, j: nat) {
    && i < |items| && items[i].parent.Some? && items[i].parent.value < |items| && k < |items[i].vmas|
    && var parent := items[items[i].parent.value];
       && items[i].exe == parent.exe && j < |parent.vmas| && SameArea(items[i].vmas[k], parent.vmas[j])
       && Stops(items[i].vmas, parent.vmas, k)
  }

  /** Some child among the first n tasks inherits from area j of task i. */
  ghost predicate Wanted(items: seq<Item>, n: nat, i: nat, j: nat) {
    exists c, l :: 0 <= c < n && c < |items| && items[c].parent == Some(i) && Linked(items, c, l, j)
  }

  /** The mark of area k of task i once the first n tasks are done. */
  ghost predicate MarkSo(items: seq<Item>, n: nat, i: nat, k: nat, mark: Parent) {
    match mark
    case Inherited(j) => i < n && Linked(items, i, k, j)
    case CowRoot => (i < n ==> forall j :: !Linked(items, i, k, j)) && Wanted(items, n, i, k)
    case NotShared => (i < n ==> forall j :: !Linked(items, i, k, j)) && !Wanted(items, n, i, k)
  }

  /** One list: as it was but for its marks. */
  ghost predicate Marks(items: seq<Item>, n: nat, i: nat, vmas: seq<Vma>)
    requires i < |items|
  {
    && |vmas| == |items[i].vmas|
    && forall k :: 0 <= k < |vmas| ==>
         vmas[k] == items[i].vmas[k].(pvma := vmas[k].pvma) && MarkSo(items, n, i, k, vmas[k].pvma)
  }

  ghost predicate AllMarks(items: seq<Item>, n: nat, lists: seq<seq<Vma>>) {
    |lists| == |items| && forall i :: 0 <= i < |items| ==> Marks(items, n, i, lists[i])
  }

  /** Marks do not matter for what coincides and where the walk stops. */
  lemma SameWalk(vmas: seq<Vma>, vmas': seq<Vma>, pvmas: seq<Vma>, pvmas': seq<Vma>, k: nat)
    requires |vmas| == |vmas'| && |pvmas| == |pvmas'| && k < |vmas|
    requires forall l :: 0 <= l < |vmas| ==> vmas'[l].start == vmas[l].start
    requires forall j :: 0 <= j < |pvmas| ==> pvmas'[j].start == pvmas[j].start
    ensures Stops(vmas', pvmas', k) <==> Stops(vmas, pvmas, k)
  {
    if Stops(vmas, pvmas, k) && k > 0 {
      var j :| 0 <= j < |pvmas| && vmas[k - 1].start <= pvmas[j].start < vmas[k].start;
      assert vmas'[k - 1].start <= pvmas'[j].start < vmas'[k].start;
    }
    if Stops(vmas', pvmas', k) && k > 0 {
      var j :| 0 <= j < |pvmas'| && vmas'[k - 1].start <= pvmas'[j].start < vmas'[k].start;
      assert vmas[k - 1].start <= pvmas[j].start < vmas[k].start;
    }
  }

  lemma WantedMore(items: seq<Item>, n: nat, i: nat, j: nat)
    requires n < |items|
    ensures Wanted(items, n + 1, i, j) <==>
              Wanted(items, n, i, j) || (items[n].parent == Some(i) && exists l :: Linked(items, n, l, j))
  {
    if Wanted(items, n + 1, i, j) {
      var c, l :| 0 <= c < n + 1 && c < |items| && items[c].parent == Some(i) && Linked(items, c, l, j);
      assert c == n || Wanted(items, n, i, j);
    }
    if Wanted(items, n, i, j) {
      var c, l :| 0 <= c < n && c < |items| && items[c].parent == Some(i) && Linked(items, c, l, j);
      assert Wanted(items, n + 1, i, j);
    }
    if l :| items[n].parent == Some(i) && Linked(items, n, l, j) {
      assert Wanted(items, n + 1, i, j);
    }
  }

  /** Before its turn a task has no marks: its children come later. */
  lemma UnmarkedYet(items: seq<Item>, n: nat, vmas: seq<Vma>)
    requires Tree(items) && n < |items| && Marks(items, n, n, vmas)
    ensures forall k :: 0 <= k < |vmas| ==> vmas[k].pvma == NotShared
    ensures Ascending(vmas)
  {
    forall k | 0 <= k < |vmas| ensures vmas[k].pvma == NotShared {
      assert MarkSo(items, n, n, k, vmas[k].pvma);
    }
  }

  /** The links the walk makes are those the images ask for. */
  lemma WalkLinks(items: seq<Item>, n: nat, vmas: seq<Vma>, pvmas: seq<Vma>, linked: seq<Vma>, marked: seq<Vma>,
                  k: nat, j: nat)
    requires n < |items| && Compared(items, n) && Marks(items, n, n, vmas)
    requires Marks(items, n, items[n].parent.value, pvmas)
    requires Linking(vmas, pvmas, linked, marked, |vmas|) && k < |vmas|
    ensures linked[k].pvma == Inherited(j) <==> Linked(items, n, k, j)
  {
    SameWalk(items[n].vmas, vmas, items[items[n].parent.value].vmas, pvmas, k);
    assert ChildLink(vmas, pvmas, k, linked[k].pvma);
  }

  lemma ChildDone(items: seq<Item>, n: nat, vmas: seq<Vma>, pvmas: seq<Vma>, linked: seq<Vma>, marked: seq<Vma>)
    requires Tree(items) && n < |items| && Compared(items, n)
    requires Marks(items, n, n, vmas) && Marks(items, n, items[n].parent.value, pvmas)
    requires Linking(vmas, pvmas, linked, marked, |vmas|)
    ensures Marks(items, n + 1, n, linked)
  {
    UnmarkedYet(items, n, vmas);
    forall k | 0 <= k < |linked| ensures MarkSo(items, n + 1, n, k, linked[k].pvma) {
      assert MarkSo(items, n, n, k, vmas[k].pvma);
      WantedMore(items, n, n, k);
      forall j ensures linked[k].pvma == Inherited(j) <==> Linked(items, n, k, j) {
        WalkLinks(items, n, vmas, pvmas, linked, marked, k, j);
      }
      assert ChildLink(vmas, pvmas, k, linked[k].pvma);
    }
  }

  lemma TakenIff(items: seq<Item>, n: nat, vmas: seq<Vma>, pvmas: seq<Vma>, linked: seq<Vma>, marked: seq<Vma>, j: nat)
    requires n < |items| && Compared(items, n) && Marks(items, n, n, vmas)
    requires Marks(items, n, items[n].parent.value, pvmas)
    requires Linking(vmas, pvmas, linked, marked, |vmas|)
    ensures Taken(linked, j) <==> exists l :: Linked(items, n, l, j)
  {
    if Taken(linked, j) {
      var l :| 0 <= l < |linked| && linked[l].pvma == Inherited(j);
      WalkLinks(items, n, vmas, pvmas, linked, marked, l, j);
    }
    if l :| Linked(items, n, l, j) {
      WalkLinks(items, n, vmas, pvmas, linked, marked, l, j);
    }
  }

  lemma ParentDone(items: seq<Item>, n: nat, vmas: seq<Vma>, pvmas: seq<Vma>, linked: seq<Vma>, marked: seq<Vma>,
                   p: nat)
    requires Tree(items) && n < |items| && Compared(items, n) && p == items[n].parent.value
    requires Marks(items, n, n, vmas) && Marks(items, n, p, pvmas)
    requires Linking(vmas, pvmas, linked, marked, |vmas|)
    ensures Marks(items, n + 1, p, marked)
  {
    forall j | 0 <= j < |marked| ensures MarkSo(items, n + 1, p, j, marked[j].pvma) {
      assert MarkSo(items, n, p, j, pvmas[j].pvma) && ParentMark(linked, j, pvmas[j].pvma, marked[j].pvma);
      WantedMore(items, n, p, j);
      TakenIff(items, n, vmas, pvmas, linked, marked, j);
    }
  }

  /** A list that the turn of task n leaves alone. */
  lemma OtherDone(items: seq<Item>, n: nat, i: nat, vmas: seq<Vma>)
    requires Tree(items) && n < |items| && i < |items| && Marks(items, n, i, vmas)
    requires !Compared(items, n) || (i != n && items[n].parent != Some(i))
    ensures Marks(items, n + 1, i, vmas)
  {
    forall k | 0 <= k < |vmas| ensures MarkSo(items, n + 1, i, k, vmas[k].pvma) {
      assert MarkSo(items, n, i, k, vmas[k].pvma);
      WantedMore(items, n, i, k);
    }
  }

  /** prepare_cow_vmas: over the whole tree, an area inherits from an area of the parent if and only if the two
      coincide and the walk stops at it; an area that does not inherit is a COW root if and only if some child
      inherits from it. */
  method PrepareCowVmas(items: seq<Item>) returns (lists: seq<seq<Vma>>)
    requires Tree(items)
    ensures AllMarks(items, |items|, lists)
  {
    lists := seq(|items|, i requires 0 <= i < |items| => items[i].vmas);
    for n := 0 to |items|
      invariant AllMarks(items, n, lists)
    {
      ghost var before := lists;
      if Compared(items, n) {
        var p := items[n].parent.value;
        UnmarkedYet(items, n, lists[n]);
        assert Marks(items, n, p, lists[p]);
        var linked, marked := PrepareCowVmasFor(lists[n], lists[p]);
        ChildDone(items, n, lists[n], lists[p], linked, marked);
        ParentDone(items, n, lists[n], lists[p], linked, marked, p);
        lists := lists[n := linked][p := marked];
      }
      forall i | 0 <= i < |items| ensures Marks(items, n + 1, i, lists[i]) {
        if !Compared(items, n) || (i != n && items[n].parent != Some(i)) {
          assert lists[i] == before[i];
          OtherDone(items, n, i, before[i]);
        }
      }
    }
  }

  /** The areas of the parent of task i, or none. */
  function ParentVmas(items: seq<Item>, lists: seq<seq<Vma>>, i: nat): seq<Vma>
    requires i < |items| == |lists|
  {
    if items[i].parent.Some? && items[i].parent.value < |lists| then lists[items[i].parent.value] else []
  }

  /** The links of every task are what the content pass needs, also after all later children of the parent. */
  lemma TreeLinksAreValid(items: seq<Item>, lists: seq<seq<Vma>>, i: nat)
    requires Tree(items) && AllMarks(items, |items|, lists) && i < |items|
    ensures ValidLinks(lists[i], ParentVmas(items, lists, i)) && DistinctLinks(lists[i])
  {
    var vmas, pvmas := lists[i], ParentVmas(items, lists, i);
    assert Marks(items, |items|, i, vmas);
    forall k | 0 <= k < |vmas| && IsInherited(vmas[k])
      ensures vmas[k].pvma.index < |pvmas| && vmas[k].start == pvmas[vmas[k].pvma.index].start
      ensures CheckCowVmas(vmas[k], pvmas[vmas[k].pvma.index]) && pvmas[vmas[k].pvma.index].pvma != NotShared
    {
      var j := vmas[k].pvma.index;
      assert MarkSo(items, |items|, i, k, vmas[k].pvma) && Linked(items, i, k, j);
      assert Marks(items, |items|, items[i].parent.value, pvmas);
      assert MarkSo(items, |items|, items[i].parent.value, j, pvmas[j].pvma);
      assert Wanted(items, |items|, items[i].parent.value, j);
    }
    forall k, l | 0 <= k < l < |vmas| && IsInherited(vmas[k]) && IsInherited(vmas[l])
      ensures vmas[k].pvma.index != vmas[l].pvma.index
    {
      assert MarkSo(items, |items|, i, k, vmas[k].pvma) && MarkSo(items, |items|, i, l, vmas[l].pvma);
      assert items[i].vmas[k].start < items[i].vmas[l].start;
    }
  }
}
