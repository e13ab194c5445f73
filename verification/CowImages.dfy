/** What a restored task shows, in terms of the entries of its pagemap. */
module CowImages {
  import opened CowMemory
  import opened CowContent
  import opened CowChain

  /** Address a is page n of entry e of the pagemap, which is not one that lazy restore serves later. */
  ghost predicate HeldBy(t: Task, e: nat, n: nat, a: nat) {
    e < |t.pm| && n < |t.pm[e].pages| && a == t.pm[e].vaddr + n && !(t.lazyPages && t.pm[e].lazy)
  }

  /** No entry that is to be read now holds address a. */
  ghost predicate NotHeld(t: Task, a: nat) {
    forall e, n :: !HeldBy(t, e, n, a)
  }

  lemma HeldIsListed(t: Task, e: nat, n: nat, a: nat)
    requires SortedPagemap(t.pm) && HeldBy(t, e, n, a)
    ensures a in t.Image() && t.Image()[a] == t.pm[e].pages[n]
  {
    ImageListsEntry(t.pm, t.lazyPages, e);
  }

  lemma ListedIsHeld(t: Task, a: nat) returns (e: nat, n: nat)
    requires SortedPagemap(t.pm) && a in t.Image()
    ensures HeldBy(t, e, n, a)
  {
    e := EntryOf(t.pm, t.lazyPages, a);
    n := a - t.pm[e].vaddr;
  }

  lemma NotHeldIsUnlisted(t: Task, a: nat)
    requires SortedPagemap(t.pm) && NotHeld(t, a)
    ensures a !in t.Image()
  {
    if a in t.Image() {
      var e, n := ListedIsHeld(t, a);
      assert false;
    }
  }

  /** Area k is premapped and holds address a. */
  ghost predicate Mapped(t: Task, areas: seq<Area>, k: nat, a: nat)
    requires |areas| == |t.vmas|
  {
    k < |areas| && areas[k].premapped && t.vmas[k].start <= a < t.vmas[k].end
  }

  lemma ShownIn(fs: Files, vmas: seq<Vma>, areas: seq<Area>, memory: map<nat, Page>, image: map<nat, Page>, k: nat,
                o: nat, a: nat)
    requires TaskRestored(fs, vmas, areas, memory, image) && k < |vmas| && areas[k].premapped && o < vmas[k].Len()
    requires a == vmas[k].start + o
    ensures a in image ==> Visible(fs, memory, areas[k], o) == image[a]
    ensures a !in image ==> areas[k].addr + o !in memory
  {
    PageOfTask(fs, vmas, areas, memory, image, k, o);
  }

  /** Every page of every entry that is to be read now is shown by the premapped area that holds its address, and if
      there is none it is on the list for the restorer. */
  lemma PagesAreThere(fs: Files, tasks: seq<Task>, i: nat, t: Task, areas: seq<Area>, memory: map<nat, Page>,
                      queued: map<nat, Page>, e: nat, n: nat, a: nat)
    requires Restored(fs, tasks, i, areas, memory, queued) && t == tasks[i] && SortedPagemap(t.pm) && HeldBy(t, e, n, a)
    ensures forall k :: 0 <= k < |areas| && Mapped(t, areas, k, a) ==>
              Visible(fs, memory, areas[k], a - t.vmas[k].start) == t.pm[e].pages[n]
    ensures (forall k :: 0 <= k < |areas| ==> !Mapped(t, areas, k, a)) ==> a in queued && queued[a] == t.pm[e].pages[n]
  {
    HeldIsListed(t, e, n, a);
    ListedAreThere(fs, t, areas, memory, queued, t.Image(), t.pm[e].pages[n], a);
  }

  lemma ListedAreThere(fs: Files, t: Task, areas: seq<Area>, memory: map<nat, Page>, queued: map<nat, Page>,
                       image: map<nat, Page>, page: Page, a: nat)
    requires TaskRestored(fs, t.vmas, areas, memory, image) && LeftToRestorer(t.vmas, areas, queued, image)
    requires a in image && image[a] == page
    ensures forall k :: 0 <= k < |areas| && Mapped(t, areas, k, a) ==>
              Visible(fs, memory, areas[k], a - t.vmas[k].start) == page
    ensures (forall k :: 0 <= k < |areas| ==> !Mapped(t, areas, k, a)) ==> a in queued && queued[a] == page
  {
    forall k | 0 <= k < |areas| && Mapped(t, areas, k, a)
      ensures Visible(fs, memory, areas[k], a - t.vmas[k].start) == page
    {
      ShownIn(fs, t.vmas, areas, memory, image, k, a - t.vmas[k].start, a);
    }
    if forall k :: 0 <= k < |areas| ==> !Mapped(t, areas, k, a) { NowhereMapped(t, areas, a); }
  }

  lemma NowhereMapped(t: Task, areas: seq<Area>, a: nat)
    requires |areas| == |t.vmas| && forall k :: 0 <= k < |areas| ==> !Mapped(t, areas, k, a)
    ensures !InPremapped(t.vmas, areas, a)
  {
    forall k | 0 <= k < |t.vmas| ensures !(areas[k].premapped && t.vmas[k].Holds(a)) { assert !Mapped(t, areas, k, a); }
  }

  /** A page of a premapped area that no such entry holds has no private copy: it shows the mapping. */
  lemma OthersAreUntouched(fs: Files, tasks: seq<Task>, i: nat, t: Task, areas: seq<Area>, memory: map<nat, Page>,
                           queued: map<nat, Page>, k: nat, o: nat, a: nat)
    requires Restored(fs, tasks, i, areas, memory, queued) && t == tasks[i] && SortedPagemap(t.pm)
    requires Mapped(t, areas, k, a) && a == t.vmas[k].start + o && NotHeld(t, a)
    ensures areas[k].addr + o !in memory
  {
    var vmas, image := t.vmas, t.Image();
    ShownIn(fs, vmas, areas, memory, image, k, o, a);
    NotHeldIsUnlisted(t, a);
  }

  /** The restorer's list holds nothing else. */
  lemma QueuedAreHeld(fs: Files, tasks: seq<Task>, i: nat, t: Task, areas: seq<Area>, memory: map<nat, Page>,
                      queued: map<nat, Page>, a: nat) returns (e: nat, n: nat)
    requires Restored(fs, tasks, i, areas, memory, queued) && t == tasks[i] && SortedPagemap(t.pm) && a in queued
    ensures HeldBy(t, e, n, a) && queued[a] == t.pm[e].pages[n]
    ensures forall k :: 0 <= k < |areas| ==> !Mapped(t, areas, k, a)
  {
    e, n := ListedIsHeld(t, a);
    HeldIsListed(t, e, n, a);
    forall k | 0 <= k < |areas| ensures !Mapped(t, areas, k, a) {
      assert !InPremapped(t.vmas, areas, a);
    }
  }

  /** Which areas are premapped: the private ones that share pages, all of them if the restorer may not read the images
      itself, and always a growing area right above another one. */
  lemma PremappedIff(fs: Files, tasks: seq<Task>, i: nat, areas: seq<Area>, memory: map<nat, Page>,
                     queued: map<nat, Page>, k: nat)
    requires Restored(fs, tasks, i, areas, memory, queued) && k < |areas|
    ensures var vmas := tasks[i].vmas;
            areas[k].premapped <==>
              && vmas[k].priv
              && (vmas[k].pvma != NotShared || !tasks[i].pieok
                  || (vmas[k].growsdown && k > 0 && vmas[k - 1].end == vmas[k].start))
  {
  }

  /** The size to reserve is nothing exactly if no private area has a page. */
  lemma {:induction false} NothingToReserveIff(vmas: seq<Vma>)
    ensures PrivateSize(vmas) == 0 <==> forall k :: 0 <= k < |vmas| && vmas[k].priv ==> vmas[k].end <= vmas[k].start
  {
    if vmas != [] {
      var n := |vmas| - 1;
      NothingToReserveIff(vmas[..n]);
      assert vmas == vmas[..n] + [vmas[n]];
    }
  }
}
