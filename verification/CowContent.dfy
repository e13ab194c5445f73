/** What the content pass keeps while it fills private memory (criu/mem.c, restore_priv_vma_content). */
module CowContent {
  import opened CowMemory
  import opened CowPremap

  // ----- what the content pass keeps

  /** Bits the parent's area still has that this area inherits; none for an area of its own. */
  function ParentBits(vma: Vma, pareas: seq<Area>): set<nat> {
    if IsInherited(vma) && vma.pvma.index < |pareas| then pareas[vma.pvma.index].bits else {}
  }

  /** One page when the content pass has come to address va: listed pages below va hold their contents and
      are no longer the parent's; any other private page is one the parent has and the pass may drop. */
  ghost predicate PageNow(fs: Files, vma: Vma, area: Area, memory: map<nat, Page>, pbits: set<nat>,
                          image: map<nat, Page>, va: nat, o: nat) {
    if vma.start + o in image && vma.start + o < va then
      o in area.bits && o !in pbits && Visible(fs, memory, area, o) == image[vma.start + o]
    else
      o !in area.bits && (area.addr + o in memory ==> o in pbits)
  }

  ghost predicate AreaNow(fs: Files, vma: Vma, area: Area, memory: map<nat, Page>, pbits: set<nat>,
                          image: map<nat, Page>, va: nat) {
    && (forall o :: 0 <= o < vma.Len() ==> PageNow(fs, vma, area, memory, pbits, image, va, o))
    && (forall o :: o in area.bits ==> o < vma.Len())
  }

  ghost predicate Linked(vmas: seq<Vma>, pareas: seq<Area>) {
    forall k :: 0 <= k < |vmas| && IsInherited(vmas[k]) ==> vmas[k].pvma.index < |pareas|
  }

  ghost predicate Progress(fs: Files, vmas: seq<Vma>, areas: seq<Area>, pareas: seq<Area>, memory: map<nat, Page>,
                           image: map<nat, Page>, va: nat) {
    && DisjointAreas(vmas, areas) && Linked(vmas, pareas)
    && (forall k :: 0 <= k < |vmas| && areas[k].premapped ==>
          AreaNow(fs, vmas[k], areas[k], memory, ParentBits(vmas[k], pareas), image, va))
  }

  ghost predicate InPremapped(vmas: seq<Vma>, areas: seq<Area>, a: nat)
    requires |areas| == |vmas|
  {
    exists k :: 0 <= k < |vmas| && areas[k].premapped && vmas[k].Holds(a)
  }

  /** Below va, the pages left to the restorer are exactly the listed ones outside premapped areas. */
  ghost predicate QueuedOk(vmas: seq<Vma>, areas: seq<Area>, queued: map<nat, Page>, image: map<nat, Page>, va: nat) {
    && |areas| == |vmas|
    && (forall a :: a in queued ==> a < va && a in image && queued[a] == image[a])
    && (forall a :: a in image && a < va ==> InPrivate(vmas, a) && (a in queued <==> !InPremapped(vmas, areas, a)))
  }

  /** The pages left to the restorer are exactly the listed ones outside premapped areas. */
  ghost predicate LeftToRestorer(vmas: seq<Vma>, areas: seq<Area>, queued: map<nat, Page>, image: map<nat, Page>) {
    && |areas| == |vmas|
    && forall a ::
        (a in queued <==> a in image && !InPremapped(vmas, areas, a)) && (a in queued ==> queued[a] == image[a])
  }

  // ----- the steps of the content pass on one area

  /** A run of pages [va, va + n) inside area k. */
  ghost predicate Inside(vmas: seq<Vma>, k: nat, va: nat, n: nat) {
    k < |vmas| && vmas[k].start <= va && va + n <= vmas[k].end
  }

  /** The images list the given pages from va on. */
  ghost predicate Lists(image: map<nat, Page>, va: nat, pages: seq<Page>) {
    forall a :: va <= a < va + |pages| ==> a in image && image[a] == pages[a - va]
  }

  lemma ListsRest(image: map<nat, Page>, from: nat, pages: seq<Page>, va: nat, rest: seq<Page>)
    requires Lists(image, from, pages) && from <= va <= from + |pages| && rest == pages[va - from..]
    ensures Lists(image, va, rest) && va + |rest| == from + |pages|
  {
  }

  /** No private page outside area k changes. */
  ghost predicate ChangedOnlyIn(vmas: seq<Vma>, areas: seq<Area>, k: nat, memory: map<nat, Page>,
                                memory': map<nat, Page>)
    requires |areas| == |vmas| && k < |vmas|
  {
    && (forall a :: a in memory' && !InArea(vmas, areas, k, a) ==> a in memory && memory'[a] == memory[a])
    && (forall a :: a in memory && !InArea(vmas, areas, k, a) ==> a in memory')
  }

  lemma WrittenIn(vmas: seq<Vma>, areas: seq<Area>, k: nat, memory: map<nat, Page>, memory': map<nat, Page>, at: nat,
                  pages: seq<Page>)
    requires |areas| == |vmas| && k < |vmas| && areas[k].premapped
    requires areas[k].addr <= at && at + |pages| <= areas[k].addr + vmas[k].Len() && Written(memory, memory', at, pages)
    ensures ChangedOnlyIn(vmas, areas, k, memory, memory')
  {
  }

  lemma SameLayout(vmas: seq<Vma>, areas: seq<Area>, k: nat, bits: set<nat>)
    requires DisjointAreas(vmas, areas) && k < |areas|
    ensures DisjointAreas(vmas, areas[k := areas[k].(bits := bits)])
  {
  }

  /** The pass moves on without touching area l: no page of l is listed in between. */
  lemma OtherArea(fs: Files, vmas: seq<Vma>, areas: seq<Area>, memory: map<nat, Page>, memory': map<nat, Page>,
                  pbits: set<nat>, image: map<nat, Page>, va: nat, va': nat, k: nat, l: nat)
    requires SortedVmas(vmas) && DisjointAreas(vmas, areas) && k < |vmas| && vmas[k].start <= va <= va' <= vmas[k].end
    requires l < |vmas| && l != k && areas[l].premapped && AreaNow(fs, vmas[l], areas[l], memory, pbits, image, va)
    requires ChangedOnlyIn(vmas, areas, k, memory, memory')
    ensures AreaNow(fs, vmas[l], areas[l], memory', pbits, image, va')
  {
    forall o | 0 <= o < vmas[l].Len() ensures PageNow(fs, vmas[l], areas[l], memory', pbits, image, va', o) {
      assert PageNow(fs, vmas[l], areas[l], memory, pbits, image, va, o);
      assert vmas[l].start + o < va <==> vmas[l].start + o < va';
      assert !InArea(vmas, areas, k, areas[l].addr + o);
    }
  }

  /** memcmp, and memcpy only if the page differs. */
  function AfterCompare(fs: Files, memory: map<nat, Page>, area: Area, o: nat, buf: Page): map<nat, Page> {
    if Visible(fs, memory, area, o) == buf then memory else memory[area.addr + o := buf]
  }

  lemma OwnInherited(fs: Files, vma: Vma, area: Area, memory: map<nat, Page>, pbits: set<nat>, image: map<nat, Page>,
                     va: nat, va': nat, memory': map<nat, Page>)
    requires AreaNow(fs, vma, area, memory, pbits, image, va) && vma.Holds(va) && va in image && va' == va + 1
    requires memory' == AfterCompare(fs, memory, area, va - vma.start, image[va])
    ensures AreaNow(fs, vma, area.(bits := area.bits + {va - vma.start}), memory', pbits - {va - vma.start}, image, va')
  {
    var o := va - vma.start;
    var area', pbits' := area.(bits := area.bits + {o}), pbits - {o};
    forall p | 0 <= p < vma.Len() ensures PageNow(fs, vma, area', memory', pbits', image, va', p) {
      assert PageNow(fs, vma, area, memory, pbits, image, va, p);
    }
  }

  /** An inherited page: marked, taken from the parent's bitmap, and overwritten unless it is equal. */
  lemma InheritedPage(fs: Files, vmas: seq<Vma>, areas: seq<Area>, pareas: seq<Area>, memory: map<nat, Page>,
                      image: map<nat, Page>,
                      k: nat, va: nat, va': nat, areas': seq<Area>, pareas': seq<Area>, memory': map<nat, Page>)
    requires SortedVmas(vmas) && DistinctLinks(vmas) && Progress(fs, vmas, areas, pareas, memory, image, va)
    requires k < |vmas| && areas[k].premapped && IsInherited(vmas[k]) && vmas[k].Holds(va) && va in image
    requires va' == va + 1
    requires areas' == areas[k := areas[k].(bits := areas[k].bits + {va - vmas[k].start})]
    requires var j := vmas[k].pvma.index;
             pareas' == pareas[j := pareas[j].(bits := pareas[j].bits - {va - vmas[k].start})]
    requires memory' == AfterCompare(fs, memory, areas[k], va - vmas[k].start, image[va])
    ensures Progress(fs, vmas, areas', pareas', memory', image, va')
  {
    SameLayout(vmas, areas, k, areas'[k].bits);
    assert ChangedOnlyIn(vmas, areas, k, memory, memory');
    forall l | 0 <= l < |vmas| && areas'[l].premapped
      ensures AreaNow(fs, vmas[l], areas'[l], memory', ParentBits(vmas[l], pareas'), image, va')
    {
      if l == k {
        OwnInherited(fs, vmas[k], areas[k], memory, ParentBits(vmas[k], pareas), image, va, va', memory');
      } else {
        assert ParentBits(vmas[l], pareas') == ParentBits(vmas[l], pareas);
        OtherArea(fs, vmas, areas, memory, memory', ParentBits(vmas[l], pareas), image, va, va', k, l);
      }
    }
  }

  lemma {:induction false} OwnFresh(fs: Files, vma: Vma, area: Area, area': Area, memory: map<nat, Page>,
                                    memory': map<nat, Page>,
                 image: map<nat, Page>, va: nat, va': nat, pages: seq<Page>, at: nat)
    requires at == area.addr + va - vma.start && AreaNow(fs, vma, area, memory, {}, image, va) && vma.start <= va
    requires va' == va + |pages| <= vma.end
    requires Lists(image, va, pages)
    requires area' == area.(bits := area.bits + Range(va - vma.start, |pages|))
    requires Written(memory, memory', at, pages)
    ensures AreaNow(fs, vma, area', memory', {}, image, va')
  {
    forall p | 0 <= p < vma.Len() ensures PageNow(fs, vma, area', memory', {}, image, va', p) {
      FreshPage(fs, vma, area, area', memory, memory', image, va, va', pages, at, p);
    }
  }

  lemma {:induction false} FreshPage(fs: Files, vma: Vma, area: Area, area': Area, memory: map<nat, Page>,
                                     memory': map<nat, Page>,
                  image: map<nat, Page>, va: nat, va': nat, pages: seq<Page>, at: nat, p: nat)
    requires at == area.addr + va - vma.start && PageNow(fs, vma, area, memory, {}, image, va, p) && vma.start <= va
    requires va' == va + |pages|
    requires Lists(image, va, pages) && area' == area.(bits := area.bits + Range(va - vma.start, |pages|))
    requires Written(memory, memory', at, pages)
    ensures PageNow(fs, vma, area', memory', {}, image, va', p)
  {
    var a := vma.start + p;
    if va <= a < va' {
      assert a in image && image[a] == pages[a - va];
      assert memory'[area.addr + p] == pages[a - va];
    }
  }

  /** Pages of an area of its own: read in place. */
  lemma {:induction false} FreshPages(fs: Files, vmas: seq<Vma>, areas: seq<Area>, pareas: seq<Area>,
                                      memory: map<nat, Page>,
                   image: map<nat, Page>,
                   k: nat, va: nat, va': nat, pages: seq<Page>, areas': seq<Area>, memory': map<nat, Page>, at: nat)
    requires SortedVmas(vmas) && Progress(fs, vmas, areas, pareas, memory, image, va) && Lists(image, va, pages)
    requires Inside(vmas, k, va, |pages|) && va' == va + |pages| && |areas| == |vmas| && areas[k].premapped
    requires !IsInherited(vmas[k])
    requires areas' == areas[k := areas[k].(bits := areas[k].bits + Range(va - vmas[k].start, |pages|))]
    requires at == areas[k].addr + va - vmas[k].start && Written(memory, memory', at, pages)
    ensures Progress(fs, vmas, areas', pareas, memory', image, va')
  {
    SameLayout(vmas, areas, k, areas'[k].bits);
    WrittenIn(vmas, areas, k, memory, memory', at, pages);
    forall l | 0 <= l < |vmas| && areas'[l].premapped
      ensures AreaNow(fs, vmas[l], areas'[l], memory', ParentBits(vmas[l], pareas), image, va')
    {
      if l == k { OwnFresh(fs, vmas[k], areas[k], areas'[k], memory, memory', image, va, va', pages, at); }
      else { OtherArea(fs, vmas, areas, memory, memory', ParentBits(vmas[l], pareas), image, va, va', k, l); }
    }
  }

  /** Pages of an area the restorer maps later. */
  lemma QueuedPages(fs: Files, vmas: seq<Vma>, areas: seq<Area>, pareas: seq<Area>, memory: map<nat, Page>,
                    image: map<nat, Page>,
                    k: nat, va: nat, va': nat)
    requires SortedVmas(vmas) && Progress(fs, vmas, areas, pareas, memory, image, va)
    requires k < |vmas| && !areas[k].premapped && vmas[k].start <= va <= va' <= vmas[k].end
    ensures Progress(fs, vmas, areas, pareas, memory, image, va')
  {
    forall l | 0 <= l < |vmas| && areas[l].premapped
      ensures AreaNow(fs, vmas[l], areas[l], memory, ParentBits(vmas[l], pareas), image, va')
    {
      OtherArea(fs, vmas, areas, memory, memory, ParentBits(vmas[l], pareas), image, va, va', k, l);
    }
  }

  /** Addresses the images do not list are passed over. */
  lemma GapProgress(fs: Files, vmas: seq<Vma>, areas: seq<Area>, pareas: seq<Area>, memory: map<nat, Page>,
                    image: map<nat, Page>,
                    va: nat, va': nat)
    requires Progress(fs, vmas, areas, pareas, memory, image, va) && va <= va'
    requires forall a :: va <= a < va' ==> a !in image
    ensures Progress(fs, vmas, areas, pareas, memory, image, va')
  {
    forall k | 0 <= k < |vmas| && areas[k].premapped
      ensures AreaNow(fs, vmas[k], areas[k], memory, ParentBits(vmas[k], pareas), image, va')
    {
      forall o | 0 <= o < vmas[k].Len()
          ensures PageNow(fs, vmas[k], areas[k], memory, ParentBits(vmas[k], pareas), image, va', o) {
        assert PageNow(fs, vmas[k], areas[k], memory, ParentBits(vmas[k], pareas), image, va, o);
      }
    }
  }

  lemma PremappedIn(vmas: seq<Vma>, areas: seq<Area>, k: nat, a: nat)
    requires SortedVmas(vmas) && |areas| == |vmas| && k < |vmas| && vmas[k].Holds(a)
    ensures InPremapped(vmas, areas, a) == areas[k].premapped
  {
    if InPremapped(vmas, areas, a) {
      var l :| 0 <= l < |vmas| && areas[l].premapped && vmas[l].Holds(a);
      assert l == k;
    }
  }

  lemma SamePremapped(vmas: seq<Vma>, areas: seq<Area>, areas': seq<Area>, a: nat)
    requires SortedVmas(vmas) && |areas| == |vmas| == |areas'| && InPrivate(vmas, a)
    requires forall l :: 0 <= l < |areas| ==> areas'[l].premapped == areas[l].premapped
    ensures InPremapped(vmas, areas', a) == InPremapped(vmas, areas, a)
  {
    var k :| 0 <= k < |vmas| && vmas[k].priv && vmas[k].Holds(a);
    PremappedIn(vmas, areas, k, a);
    PremappedIn(vmas, areas', k, a);
  }

  lemma QueuedNew(vmas: seq<Vma>, areas: seq<Area>, k: nat, a: nat)
    requires SortedVmas(vmas) && |areas| == |vmas| && k < |vmas| && vmas[k].Holds(a) && vmas[k].priv
    ensures InPrivate(vmas, a) && InPremapped(vmas, areas, a) == areas[k].premapped
  {
    PremappedIn(vmas, areas, k, a);
  }

  /** The restorer's list follows the pass: unchanged for a premapped area, extended otherwise. */
  lemma QueuedStep(vmas: seq<Vma>, areas: seq<Area>, areas': seq<Area>, queued: map<nat, Page>, queued': map<nat, Page>,
                   image: map<nat, Page>, k: nat, va: nat, va': nat, pages: seq<Page>)
    requires SortedVmas(vmas) && QueuedOk(vmas, areas, queued, image, va) && Inside(vmas, k, va, |pages|)
    requires vmas[k].priv
    requires Lists(image, va, pages) && va' == va + |pages|
    requires |areas'| == |areas| && forall l :: 0 <= l < |areas| ==> areas'[l].premapped == areas[l].premapped
    requires areas[k].premapped ==> queued' == queued
    requires !areas[k].premapped ==> Written(queued, queued', va, pages)
    ensures QueuedOk(vmas, areas', queued', image, va')
  {
    forall a | a in image && a < va'
      ensures InPrivate(vmas, a) && (a in queued' <==> !InPremapped(vmas, areas', a))
    {
      if a < va { SamePremapped(vmas, areas, areas', a); } else { QueuedNew(vmas, areas', k, a); }
    }
    forall a | a in queued' ensures a < va' && a in image && queued'[a] == image[a] {
      if a !in queued { assert va <= a && a in image; }
    }
  }

  // ----- pagemap entries and the image

  /** Where the content pass stands before entry e. */
  function At(pm: seq<PagemapEntry>, e: nat): nat
    requires e <= |pm|
  {
    if e == 0 then 0 else pm[e - 1].End()
  }

  /** Every address of the image comes from an entry that is not skipped, and from no other. */
  lemma {:induction false} ImageFrom(pm: seq<PagemapEntry>, lazyPages: bool, a: nat)
    requires SortedPagemap(pm)
    ensures a in ImageOf(pm, lazyPages) ==>
              exists e :: 0 <= e < |pm| && !Skipped(pm[e], lazyPages) && pm[e].vaddr <= a < pm[e].End()
  {
    if pm != [] {
      var n := |pm| - 1;
      ImageFrom(pm[..n], lazyPages, a);
      if a in ImageOf(pm[..n], lazyPages) {
        var e :| 0 <= e < n && !Skipped(pm[..n][e], lazyPages) && pm[..n][e].vaddr <= a < pm[..n][e].End();
        assert pm[e] == pm[..n][e];
      }
    }
  }

  lemma ListsStill(image: map<nat, Page>, more: map<nat, Page>, va: nat, pages: seq<Page>)
    requires Lists(image, va, pages) && forall a :: va <= a < va + |pages| ==> a !in more
    ensures Lists(image + more, va, pages)
  {
  }

  lemma ListsOwn(image: map<nat, Page>, va: nat, pages: seq<Page>)
    ensures Lists(image + Pages(va, pages), va, pages)
  {
  }

  lemma {:induction false} ImageListsEntry(pm: seq<PagemapEntry>, lazyPages: bool, e: nat)
    requires SortedPagemap(pm) && e < |pm| && !Skipped(pm[e], lazyPages)
    ensures Lists(ImageOf(pm, lazyPages), pm[e].vaddr, pm[e].pages)
  {
    var n := |pm| - 1;
    var image := ImageOf(pm[..n], lazyPages);
    if e < n {
      ImageListsEntry(pm[..n], lazyPages, e);
      assert pm[..n][e] == pm[e] && pm[e].End() <= pm[n].vaddr;
      ListsStill(image, if Skipped(pm[n], lazyPages) then map[]
          else Pages(pm[n].vaddr, pm[n].pages), pm[e].vaddr, pm[e].pages);
    } else {
      ListsOwn(image, pm[n].vaddr, pm[n].pages);
    }
  }

  lemma EntryOf(pm: seq<PagemapEntry>, lazyPages: bool, a: nat) returns (e: nat)
    requires SortedPagemap(pm) && a in ImageOf(pm, lazyPages)
    ensures e < |pm| && !Skipped(pm[e], lazyPages) && pm[e].vaddr <= a < pm[e].End()
  {
    ImageFrom(pm, lazyPages, a);
    e :| 0 <= e < |pm| && !Skipped(pm[e], lazyPages) && pm[e].vaddr <= a < pm[e].End();
  }

  /** Nothing is listed between two entries, nor in a skipped one. */
  lemma {:induction false} ImageGap(pm: seq<PagemapEntry>, lazyPages: bool, e: nat, a: nat)
    requires SortedPagemap(pm) && e < |pm| && At(pm, e) <= a
    requires a < if Skipped(pm[e], lazyPages) then pm[e].End() else pm[e].vaddr
    ensures a !in ImageOf(pm, lazyPages)
  {
    if a in ImageOf(pm, lazyPages) {
      var g := EntryOf(pm, lazyPages, a);
    }
  }

  lemma {:induction false} ImageEnd(pm: seq<PagemapEntry>, lazyPages: bool, a: nat)
    requires SortedPagemap(pm) && a in ImageOf(pm, lazyPages)
    ensures a < At(pm, |pm|)
  {
    var g := EntryOf(pm, lazyPages, a);
    assert g == |pm| - 1 || pm[g].End() <= pm[|pm| - 1].vaddr;
  }

  lemma GapQueued(vmas: seq<Vma>, areas: seq<Area>, queued: map<nat, Page>, image: map<nat, Page>, va: nat, va': nat)
    requires QueuedOk(vmas, areas, queued, image, va) && va <= va'
    requires forall a :: va <= a < va' ==> a !in image
    ensures QueuedOk(vmas, areas, queued, image, va')
  {
    forall a | a in image && a < va' ensures InPrivate(vmas, a) && (a in queued <==> !InPremapped(vmas, areas, a)) {
      assert a < va;
    }
  }

  // ----- dropping the pages the task does not share

  /** memory' is memory without the pages of `bits` below i of the area at addr. */
  ghost predicate Dropped(memory: map<nat, Page>, memory': map<nat, Page>, addr: nat, bits: set<nat>, i: nat) {
    && (forall a :: a in memory' ==>
        a in memory && memory'[a] == memory[a] && !(addr <= a < addr + i && a - addr in bits))
    && (forall a :: a in memory && !(addr <= a < addr + i && a - addr in bits) ==> a in memory')
  }

  lemma AreaDropped(fs: Files, vma: Vma, area: Area, memory: map<nat, Page>, memory': map<nat, Page>, pbits: set<nat>,
                    image: map<nat, Page>, va: nat)
    requires AreaNow(fs, vma, area, memory, pbits, image, va) && vma.start < vma.end
    requires forall a :: a in image ==> a < va
    requires Dropped(memory, memory', area.addr, pbits, vma.Len())
    ensures AreaRestored(fs, vma, area, memory', image)
  {
    forall o | 0 <= o < vma.Len() ensures PageRestored(fs, vma, area, memory', image, o) {
      assert PageNow(fs, vma, area, memory, pbits, image, va, o);
      assert area.addr + o in memory' ==> o !in pbits;
    }
  }

  /** Dropping pages of area k leaves area l as it was. */
  lemma OtherDropped(fs: Files, vmas: seq<Vma>, areas: seq<Area>, memory: map<nat, Page>, memory': map<nat, Page>,
                     pbits: set<nat>, bits: set<nat>, image: map<nat, Page>, va: nat, k: nat, l: nat)
    requires SortedVmas(vmas) && DisjointAreas(vmas, areas) && k < |vmas| && l < |vmas| && k != l
    requires areas[k].premapped && areas[l].premapped
    requires Dropped(memory, memory', areas[k].addr, bits, vmas[k].Len())
    ensures AreaNow(fs, vmas[l], areas[l], memory, pbits, image, va) ==>
              AreaNow(fs, vmas[l], areas[l], memory', pbits, image, va)
    ensures AreaRestored(fs, vmas[l], areas[l], memory, image) ==> AreaRestored(fs, vmas[l], areas[l], memory', image)
  {
    forall o | 0 <= o < vmas[l].Len()
      ensures areas[l].addr + o in memory' <==> areas[l].addr + o in memory
      ensures Visible(fs, memory', areas[l], o) == Visible(fs, memory, areas[l], o)
    {
      assert !InArea(vmas, areas, k, areas[l].addr + o);
    }
    if AreaNow(fs, vmas[l], areas[l], memory, pbits, image, va) {
      forall o | 0 <= o < vmas[l].Len() ensures PageNow(fs, vmas[l], areas[l], memory', pbits, image, va, o) {
        assert PageNow(fs, vmas[l], areas[l], memory, pbits, image, va, o);
      }
    }
    if AreaRestored(fs, vmas[l], areas[l], memory, image) {
      forall o | 0 <= o < vmas[l].Len() ensures PageRestored(fs, vmas[l], areas[l], memory', image, o) {
        assert PageRestored(fs, vmas[l], areas[l], memory, image, o);
      }
    }
  }

  /** The state of the drop pass before area k: areas below k are restored, the others as the content pass left them. */
  ghost predicate DropNow(fs: Files, vmas: seq<Vma>, areas: seq<Area>, pareas: seq<Area>, memory: map<nat, Page>,
                          image: map<nat, Page>, va: nat, k: nat) {
    && SortedVmas(vmas) && DisjointAreas(vmas, areas) && Linked(vmas, pareas)
    && (forall l :: 0 <= l < |vmas| && IsInherited(vmas[l]) ==> areas[l].premapped)
    && (forall l :: 0 <= l < |vmas| && l < k && areas[l].premapped ==>
        AreaRestored(fs, vmas[l], areas[l], memory, image))
    && (forall l :: k <= l < |vmas| && areas[l].premapped ==>
          AreaNow(fs, vmas[l], areas[l], memory, ParentBits(vmas[l], pareas), image, va))
  }

  lemma DropStep(fs: Files, vmas: seq<Vma>, areas: seq<Area>, pareas: seq<Area>, memory: map<nat, Page>,
                 memory': map<nat, Page>,
                 image: map<nat, Page>, va: nat, k: nat)
    requires DropNow(fs, vmas, areas, pareas, memory, image, va, k) && k < |vmas|
    requires forall a :: a in image ==> a < va
    requires areas[k].premapped ==> Dropped(memory, memory', areas[k].addr, ParentBits(vmas[k], pareas), vmas[k].Len())
    requires !areas[k].premapped ==> memory' == memory
    ensures DropNow(fs, vmas, areas, pareas, memory', image, va, k + 1)
  {
    if areas[k].premapped {
      AreaDropped(fs, vmas[k], areas[k], memory, memory', ParentBits(vmas[k], pareas), image, va);
      forall l | 0 <= l < |vmas| && l != k && areas[l].premapped
        ensures l < k ==> AreaRestored(fs, vmas[l], areas[l], memory', image)
        ensures l > k ==> AreaNow(fs, vmas[l], areas[l], memory', ParentBits(vmas[l], pareas), image, va)
      {
        OtherDropped(fs, vmas, areas, memory, memory', ParentBits(vmas[l], pareas), ParentBits(vmas[k], pareas),
                     image, va, k, l);
      }
    }
  }

  // ----- the address space of one task

  /** find_next_bit: the first set bit at or after i, or size. */
  function FindNextBit(bits: set<nat>, size: nat, i: nat): (r: nat)
    ensures i < size ==> i <= r <= size
    ensures i >= size ==> r == size
    ensures forall p :: i <= p < r && p < size ==> p !in bits
    ensures r < size ==> r in bits
    decreases size - i
  {
    if i >= size then size else if i in bits then i else FindNextBit(bits, size, i + 1)
  }

  /** The images list no page of an area marked VMA_NO_PROT_WRITE. */
  ghost predicate WriteOk(vmas: seq<Vma>, areas: seq<Area>, image: map<nat, Page>) {
    forall k :: 0 <= k < |vmas| && k < |areas| && areas[k].noWrite ==> NotListed(vmas[k], image)
  }

  ghost predicate NotListed(vma: Vma, image: map<nat, Page>) {
    forall a :: a in image ==> !vma.Holds(a)
  }

  // ----- from premapping to the content pass

  /** The areas of a task before they are mapped. */
  function Unmapped(vmas: seq<Vma>): (areas: seq<Area>) {
    seq(|vmas|, k => Area(false, 0, {}, false, Anonymous))
  }

  /** Areas are not empty and do not overlap, as in any address space. */
  ghost predicate WellFormed(vmas: seq<Vma>) {
    && (forall k :: 0 <= k < |vmas| ==> vmas[k].start < vmas[k].end)
    && (forall k, l :: 0 <= k < l < |vmas| ==> vmas[k].end <= vmas[l].start || vmas[l].end <= vmas[k].start)
  }

  /** Which areas are premapped, and what they show where they have no private page. */
  ghost predicate MappedSo(vmas: seq<Vma>, areas: seq<Area>, pareas: seq<Area>, pieok: bool) {
    && |areas| == |vmas|
    && (forall k :: 0 <= k < |vmas| ==> areas[k].premapped == ToPremap(vmas, k, pieok))
    && (forall k :: 0 <= k < |vmas| && areas[k].premapped ==> Sourced(vmas[k], areas[k], pareas))
  }

  /** The first k areas do not descend, and the last of them starts at pstart. */
  ghost predicate AscendsTo(vmas: seq<Vma>, k: nat, pstart: nat) {
    && (forall l :: 0 < l < k && l < |vmas| ==> vmas[l - 1].start <= vmas[l].start)
    && (if k == 0 then pstart == 0 else k <= |vmas| && pstart == vmas[k - 1].start)
  }

  /** Areas shared with the parent or with children are premapped. */
  ghost predicate SharedMapped(vmas: seq<Vma>, areas: seq<Area>) {
    |areas| == |vmas| && forall k ::
        0 <= k < |vmas| && (IsInherited(vmas[k]) || (vmas[k].pvma != NotShared && vmas[k].priv)) ==> areas[k].premapped
  }

  lemma SharedAreMapped(vmas: seq<Vma>, pvmas: seq<Vma>, areas: seq<Area>, pareas: seq<Area>, pieok: bool)
    requires MappedSo(vmas, areas, pareas, pieok) && ValidLinks(vmas, pvmas)
    ensures SharedMapped(vmas, areas)
  {
  }

  lemma {:induction false} FreshStart(vmas: seq<Vma>, pvmas: seq<Vma>, areas: seq<Area>, pareas: seq<Area>,
                                      memory: map<nat, Page>,
                   pieok: bool, at0: nat)
    requires areas == Unmapped(vmas) && ParentReady(vmas, pvmas, pareas, at0)
    requires forall a :: a in memory ==> a < at0 || at0 + PrivateSize(vmas) <= a
    ensures PremapNow(vmas, areas, pareas, memory, memory, pieok, at0, at0, 0)
  {
    forall l | 0 <= l < |vmas| && IsInherited(vmas[l])
      ensures var other := pareas[vmas[l].pvma.index].addr; SamePages(memory, memory, other, other, vmas[l].Len())
    {
    }
  }

  lemma {:induction false} StartsAscend(vmas: seq<Vma>, k: nat, l: nat)
    requires NotDescending(vmas) && k <= l < |vmas|
    ensures vmas[k].start <= vmas[l].start
  {
    if k < l { StartsAscend(vmas, k, l - 1); }
  }

  lemma SortedAtLast(vmas: seq<Vma>)
    requires WellFormed(vmas) && NotDescending(vmas)
    ensures SortedVmas(vmas)
  {
    forall k, l | 0 <= k < l < |vmas| ensures vmas[k].end <= vmas[l].start {
      StartsAscend(vmas, k, l);
    }
  }

  lemma InheritedMarked(vmas: seq<Vma>, pvmas: seq<Vma>, area: Area, pareas: seq<Area>, before: map<nat, Page>,
                        memory: map<nat, Page>,
                        at0: nat, k: nat, o: nat)
    requires ParentReady(vmas, pvmas, pareas, at0) && Marked(pvmas, pareas, before)
    requires k < |vmas| && Carried(vmas[k], area, pareas, before, memory) && o < vmas[k].Len()
    requires area.addr + o in memory
    ensures o in ParentBits(vmas[k], pareas)
  {
    assert IsInherited(vmas[k]) || NoPage(memory, area.addr, o);
    var j := vmas[k].pvma.index;
    assert SamePage(before, memory, pareas[j].addr, area.addr, o);
    assert !NoPage(before, pareas[j].addr, o);
  }

  lemma ContentStart(fs: Files, vmas: seq<Vma>, pvmas: seq<Vma>, areas: seq<Area>, pareas: seq<Area>,
                     before: map<nat, Page>,
                     memory: map<nat, Page>, image: map<nat, Page>, pieok: bool, at0: nat, at: nat)
    requires PremapNow(vmas, areas, pareas, before, memory, pieok, at0, at, |vmas|)
    requires ParentReady(vmas, pvmas, pareas, at0) && Marked(pvmas, pareas, before)
    ensures Progress(fs, vmas, areas, pareas, memory, image, 0) && QueuedOk(vmas, areas, map[], image, 0)
  {
    forall k | 0 <= k < |vmas| && areas[k].premapped
      ensures AreaNow(fs, vmas[k], areas[k], memory, ParentBits(vmas[k], pareas), image, 0)
    {
      forall o | 0 <= o < vmas[k].Len()
          ensures PageNow(fs, vmas[k], areas[k], memory, ParentBits(vmas[k], pareas), image, 0, o) {
        if areas[k].addr + o in memory { InheritedMarked(vmas, pvmas, areas[k], pareas, before, memory, at0, k, o); }
      }
    }
  }

  lemma {:induction false} UnwrittenUnlisted(pm: seq<PagemapEntry>, lazyPages: bool, vmas: seq<Vma>,
                                             areas: seq<Area>, pieok: bool)
    requires SortedPagemap(pm) && UnwrittenSo(pm, vmas, areas, pieok, |vmas|)
    ensures WriteOk(vmas, areas, ImageOf(pm, lazyPages))
  {
    forall k, a | 0 <= k < |vmas| && k < |areas| && areas[k].noWrite && a in ImageOf(pm, lazyPages)
        ensures !vmas[k].Holds(a) {
      var e := EntryOf(pm, lazyPages, a);
      assert NoEntry(pm, vmas[k]);
    }
  }
}
