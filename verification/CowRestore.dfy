/** The address space of one task while its private memory is restored (criu/mem.c, prepare_mappings). */
module CowRestore {
  import opened CowMemory
  import opened CowPremap
  import opened CowContent
  import opened CowSharing

  class AddressSpace {
    const fs: Files
    const vmas: seq<Vma>
    const pvmas: seq<Vma>
    var areas: seq<Area>          // rsti(t)->vmas
    var pareas: seq<Area>         // the parent's areas, copied by fork
    var memory: map<nat, Page>    // private pages of the premapped region
    var queued: map<nat, Page>    // pages listed in vma_io for the restorer
    var copied: set<nat>          // pages written by the content pass, no longer shared with the parent

    /** A task as fork leaves it: the parent's areas, bitmaps and private pages are copies. */
    constructor (fs: Files, vmas: seq<Vma>, pvmas: seq<Vma>, pareas: seq<Area>, memory: map<nat, Page>)
      ensures this.fs == fs && this.vmas == vmas && this.pvmas == pvmas && this.pareas == pareas
      ensures this.memory == memory && this.queued == map[] && this.copied == {}
      ensures areas == Unmapped(vmas)
    {
      this.fs, this.vmas, this.pvmas, this.pareas := fs, vmas, pvmas, pareas;
      this.memory, this.queued, this.copied := memory, map[], {};
      this.areas := Unmapped(vmas);
    }

    /** The content pass, which found the memory `base`, has come to address va. */
    ghost predicate Now(image: map<nat, Page>, base: map<nat, Page>, va: nat)
      reads this
    {
      && SortedVmas(vmas) && DistinctLinks(vmas)
      && Progress(fs, vmas, areas, pareas, memory, image, va)
      && QueuedOk(vmas, areas, queued, image, va)
      && WriteOk(vmas, areas, image)
      && Copies(fs, vmas, areas, base, memory, copied, image, va)
    }

    /** Nothing but bitmaps differs from the areas `before`. */
    ghost predicate SameMapping(before: seq<Area>)
      reads this
    {
      && |areas| == |before|
      && forall l :: 0 <= l < |areas| ==> areas[l] == before[l].(bits := areas[l].bits)
    }

    /** The areas before the cursor end at or below va. */
    ghost predicate Passed(cur: nat, va: nat) {
      cur < |vmas| && forall l :: 0 <= l < cur ==> vmas[l].end <= va
    }

    /** The body of the page loop for one page of an inherited area; `next` is the address after it. */
    method RestoreInherited(k: nat, va: nat, next: nat, buf: Page, ghost image: map<nat, Page>,
                            ghost base: map<nat, Page>)
      requires Now(image, base, va) && k < |areas| && areas[k].premapped && vmas[k].priv && IsInherited(vmas[k])
      requires vmas[k].Holds(va)
      requires next == va + 1 && va in image && image[va] == buf
      modifies this
      ensures Now(image, base, next) && SameMapping(old(areas)) && |pareas| == |old(pareas)|
    {
      var off, j := va - vmas[k].start, vmas[k].pvma.index;
      var marked := areas[k := areas[k].(bits := areas[k].bits + {off})];
      var cleared := pareas[j := pareas[j].(bits := pareas[j].bits - {off})];
      var after := AfterCompare(fs, memory, areas[k], off, buf);
      var differs := Visible(fs, memory, areas[k], off) != buf;
      var written := if differs then copied + {areas[k].addr + off} else copied;
      InheritedCopy(fs, vmas, areas, marked, base, memory, after, copied, written, image, k, va, next, off);
      InheritedPage(fs, vmas, areas, pareas, memory, image, k, va, next, marked, cleared, after);
      QueuedStep(vmas, areas, marked, queued, queued, image, k, va, next, [buf]);
      areas, pareas, memory, copied := marked, cleared, after, written;
    }

    /** The same for a run of pages of an area that is not inherited. */
    method RestoreFresh(k: nat, va: nat, next: nat, pages: seq<Page>, ghost image: map<nat, Page>,
                        ghost base: map<nat, Page>)
      requires Now(image, base, va) && Inside(vmas, k, va, |pages|) && vmas[k].priv && k < |areas| && areas[k].premapped
      requires next == va + |pages| && !IsInherited(vmas[k]) && Lists(image, va, pages)
      modifies this
      ensures Now(image, base, next) && SameMapping(old(areas)) && |pareas| == |old(pareas)|
    {
      var off := va - vmas[k].start;
      var marked := areas[k := areas[k].(bits := areas[k].bits + Range(off, |pages|))];
      var at := areas[k].addr + off;
      var after := Write(memory, at, pages);
      FreshPages(fs, vmas, areas, pareas, memory, image, k, va, next, pages, marked, after, at);
      QueuedStep(vmas, areas, marked, queued, queued, image, k, va, next, pages);
      var written := copied + Range(at, |pages|);
      FreshCopies(fs, vmas, areas, marked, base, memory, after, copied, written, image, k, va, next, at, pages);
      areas, memory, copied := marked, after, written;
    }

    /** The same for an area left to the restorer (pagemap_enqueue_iovec). */
    method Enqueue(k: nat, va: nat, next: nat, pages: seq<Page>, ghost image: map<nat, Page>,
                   ghost base: map<nat, Page>)
      requires Now(image, base, va) && Inside(vmas, k, va, |pages|) && vmas[k].priv && k < |areas|
      requires !areas[k].premapped
      requires next == va + |pages| && Lists(image, va, pages)
      modifies this`queued
      ensures Now(image, base, next)
    {
      var after := Write(queued, va, pages);
      QueuedPages(fs, vmas, areas, pareas, memory, image, k, va, next);
      QueuedStep(vmas, areas, areas, queued, after, image, k, va, next, pages);
      QueuedCopies(fs, vmas, areas, base, memory, copied, image, k, va, next);
      queued := after;
    }

    /** `while (va >= vma->e->end)`: moves the cursor to the area that may hold va. */
    method FindVma(cur0: nat, va: nat) returns (found: bool, cur: nat)
      requires SortedVmas(vmas) && Passed(cur0, va)
      ensures Passed(cur, va)
      ensures found <==> vmas[cur].Holds(va) && vmas[cur].priv
      ensures !found ==> !InPrivate(vmas, va)
    {
      cur := cur0;
      while va >= vmas[cur].end
        invariant Passed(cur, va)
        decreases |vmas| - cur
      {
        if cur == |vmas| - 1 {
          return false, cur;
        }
        cur := cur + 1;
      }
      found := vmas[cur].start <= va && vmas[cur].priv;
    }

    /** The body of the page loop: restores a first part of `rest`, whose pages start at va in area k, and
        yields the address after it. */
    method RestoreSome(k: nat, va: nat, rest: seq<Page>, ghost image: map<nat, Page>, ghost base: map<nat, Page>)
        returns (next: nat)
      requires Now(image, base, va) && k < |vmas| && vmas[k].Holds(va) && vmas[k].priv && rest != []
      requires Lists(image, va, rest)
      modifies this
      ensures va < next <= va + |rest| && next <= vmas[k].end
      ensures Now(image, base, next) && SameMapping(old(areas)) && |pareas| == |old(pareas)|
    {
      assert va in image;
      var nr := if |rest| <= vmas[k].end - va then |rest| else vmas[k].end - va;
      if !areas[k].premapped {
        assert !areas[k].noWrite;   // the BUG() of the content pass is not reached
        next := va + nr;
        Enqueue(k, va, next, rest[..nr], image, base);
      } else if IsInherited(vmas[k]) {
        next := va + 1;
        RestoreInherited(k, va, next, rest[0], image, base);
      } else {
        next := va + nr;
        RestoreFresh(k, va, next, rest[..nr], image, base);
      }
    }

    /** One turn of the page loop: finds the area of the page at va and restores a first part of `rest`. */
    method RestoreFrom(cur0: nat, va: nat, rest: seq<Page>, ghost image: map<nat, Page>, ghost base: map<nat, Page>)
        returns (ok: bool, cur: nat, next: nat)
      requires Now(image, base, va) && Passed(cur0, va) && rest != [] && Lists(image, va, rest)
      modifies this
      ensures ok ==> va < next <= va + |rest| && Now(image, base, next) && Passed(cur, next)
      ensures ok ==> SameMapping(old(areas)) && |pareas| == |old(pareas)|
      ensures !ok ==> exists a :: a in image && !InPrivate(vmas, a)
    {
      next := va;
      ok, cur := FindVma(cur0, va);
      if ok {
        next := RestoreSome(cur, va, rest, image, base);
      } else {
        assert va in image;
      }
    }

    /** One pagemap entry of the content pass. */
    method RestoreEntry(pe: PagemapEntry, cur0: nat, ghost image: map<nat, Page>, ghost base: map<nat, Page>)
        returns (ok: bool, cur: nat)
      requires Now(image, base, pe.vaddr) && Passed(cur0, pe.vaddr) && Lists(image, pe.vaddr, pe.pages)
      modifies this
      ensures ok ==>
                Now(image, base, pe.End()) && Passed(cur, pe.End()) && SameMapping(old(areas))
                    && |pareas| == |old(pareas)|
      ensures !ok ==> exists a :: a in image && !InPrivate(vmas, a)
    {
      var va: nat, end := pe.vaddr, pe.End();
      cur, ok := cur0, true;
      while va < end
        invariant pe.vaddr <= va <= end && Now(image, base, va) && Passed(cur, va)
        invariant SameMapping(old(areas)) && |pareas| == |old(pareas)|
      {
        var rest := pe.pages[va - pe.vaddr..];
        ListsRest(image, pe.vaddr, pe.pages, va, rest);
        ok, cur, va := RestoreFrom(cur, va, rest, image, base);
        if !ok { return; }
      }
    }

    /** The pass goes on to entry e, or over it. */
    lemma {:induction false} PassGap(pm: seq<PagemapEntry>, lazyPages: bool, image: map<nat, Page>,
                                     base: map<nat, Page>, e: nat, at: nat, upto: nat)
      requires SortedPagemap(pm) && e < |pm| && image == ImageOf(pm, lazyPages) && at == At(pm, e)
      requires Now(image, base, at)
      requires upto == if Skipped(pm[e], lazyPages) then pm[e].End() else pm[e].vaddr
      ensures at <= pm[e].vaddr && Now(image, base, upto)
    {
      forall a | at <= a < upto ensures a !in image { ImageGap(pm, lazyPages, e, a); }
      GapProgress(fs, vmas, areas, pareas, memory, image, at, upto);
      GapQueued(vmas, areas, queued, image, at, upto);
      GapCopies(fs, vmas, areas, base, memory, copied, image, at, upto);
    }

    /** Entry e of the pagemap, skipped if it is served on demand; the pass goes from `at` to `next`. */
    method RestoreNext(pm: seq<PagemapEntry>, lazyPages: bool, ghost image: map<nat, Page>,
                       ghost base: map<nat, Page>, e: nat, ghost at: nat,
                       cur0: nat)
        returns (ok: bool, cur: nat, ghost next: nat)
      requires SortedPagemap(pm) && e < |pm| && image == ImageOf(pm, lazyPages)
      requires at == At(pm, e) && Now(image, base, at) && Passed(cur0, at)
      modifies this
      ensures next == pm[e].End()
      ensures ok ==> Now(image, base, next) && Passed(cur, next) && SameMapping(old(areas)) && |pareas| == |old(pareas)|
      ensures !ok ==> exists a :: a in image && !InPrivate(vmas, a)
    {
      next := pm[e].End();
      PassGap(pm, lazyPages, image, base, e, at, if Skipped(pm[e], lazyPages) then next else pm[e].vaddr);
      ok, cur := true, cur0;
      if !Skipped(pm[e], lazyPages) {
        ImageListsEntry(pm, lazyPages, e);
        ok, cur := RestoreEntry(pm[e], cur, image, base);
      }
    }

    /** The read loop of restore_priv_vma_content; it comes to the address `end`. */
    method RestorePages(pm: seq<PagemapEntry>, lazyPages: bool, ghost image: map<nat, Page>, ghost base: map<nat, Page>)
        returns (ok: bool, ghost end: nat)
      requires SortedPagemap(pm) && vmas != [] && image == ImageOf(pm, lazyPages) && Now(image, base, 0)
      modifies this
      ensures ok ==>
                end == At(pm, |pm|) && Now(image, base, end) && SameMapping(old(areas)) && |pareas| == |old(pareas)|
      ensures !ok ==> exists a :: a in image && !InPrivate(vmas, a)
    {
      var cur: nat := 0;
      ok, end := true, 0;
      for e := 0 to |pm|
        invariant end == At(pm, e) && Now(image, base, end) && Passed(cur, end)
        invariant SameMapping(old(areas)) && |pareas| == |old(pareas)|
      {
        ok, cur, end := RestoreNext(pm, lazyPages, image, base, e, end, cur);
        if !ok { return; }
      }
    }

    /** Drops the pages the parent has and area k does not share. */
    method DropUnshared(k: nat)
      requires k < |areas| && k < |vmas| && vmas[k].start < vmas[k].end && IsInherited(vmas[k])
      requires vmas[k].pvma.index < |pareas|
      modifies this`memory
      ensures Dropped(old(memory), memory, areas[k].addr, ParentBits(vmas[k], pareas), vmas[k].Len())
    {
      var size := vmas[k].Len();
      var bits := pareas[vmas[k].pvma.index].bits;
      var i: nat := 0;
      while true
        invariant i <= size
        invariant Dropped(old(memory), memory, areas[k].addr, bits, i)
        decreases size - i
      {
        i := FindNextBit(bits, size, i);
        if i >= size { break; }
        memory := memory - {areas[k].addr + i};
        i := i + 1;
      }
    }

    /** The last loop of restore_priv_vma_content. */
    method DropAllUnshared(ghost image: map<nat, Page>, ghost va: nat)
      requires DropNow(fs, vmas, areas, pareas, memory, image, va, 0) && forall a :: a in image ==> a < va
      modifies this`memory
      ensures DropNow(fs, vmas, areas, pareas, memory, image, va, |vmas|)
    {
      for k := 0 to |vmas|
        invariant DropNow(fs, vmas, areas, pareas, memory, image, va, k)
      {
        ghost var before := memory;
        if IsInherited(vmas[k]) {
          DropUnshared(k);
        }
        DropStep(fs, vmas, areas, pareas, before, memory, image, va, k);
      }
    }

    /** restore_priv_vma_content. */
    method RestorePrivVmaContent(pm: seq<PagemapEntry>, lazyPages: bool, ghost parents: seq<Area>,
                                 ghost before: map<nat, Page>) returns (ok: bool)
      requires SortedPagemap(pm) && vmas != [] && Now(ImageOf(pm, lazyPages), memory, 0)
      requires SharedMapped(vmas, areas) && ShowsParent(fs, vmas, areas, parents, before, memory)
      modifies this
      ensures ok <==> forall a :: a in ImageOf(pm, lazyPages) ==> InPrivate(vmas, a)
      ensures ok ==> TaskRestored(fs, vmas, areas, memory, ImageOf(pm, lazyPages)) && SameMapping(old(areas))
      ensures ok ==> LeftToRestorer(vmas, areas, queued, ImageOf(pm, lazyPages))
      ensures ok ==> KeepsShared(fs, vmas, areas, parents, before, copied, ImageOf(pm, lazyPages))
    {
      ghost var image, base, mapped := ImageOf(pm, lazyPages), memory, areas;
      ghost var end: nat;
      ok, end := RestorePages(pm, lazyPages, image, memory);
      if ok {
        forall a | a in image ensures a < end { ImageEnd(pm, lazyPages, a); }
        CopiesKeepShared(fs, vmas, mapped, areas, parents, before, base, memory, copied, image, end);
        DropAllUnshared(image, end);
      }
    }

    /** premap_private_vma for area k at the address `at`. */
    method PremapPrivateVma(k: nat, at: nat, ghost before: map<nat, Page>, ghost pieok: bool, ghost at0: nat)
        returns (at': nat)
      requires PremapNow(vmas, areas, pareas, before, memory, pieok, at0, at, k)
      requires ParentReady(vmas, pvmas, pareas, at0)
      requires k < |vmas| && ToPremap(vmas, k, pieok) && forall l :: 0 <= l < |vmas| ==> vmas[l].start < vmas[l].end
      modifies this`areas, this`memory
      ensures PremapNow(vmas, areas, pareas, before, memory, pieok, at0, at', k + 1)
      ensures |areas| == |old(areas)| && forall l :: 0 <= l < |areas| ==> areas[l].noWrite == old(areas)[l].noWrite
    {
      at' := at + vmas[k].Len();
      if !IsInherited(vmas[k]) {
        var mapped := areas[k].(premapped := true, addr := at, source := vmas[k].Source());
        OwnStep(vmas, pvmas, areas, mapped, pareas, before, memory, pieok, at0, at, at', k);
        areas := areas[k := mapped];
      } else {
        var parent := pareas[vmas[k].pvma.index];
        MayMove(vmas, pvmas, areas, pareas, before, memory, pieok, at0, at, k, parent.addr, vmas[k].Len());
        var mapped := areas[k].(premapped := true, addr := at, source := parent.source);
        var after := Moved(memory, parent.addr, at, vmas[k].Len());
        InheritedStep(vmas, pvmas, areas, mapped, pareas, before, memory, after, pieok, at0, at, at', k, parent,
                      vmas[k].Len());
        areas, memory := areas[k := mapped], after;
      }
    }

    /** An area that is not mapped now. */
    method LeaveVma(k: nat, noWrite: bool, ghost at: nat, ghost before: map<nat, Page>, ghost pieok: bool,
                    ghost at0: nat)
      requires PremapNow(vmas, areas, pareas, before, memory, pieok, at0, at, k)
      requires k < |vmas| && !ToPremap(vmas, k, pieok) && vmas[k].start < vmas[k].end
      modifies this`areas
      ensures PremapNow(vmas, areas, pareas, before, memory, pieok, at0, at, k + 1)
      ensures areas == old(areas)[k := old(areas)[k].(noWrite := noWrite)]
    {
      var left := areas[k].(noWrite := noWrite);
      OwnStep(vmas, pvmas, areas, left, pareas, before, memory, pieok, at0, at, at, k);
      areas := areas[k := left];
    }

    /** The entries before pe lie below `start`, so the check for written areas may go on from pe. */
    ghost predicate Below(pm: seq<PagemapEntry>, pe: nat, start: nat) {
      forall e :: 0 <= e < pe && e < |pm| ==> pm[e].End() <= start
    }

    /** The body of the loop of premap_priv_vmas; pe is where the page reader stands. */
    method PremapNext(k: nat, at: nat, pm: seq<PagemapEntry>, pe: nat, pieok: bool, ghost before: map<nat, Page>,
                      ghost at0: nat)
        returns (at': nat, pe': nat)
      requires PremapNow(vmas, areas, pareas, before, memory, pieok, at0, at, k)
      requires ParentReady(vmas, pvmas, pareas, at0)
      requires k < |vmas| && forall l :: 0 <= l < |vmas| ==> vmas[l].start < vmas[l].end
      requires SortedPagemap(pm) && (pm != [] ==> pe < |pm|) && (ToLeave(vmas, k, pieok) ==> pm != [])
      requires Below(pm, pe, vmas[k].start) && UnwrittenSo(pm, vmas, areas, pieok, k)
      modifies this`areas, this`memory
      ensures PremapNow(vmas, areas, pareas, before, memory, pieok, at0, at', k + 1)
      ensures UnwrittenSo(pm, vmas, areas, pieok, k + 1)
      ensures (pm != [] ==> pe' < |pm|) && Below(pm, pe', vmas[k].start)
    {
      at', pe' := at, pe;
      if !vmas[k].priv {
        LeaveVma(k, false, at, before, pieok, at0);
      } else if vmas[k].pvma == NotShared && pieok && !ForcePremap(vmas, k) {
        var noWrite: bool;
        pe', noWrite := CheckWrite(pm, pe, vmas[k]);
        LeaveVma(k, noWrite, at, before, pieok, at0);
      } else {
        at' := PremapPrivateVma(k, at, before, pieok, at0);
      }
    }

    /** The loop of premap_priv_vmas has come to area k; pstart is the start of the one before. */
    ghost predicate Premapping(k: nat, pstart: nat, at: nat, pm: seq<PagemapEntry>, pe: nat, pieok: bool,
                               before: map<nat, Page>, at0: nat)
      reads this
    {
      && PremapNow(vmas, areas, pareas, before, memory, pieok, at0, at, k) && UnwrittenSo(pm, vmas, areas, pieok, k)
      && (pm != [] ==> pe < |pm|) && Below(pm, pe, pstart) && AscendsTo(vmas, k, pstart)
      && k <= |vmas| && (pm == [] ==> forall l :: 0 <= l < k ==> !ToLeave(vmas, l, pieok))
    }

    /** One turn of the loop that goes through. */
    method PremapTurn(k: nat, ghost pstart: nat, at: nat, pm: seq<PagemapEntry>, pe: nat, pieok: bool,
                      ghost before: map<nat, Page>, ghost at0: nat) returns (at': nat, pe': nat)
      requires Premapping(k, pstart, at, pm, pe, pieok, before, at0) && ParentReady(vmas, pvmas, pareas, at0)
      requires k < |vmas| && SortedPagemap(pm) && forall l :: 0 <= l < |vmas| ==> vmas[l].start < vmas[l].end
      requires pstart <= vmas[k].start && (ToLeave(vmas, k, pieok) ==> pm != [])
      modifies this`areas, this`memory
      ensures Premapping(k + 1, vmas[k].start, at', pm, pe', pieok, before, at0)
    {
      at', pe' := PremapNext(k, at, pm, pe, pieok, before, at0);
    }

    /** premap_priv_vmas; `pieok` says that the restorer may read the images itself.  It fails if the areas descend, and
        the task dies where it looks at a pagemap without entries. */
    method PremapPrivVmas(at0: nat, pm: seq<PagemapEntry>, pieok: bool) returns (ok: bool, at: nat)
      requires SortedPagemap(pm) && ParentReady(vmas, pvmas, pareas, at0)
      requires PremapNow(vmas, areas, pareas, memory, memory, pieok, at0, at0, 0)
      requires UnwrittenSo(pm, vmas, areas, pieok, 0)
      requires forall l :: 0 <= l < |vmas| ==> vmas[l].start < vmas[l].end
      modifies this`areas, this`memory
      ensures ok <==> NotDescending(vmas) && EntryThere(vmas, pm, pieok)
      ensures ok ==>
                PremapNow(vmas, areas, pareas, old(memory), memory, pieok, at0, at, |vmas|)
                    && UnwrittenSo(pm, vmas, areas, pieok, |vmas|)
    {
      EntryThereIff(vmas, pm, pieok);
      ghost var before := memory;
      var pstart: nat, pe: nat := 0, 0;
      ok, at := true, at0;
      for k := 0 to |vmas|
        invariant Premapping(k, pstart, at, pm, pe, pieok, before, at0)
      {
        if pstart > vmas[k].start || (ToLeave(vmas, k, pieok) && pm == []) {
          return false, at;
        }
        at, pe := PremapTurn(k, pstart, at, pm, pe, pieok, before, at0);
        pstart := vmas[k].start;
      }
    }

    /** Everything up to the content pass: the areas are mapped and nothing of the images is in them yet. */
    method PremapTask(at0: nat, pm: seq<PagemapEntry>, ghost lazyPages: bool, pieok: bool) returns (ok: bool)
      requires WellFormed(vmas) && SortedPagemap(pm)
      requires ParentReady(vmas, pvmas, pareas, at0) && Marked(pvmas, pareas, memory)
      requires forall a :: a in memory ==> a < at0 || at0 + PrivateSize(vmas) <= a
      requires areas == Unmapped(vmas) && queued == map[] && copied == {}
      modifies this`areas, this`memory
      ensures ok <==> NotDescending(vmas) && EntryThere(vmas, pm, pieok)
      ensures ok ==> Now(ImageOf(pm, lazyPages), memory, 0) && MappedSo(vmas, areas, pareas, pieok)
      ensures ok ==> ShowsParent(fs, vmas, areas, pareas, old(memory), memory)
    {
      ghost var before := memory;
      FreshStart(vmas, pvmas, areas, pareas, memory, pieok, at0);
      var at: nat;
      ok, at := PremapPrivVmas(at0, pm, pieok);
      if ok {
        SortedAtLast(vmas);
        ContentStart(fs, vmas, pvmas, areas, pareas, before, memory, ImageOf(pm, lazyPages), pieok, at0, at);
        UnwrittenUnlisted(pm, lazyPages, vmas, areas, pieok);
        StartCopies(fs, vmas, areas, memory, ImageOf(pm, lazyPages));
        PremappedShows(fs, vmas, areas, pareas, before, memory, pieok, at0, at);
      }
    }

    /** prepare_mappings: reserve, premap, restore.  `at0` is where the kernel reserved the region. */
    method PrepareMappings(at0: nat, pm: seq<PagemapEntry>, lazyPages: bool, pieok: bool) returns (ok: bool)
      requires vmas != [] && WellFormed(vmas) && SortedPagemap(pm)
      requires PrivateSize(vmas) > 0 ==> ParentReady(vmas, pvmas, pareas, at0) && Marked(pvmas, pareas, memory)
      requires forall a :: a in memory ==> a < at0 || at0 + PrivateSize(vmas) <= a
      requires areas == Unmapped(vmas) && queued == map[] && copied == {}
      modifies this
      ensures ok <==> PrivateSize(vmas) > 0 && NotDescending(vmas) && EntryThere(vmas, pm, pieok)
                      && forall a :: a in ImageOf(pm, lazyPages) ==> InPrivate(vmas, a)
      ensures ok ==> TaskRestored(fs, vmas, areas, memory, ImageOf(pm, lazyPages))
      ensures ok ==> LeftToRestorer(vmas, areas, queued, ImageOf(pm, lazyPages))
      ensures ok ==> MappedSo(vmas, areas, old(pareas), pieok)
      ensures ok ==> KeepsShared(fs, vmas, areas, old(pareas), old(memory), copied, ImageOf(pm, lazyPages))
    {
      ghost var parents, before := pareas, memory;
      if PrivateSize(vmas) == 0 {
        return false;   // mmap refuses to reserve nothing
      }
      ok := PremapTask(at0, pm, lazyPages, pieok);
      if ok {
        SharedAreMapped(vmas, pvmas, areas, pareas, pieok);
        ok := RestorePrivVmaContent(pm, lazyPages, parents, before);
      }
    }
  }
}
