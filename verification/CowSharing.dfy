/** Which inherited pages stay shared with the parent through the content pass (criu/mem.c,
    restore_priv_vma_content). */
module CowSharing {
  import opened CowMemory
  import opened CowPremap
  import opened CowContent

  ghost predicate SameAt(before: map<nat, Page>, memory: map<nat, Page>, a: nat) {
    (a in memory <==> a in before) && (a in memory ==> memory[a] == before[a])
  }

  /** One page when the pass has come to va: it is written if and only if it is listed and differs from what the parent
      showed there, and otherwise it still is the parent's. */
  ghost predicate CopyNow(fs: Files, vma: Vma, area: Area, base: map<nat, Page>, memory: map<nat, Page>,
                          copied: set<nat>, image: map<nat, Page>, va: nat, o: nat) {
    && (area.addr + o in copied <==>
        vma.start + o in image && vma.start + o < va && Visible(fs, base, area, o) != image[vma.start + o])
    && (area.addr + o !in copied ==> SameAt(base, memory, area.addr + o))
  }

  ghost predicate AreaCopies(fs: Files, vma: Vma, area: Area, base: map<nat, Page>, memory: map<nat, Page>,
                             copied: set<nat>, image: map<nat, Page>, va: nat) {
    forall o :: 0 <= o < vma.Len() ==> CopyNow(fs, vma, area, base, memory, copied, image, va, o)
  }

  ghost predicate Copies(fs: Files, vmas: seq<Vma>, areas: seq<Area>, base: map<nat, Page>, memory: map<nat, Page>,
                         copied: set<nat>, image: map<nat, Page>, va: nat) {
    && |areas| == |vmas|
    && forall k :: 0 <= k < |vmas| && IsInherited(vmas[k]) && areas[k].premapped ==>
         AreaCopies(fs, vmas[k], areas[k], base, memory, copied, image, va)
  }

  /** Nothing happens to the pages of an area while the pass moves on elsewhere. */
  lemma OtherCopies(fs: Files, vma: Vma, area: Area, base: map<nat, Page>, memory: map<nat, Page>,
                    memory': map<nat, Page>, copied: set<nat>, copied': set<nat>, image: map<nat, Page>, va: nat,
                        va': nat)
    requires AreaCopies(fs, vma, area, base, memory, copied, image, va) && va <= va'
    requires forall a :: a in image && va <= a < va' ==> !vma.Holds(a)
    requires forall a :: area.addr <= a < area.addr + vma.Len() ==>
               SameAt(memory, memory', a) && (a in copied' <==> a in copied)
    ensures AreaCopies(fs, vma, area, base, memory', copied', image, va')
  {
    forall o | 0 <= o < vma.Len() ensures CopyNow(fs, vma, area, base, memory', copied', image, va', o) {
      assert CopyNow(fs, vma, area, base, memory, copied, image, va, o);
      assert SameAt(memory, memory', area.addr + o) && vma.Holds(vma.start + o);
    }
  }

  /** The page at va itself. */
  lemma OwnCopy(fs: Files, vma: Vma, area: Area, area': Area, base: map<nat, Page>, memory: map<nat, Page>,
                memory': map<nat, Page>, copied: set<nat>, copied': set<nat>, image: map<nat, Page>, va: nat, va': nat,
                o: nat)
    requires AreaCopies(fs, vma, area, base, memory, copied, image, va) && vma.Holds(va) && va in image && va' == va + 1
    requires o == va - vma.start && area' == area.(bits := area'.bits)
    requires memory' == AfterCompare(fs, memory, area, o, image[va])
    requires copied' == if Visible(fs, memory, area, o) == image[va] then copied else copied + {area.addr + o}
    ensures AreaCopies(fs, vma, area', base, memory', copied', image, va')
  {
    assert CopyNow(fs, vma, area, base, memory, copied, image, va, o);
    forall p | 0 <= p < vma.Len() ensures CopyNow(fs, vma, area', base, memory', copied', image, va', p) {
      assert CopyNow(fs, vma, area, base, memory, copied, image, va, p);
    }
  }

  /** Pages of area k are none of any other premapped area, neither in the images nor in memory. */
  lemma Elsewhere(vmas: seq<Vma>, areas: seq<Area>, k: nat, l: nat, a: nat)
    requires SortedVmas(vmas) && DisjointAreas(vmas, areas) && k < |vmas| && l < |vmas| && l != k
    ensures vmas[k].Holds(a) ==> !vmas[l].Holds(a)
    ensures areas[l].premapped && areas[l].addr <= a < areas[l].addr + vmas[l].Len() ==> !InArea(vmas, areas, k, a)
  {
  }

  /** An inherited page is compared, and written only if it differs. */
  lemma InheritedCopy(fs: Files, vmas: seq<Vma>, areas: seq<Area>, areas': seq<Area>, base: map<nat, Page>,
                      memory: map<nat, Page>, memory': map<nat, Page>, copied: set<nat>, copied': set<nat>,
                      image: map<nat, Page>, k: nat, va: nat, va': nat, o: nat)
    requires SortedVmas(vmas) && DisjointAreas(vmas, areas) && Copies(fs, vmas, areas, base, memory, copied, image, va)
    requires k < |vmas| && areas[k].premapped && IsInherited(vmas[k]) && vmas[k].Holds(va) && va in image
    requires va' == va + 1
    requires o == va - vmas[k].start && areas' == areas[k := areas[k].(bits := areas[k].bits + {o})]
    requires memory' == AfterCompare(fs, memory, areas[k], o, image[va])
    requires copied' == if Visible(fs, memory, areas[k], o) == image[va] then copied else copied + {areas[k].addr + o}
    ensures Copies(fs, vmas, areas', base, memory', copied', image, va')
  {
    forall l | 0 <= l < |vmas| && IsInherited(vmas[l]) && areas'[l].premapped
      ensures AreaCopies(fs, vmas[l], areas'[l], base, memory', copied', image, va')
    {
      if l == k {
        OwnCopy(fs, vmas[k], areas[k], areas'[k], base, memory, memory', copied, copied', image, va, va', o);
      } else {
        Elsewhere(vmas, areas, k, l, va);
        forall a | areas[l].addr <= a < areas[l].addr + vmas[l].Len()
          ensures SameAt(memory, memory', a) && (a in copied' <==> a in copied)
        {
          Elsewhere(vmas, areas, k, l, a);
          assert InArea(vmas, areas, k, areas[k].addr + o);
        }
        OtherCopies(fs, vmas[l], areas[l], base, memory, memory', copied, copied', image, va, va');
      }
    }
  }

  /** A run of pages of an area of its own, which are all written. */
  lemma {:induction false} FreshCopies(fs: Files, vmas: seq<Vma>, areas: seq<Area>, areas': seq<Area>,
                                       base: map<nat, Page>,
                    memory: map<nat, Page>, memory': map<nat, Page>, copied: set<nat>, copied': set<nat>,
                    image: map<nat, Page>, k: nat, va: nat, va': nat, at: nat, pages: seq<Page>)
    requires SortedVmas(vmas) && DisjointAreas(vmas, areas) && Copies(fs, vmas, areas, base, memory, copied, image, va)
    requires k < |vmas| && areas[k].premapped && !IsInherited(vmas[k]) && Inside(vmas, k, va, |pages|)
    requires at == areas[k].addr + va - vmas[k].start && va' == va + |pages| && Written(memory, memory', at, pages)
    requires |areas'| == |areas| && areas' == areas[k := areas[k].(bits := areas'[k].bits)]
    requires copied' == copied + Range(at, |pages|)
    ensures Copies(fs, vmas, areas', base, memory', copied', image, va')
  {
    forall l | 0 <= l < |vmas| && IsInherited(vmas[l]) && areas'[l].premapped
      ensures AreaCopies(fs, vmas[l], areas'[l], base, memory', copied', image, va')
    {
      forall a | areas[l].addr <= a < areas[l].addr + vmas[l].Len()
        ensures SameAt(memory, memory', a) && (a in copied' <==> a in copied)
      {
        Elsewhere(vmas, areas, k, l, a);
        assert InArea(vmas, areas, k, a) <==> areas[k].addr <= a < areas[k].addr + vmas[k].Len();
      }
      PassedElsewhere(vmas, areas, k, l, va, va');
      OtherCopies(fs, vmas[l], areas[l], base, memory, memory', copied, copied', image, va, va');
    }
  }

  lemma PassedElsewhere(vmas: seq<Vma>, areas: seq<Area>, k: nat, l: nat, va: nat, va': nat)
    requires SortedVmas(vmas) && DisjointAreas(vmas, areas) && k < |vmas| && l < |vmas| && l != k
    requires vmas[k].start <= va <= va' <= vmas[k].end
    ensures forall a: nat :: va <= a < va' ==> !vmas[l].Holds(a)
  {
    forall a: nat | va <= a < va' ensures !vmas[l].Holds(a) { Elsewhere(vmas, areas, k, l, a); }
  }

  /** Pages listed for the restorer. */
  lemma QueuedCopies(fs: Files, vmas: seq<Vma>, areas: seq<Area>, base: map<nat, Page>, memory: map<nat, Page>,
                     copied: set<nat>, image: map<nat, Page>, k: nat, va: nat, va': nat)
    requires SortedVmas(vmas) && DisjointAreas(vmas, areas) && Copies(fs, vmas, areas, base, memory, copied, image, va)
    requires k < |vmas| && !areas[k].premapped && vmas[k].start <= va <= va' <= vmas[k].end
    ensures Copies(fs, vmas, areas, base, memory, copied, image, va')
  {
    forall l | 0 <= l < |vmas| && IsInherited(vmas[l]) && areas[l].premapped
      ensures AreaCopies(fs, vmas[l], areas[l], base, memory, copied, image, va')
    {
      PassedElsewhere(vmas, areas, k, l, va, va');
      OtherCopies(fs, vmas[l], areas[l], base, memory, memory, copied, copied, image, va, va');
    }
  }

  lemma GapCopies(fs: Files, vmas: seq<Vma>, areas: seq<Area>, base: map<nat, Page>, memory: map<nat, Page>,
                  copied: set<nat>, image: map<nat, Page>, va: nat, va': nat)
    requires Copies(fs, vmas, areas, base, memory, copied, image, va) && va <= va'
    requires forall a :: va <= a < va' ==> a !in image
    ensures Copies(fs, vmas, areas, base, memory, copied, image, va')
  {
    forall l | 0 <= l < |vmas| && IsInherited(vmas[l]) && areas[l].premapped
      ensures AreaCopies(fs, vmas[l], areas[l], base, memory, copied, image, va')
    {
      OtherCopies(fs, vmas[l], areas[l], base, memory, memory, copied, copied, image, va, va');
    }
  }

  lemma StartCopies(fs: Files, vmas: seq<Vma>, areas: seq<Area>, memory: map<nat, Page>, image: map<nat, Page>)
    requires |areas| == |vmas|
    ensures Copies(fs, vmas, areas, memory, memory, {}, image, 0)
  {
    forall l | 0 <= l < |vmas| && IsInherited(vmas[l]) && areas[l].premapped
      ensures AreaCopies(fs, vmas[l], areas[l], memory, memory, {}, image, 0)
    {
    }
  }

  // ----- in terms of the parent

  /** An inherited page is written if and only if it is listed and differs from what the parent shows there. */
  ghost predicate WrittenIffDiffers(fs: Files, vma: Vma, area: Area, parent: Area, before: map<nat, Page>,
                                    copied: set<nat>, image: map<nat, Page>, o: nat) {
    area.addr + o in copied <==>
      vma.start + o in image && Visible(fs, before, parent, o) != image[vma.start + o]
  }

  ghost predicate AreaShared(fs: Files, vma: Vma, area: Area, pareas: seq<Area>, before: map<nat, Page>,
                             copied: set<nat>, image: map<nat, Page>) {
    vma.pvma.Inherited? && vma.pvma.index < |pareas| && forall o :: 0 <= o < vma.Len() ==>
      WrittenIffDiffers(fs, vma, area, pareas[vma.pvma.index], before, copied, image, o)
  }

  /** So it is for all pages of all inherited areas. */
  ghost predicate KeepsShared(fs: Files, vmas: seq<Vma>, areas: seq<Area>, pareas: seq<Area>, before: map<nat, Page>,
                              copied: set<nat>, image: map<nat, Page>) {
    && |areas| == |vmas|
    && forall k :: 0 <= k < |vmas| && IsInherited(vmas[k]) && areas[k].premapped ==>
         AreaShared(fs, vmas[k], areas[k], pareas, before, copied, image)
  }

  /** Premapping does not change what a page shows. */
  ghost predicate ShownAs(fs: Files, vma: Vma, area: Area, pareas: seq<Area>, before: map<nat, Page>,
                          base: map<nat, Page>) {
    vma.pvma.Inherited? && vma.pvma.index < |pareas| && forall o :: 0 <= o < vma.Len() ==>
      Visible(fs, base, area, o) == Visible(fs, before, pareas[vma.pvma.index], o)
  }

  ghost predicate ShowsParent(fs: Files, vmas: seq<Vma>, areas: seq<Area>, pareas: seq<Area>, before: map<nat, Page>,
                              base: map<nat, Page>) {
    && |areas| == |vmas|
    && forall k :: 0 <= k < |vmas| && IsInherited(vmas[k]) && areas[k].premapped ==>
         ShownAs(fs, vmas[k], areas[k], pareas, before, base)
  }

  lemma PremappedShows(fs: Files, vmas: seq<Vma>, areas: seq<Area>, pareas: seq<Area>, before: map<nat, Page>,
                       base: map<nat, Page>, pieok: bool, at0: nat, at: nat)
    requires PremapNow(vmas, areas, pareas, before, base, pieok, at0, at, |vmas|)
    ensures ShowsParent(fs, vmas, areas, pareas, before, base)
  {
    forall k | 0 <= k < |vmas| && IsInherited(vmas[k]) && areas[k].premapped
      ensures ShownAs(fs, vmas[k], areas[k], pareas, before, base)
    {
      assert Sourced(vmas[k], areas[k], pareas) && Carried(vmas[k], areas[k], pareas, before, base);
      var parent := pareas[vmas[k].pvma.index];
      forall o | 0 <= o < vmas[k].Len() ensures Visible(fs, base, areas[k], o) == Visible(fs, before, parent, o) {
        assert SamePage(before, base, parent.addr, areas[k].addr, o);
      }
    }
  }

  lemma CopiesKeepShared(fs: Files, vmas: seq<Vma>, areas: seq<Area>, areas': seq<Area>, pareas: seq<Area>,
                         before: map<nat, Page>, base: map<nat, Page>, memory: map<nat, Page>, copied: set<nat>,
                         image: map<nat, Page>, end: nat)
    requires ShowsParent(fs, vmas, areas, pareas, before, base)
    requires |areas'| == |areas| && forall l :: 0 <= l < |areas| ==> areas'[l] == areas[l].(bits := areas'[l].bits)
    requires Copies(fs, vmas, areas', base, memory, copied, image, end) && forall a :: a in image ==> a < end
    ensures KeepsShared(fs, vmas, areas', pareas, before, copied, image)
  {
    forall k | 0 <= k < |vmas| && IsInherited(vmas[k]) && areas'[k].premapped
      ensures AreaShared(fs, vmas[k], areas'[k], pareas, before, copied, image)
    {
      assert AreaCopies(fs, vmas[k], areas'[k], base, memory, copied, image, end);
      assert ShownAs(fs, vmas[k], areas[k], pareas, before, base);
      forall o | 0 <= o < vmas[k].Len()
        ensures WrittenIffDiffers(fs, vmas[k], areas'[k], pareas[vmas[k].pvma.index], before, copied, image, o)
      {
        assert CopyNow(fs, vmas[k], areas'[k], base, memory, copied, image, end, o);
        assert Visible(fs, base, areas[k], o) == Visible(fs, before, pareas[vmas[k].pvma.index], o);
      }
    }
  }
}
