/** Premapping of private areas (criu/mem.c, premap_priv_vmas). */
module CowPremap {
  import opened CowMemory

  /** vma_force_premap. */
  predicate ForcePremap(vmas: seq<Vma>, k: nat)
    requires k < |vmas|
  {
    vmas[k].growsdown && k > 0 && vmas[k - 1].end == vmas[k].start
  }

  /** The private areas that are mapped now; the others are left to the restorer. */
  predicate ToPremap(vmas: seq<Vma>, k: nat, pieok: bool)
    requires k < |vmas|
  {
    vmas[k].priv && !(vmas[k].pvma == NotShared && pieok && !ForcePremap(vmas, k))
  }

  /** The private areas that are left to the restorer; the pagemap is looked at to see whether they are written. */
  predicate ToLeave(vmas: seq<Vma>, k: nat, pieok: bool)
    requires k < |vmas|
  {
    vmas[k].priv && vmas[k].pvma == NotShared && pieok && !ForcePremap(vmas, k)
  }

  /** The pagemap has an entry if it is looked at: otherwise the task reads through NULL. */
  ghost predicate EntryThere(vmas: seq<Vma>, pm: seq<PagemapEntry>, pieok: bool) {
    pm != [] || forall k :: 0 <= k < |vmas| && vmas[k].priv && vmas[k].pvma == NotShared && pieok ==>
      vmas[k].growsdown && k > 0 && vmas[k - 1].end == vmas[k].start
  }

  lemma EntryThereIff(vmas: seq<Vma>, pm: seq<PagemapEntry>, pieok: bool)
    ensures EntryThere(vmas, pm, pieok) <==> pm != [] || forall k :: 0 <= k < |vmas| ==> !ToLeave(vmas, k, pieok)
  {
    assert forall k :: 0 <= k < |vmas| ==> (ToLeave(vmas, k, pieok) <==>
      vmas[k].priv && vmas[k].pvma == NotShared && pieok && !ForcePremap(vmas, k));
  }

  /** The first i areas are laid out one after the other in [at0, at). */
  ghost predicate Placed(vmas: seq<Vma>, areas: seq<Area>, pieok: bool, at0: nat, at: nat, i: nat) {
    && |areas| == |vmas| && i <= |vmas| && at0 <= at <= at0 + PrivateSize(vmas[..i])
    && (forall l :: 0 <= l < |vmas| ==>
        areas[l].premapped == (l < i && ToPremap(vmas, l, pieok)) && areas[l].bits == {})
    && (forall l :: 0 <= l < i && areas[l].premapped ==> at0 <= areas[l].addr && areas[l].addr + vmas[l].Len() <= at)
    && DisjointAreas(vmas, areas)
  }

  /** An inherited area shows what the parent's area shows; any other area shows its own file, or zeroes. */
  predicate Sourced(vma: Vma, area: Area, pareas: seq<Area>) {
    if IsInherited(vma) then vma.pvma.index < |pareas| && area.source == pareas[vma.pvma.index].source
    else area.source == vma.Source()
  }

  /** Area l has exactly the private pages of the parent's area, or none. */
  ghost predicate Carried(vma: Vma, area: Area, pareas: seq<Area>, before: map<nat, Page>, memory: map<nat, Page>) {
    if IsInherited(vma) then vma.pvma.index < |pareas|
        && SamePages(before, memory, pareas[vma.pvma.index].addr, area.addr, vma.Len())
    else forall o :: 0 <= o < vma.Len() ==> NoPage(memory, area.addr, o)
  }

  /** n pages of `memory` at `to` are the pages of `before` at `from`. */
  ghost predicate SamePages(before: map<nat, Page>, memory: map<nat, Page>, from: nat, to: nat, n: int) {
    forall o :: 0 <= o < n ==> SamePage(before, memory, from, to, o)
  }

  ghost predicate SamePage(before: map<nat, Page>, memory: map<nat, Page>, from: nat, to: nat, o: nat) {
    (to + o in memory <==> from + o in before) && (to + o in memory ==> memory[to + o] == before[from + o])
  }

  predicate NoPage(memory: map<nat, Page>, addr: nat, o: nat) { addr + o !in memory }

  /** What fork hands down: the parent's areas lie apart from each other and from the new region. */
  ghost predicate ParentReady(vmas: seq<Vma>, pvmas: seq<Vma>, pareas: seq<Area>, at0: nat) {
    && DisjointAreas(pvmas, pareas) && ValidLinks(vmas, pvmas) && DistinctLinks(vmas)
    && (forall j :: 0 <= j < |pvmas| && pvmas[j].priv && pvmas[j].pvma != NotShared ==> pareas[j].premapped)
    && (forall j :: 0 <= j < |pvmas| && pareas[j].premapped ==>
          pareas[j].addr + pvmas[j].Len() <= at0 || at0 + PrivateSize(vmas) <= pareas[j].addr)
  }

  /** Premapping has come to area i. */
  ghost predicate PremapNow(vmas: seq<Vma>, areas: seq<Area>, pareas: seq<Area>, before: map<nat, Page>,
                            memory: map<nat, Page>,
                            pieok: bool, at0: nat, at: nat, i: nat) {
    && Placed(vmas, areas, pieok, at0, at, i)
    && (forall l :: 0 <= l < i && areas[l].premapped ==>
        Sourced(vmas[l], areas[l], pareas) && Carried(vmas[l], areas[l], pareas, before, memory))
    && (forall l :: i <= l < |vmas| && IsInherited(vmas[l]) ==>
          vmas[l].pvma.index < |pareas|
          && SamePages(before, memory, pareas[vmas[l].pvma.index].addr, pareas[vmas[l].pvma.index].addr, vmas[l].Len()))
    && (forall a :: a in memory && at <= a ==> at0 + PrivateSize(vmas) <= a)
  }

  lemma {:induction false} PrivateSizeGrows(vmas: seq<Vma>, i: nat)
    requires i <= |vmas|
    ensures PrivateSize(vmas[..i]) <= PrivateSize(vmas)
    decreases |vmas| - i
  {
    if i < |vmas| {
      assert vmas[..i + 1][..i] == vmas[..i];
      PrivateSizeGrows(vmas, i + 1);
    } else {
      assert vmas[..i] == vmas;
    }
  }

  /** Area k fits: the layout after it. */
  lemma {:induction false} PlacedNext(vmas: seq<Vma>, areas: seq<Area>, areas': seq<Area>, pieok: bool, at0: nat,
                                      at: nat, at': nat, k: nat)
    requires Placed(vmas, areas, pieok, at0, at, k) && k < |vmas| && vmas[k].start < vmas[k].end
    requires |areas'| == |areas| && forall l :: 0 <= l < |areas| && l != k ==> areas'[l] == areas[l]
    requires areas'[k].bits == {} && areas'[k].premapped == ToPremap(vmas, k, pieok)
    requires areas'[k].premapped ==> areas'[k].addr == at && at' == at + vmas[k].Len()
    requires !areas'[k].premapped ==> at' == at
    ensures Placed(vmas, areas', pieok, at0, at', k + 1) && at' <= at0 + PrivateSize(vmas)
  {
    assert vmas[..k + 1][..k] == vmas[..k];
    PrivateSizeGrows(vmas, k + 1);
  }

  /** An area of its own, or one left to the restorer. */
  lemma {:induction false} PremapOwn(vmas: seq<Vma>, pvmas: seq<Vma>, areas: seq<Area>, areas': seq<Area>,
                                     pareas: seq<Area>,
                  before: map<nat, Page>,
                  memory: map<nat, Page>, pieok: bool, at0: nat, at: nat, at': nat, k: nat)
    requires PremapNow(vmas, areas, pareas, before, memory, pieok, at0, at, k)
    requires k < |vmas| && Placed(vmas, areas', pieok, at0, at', k + 1) && at <= at' <= at0 + PrivateSize(vmas)
    requires forall l :: 0 <= l < |areas| && l != k ==> areas'[l] == areas[l]
    requires areas'[k].premapped ==> !IsInherited(vmas[k]) && areas'[k].source == vmas[k].Source()
    requires areas'[k].premapped ==> areas'[k].addr == at && at' == at + vmas[k].Len()
    ensures PremapNow(vmas, areas', pareas, before, memory, pieok, at0, at', k + 1)
  {
  }

  lemma MovedPages(vma: Vma, area: Area, pareas: seq<Area>, before: map<nat, Page>, memory: map<nat, Page>,
                   from: nat, to: nat, n: nat)
    requires Carried(vma, area, pareas, before, memory)
    requires from + n <= to || to + n <= from
    requires forall a :: a in memory ==> a < to || to + n <= a
    requires area.addr + vma.Len() <= to && (area.addr + vma.Len() <= from || from + n <= area.addr)
    ensures Carried(vma, area, pareas, before, Moved(memory, from, to, n))
  {
    var memory' := Moved(memory, from, to, n);
    forall o | 0 <= o < vma.Len() ensures SamePage(memory, memory', area.addr, area.addr, o) { }
    if IsInherited(vma) {
      var paddr := pareas[vma.pvma.index].addr;
      forall o | 0 <= o < vma.Len() ensures SamePage(before, memory', paddr, area.addr, o) {
        assert SamePage(before, memory, paddr, area.addr, o);
        assert SamePage(memory, memory', area.addr, area.addr, o);
      }
    } else {
      forall o | 0 <= o < vma.Len() ensures NoPage(memory', area.addr, o) {
        assert NoPage(memory, area.addr, o);
        assert SamePage(memory, memory', area.addr, area.addr, o);
      }
    }
  }

  /** The area that mremap brings in. */
  lemma MovedArea(before: map<nat, Page>, memory: map<nat, Page>, from: nat, to: nat, n: nat)
    requires SamePages(before, memory, from, from, n)
    requires from + n <= to || to + n <= from
    requires forall a :: a in memory ==> a < to || to + n <= a
    ensures SamePages(before, Moved(memory, from, to, n), from, to, n)
  {
    forall o | 0 <= o < n ensures SamePage(before, Moved(memory, from, to, n), from, to, o) {
      assert SamePage(before, memory, from, from, o);
    }
  }

  /** Another area of the parent, which stays. */
  lemma StayingArea(before: map<nat, Page>, memory: map<nat, Page>, from: nat, to: nat, n: nat, other: nat, len: int)
    requires SamePages(before, memory, other, other, len)
    requires from + n <= to || to + n <= from
    requires forall a :: a in memory ==> a < to || to + n <= a
    requires other + len <= from || from + n <= other
    requires other + len <= to || to + n <= other
    ensures SamePages(before, Moved(memory, from, to, n), other, other, len)
  {
    forall o | 0 <= o < len ensures SamePage(before, Moved(memory, from, to, n), other, other, o) {
      assert SamePage(before, memory, other, other, o);
    }
  }

  /** Where the parent's area of an inherited one lies. */
  lemma {:induction false} LinkedArea(vmas: seq<Vma>, pvmas: seq<Vma>, pareas: seq<Area>, at0: nat, k: nat, paddr: nat)
    requires ParentReady(vmas, pvmas, pareas, at0) && k < |vmas| && IsInherited(vmas[k]) && vmas[k].start < vmas[k].end
    requires vmas[k].pvma.index < |pareas| && paddr == pareas[vmas[k].pvma.index].addr
    ensures vmas[k].priv && (paddr + vmas[k].Len() <= at0 || at0 + PrivateSize(vmas) <= paddr)
  {
  }

  lemma LinkedApart(vmas: seq<Vma>, pvmas: seq<Vma>, pareas: seq<Area>, at0: nat, k: nat, l: nat)
    requires ParentReady(vmas, pvmas, pareas, at0) && k < l < |vmas| && IsInherited(vmas[k]) && IsInherited(vmas[l])
    ensures var i, j := vmas[k].pvma.index, vmas[l].pvma.index;
            i < |pareas| && j < |pareas|
            && (pareas[i].addr + vmas[k].Len() <= pareas[j].addr || pareas[j].addr + vmas[l].Len() <= pareas[i].addr)
  {
    var i, j := vmas[k].pvma.index, vmas[l].pvma.index;
    assert i != j && pvmas[i].Len() == vmas[k].Len() && pvmas[j].Len() == vmas[l].Len();
  }

  /** An inherited area: the parent's mapping is moved to `at`. */
  lemma {:induction false} PremapInherited(vmas: seq<Vma>, pvmas: seq<Vma>, areas: seq<Area>, areas': seq<Area>,
                                           pareas: seq<Area>,
                        before: map<nat, Page>,
                        memory: map<nat, Page>, memory': map<nat, Page>, pieok: bool, at0: nat, at: nat, at': nat,
                            k: nat, paddr: nat)
    requires PremapNow(vmas, areas, pareas, before, memory, pieok, at0, at, k) && ParentReady(vmas, pvmas, pareas, at0)
    requires k < |vmas| && Placed(vmas, areas', pieok, at0, at', k + 1) && at' <= at0 + PrivateSize(vmas)
    requires forall l :: 0 <= l < |vmas| ==> vmas[l].start < vmas[l].end
    requires forall l :: 0 <= l < |areas| && l != k ==> areas'[l] == areas[l]
    requires IsInherited(vmas[k]) && paddr == pareas[vmas[k].pvma.index].addr
    requires areas'[k].source == pareas[vmas[k].pvma.index].source
    requires areas'[k].premapped && areas'[k].addr == at && at' == at + vmas[k].Len()
    requires (paddr + vmas[k].Len() <= at || at' <= paddr) && memory' == Moved(memory, paddr, at, vmas[k].Len())
    ensures PremapNow(vmas, areas', pareas, before, memory', pieok, at0, at', k + 1)
  {
    LinkedArea(vmas, pvmas, pareas, at0, k, paddr);
    forall l | 0 <= l <= k && areas'[l].premapped
      ensures Sourced(vmas[l], areas'[l], pareas) && Carried(vmas[l], areas'[l], pareas, before, memory')
    {
      if l < k { MovedPages(vmas[l], areas[l], pareas, before, memory, paddr, at, vmas[k].Len()); }
      else { MovedArea(before, memory, paddr, at, vmas[k].Len()); }
    }
    forall l | k < l < |vmas| && IsInherited(vmas[l])
      ensures vmas[l].pvma.index < |pareas|
      ensures var other := pareas[vmas[l].pvma.index].addr; SamePages(before, memory', other, other, vmas[l].Len())
    {
      var other := pareas[vmas[l].pvma.index].addr;
      LinkedArea(vmas, pvmas, pareas, at0, l, other);
      LinkedApart(vmas, pvmas, pareas, at0, k, l);
      StayingArea(before, memory, paddr, at, vmas[k].Len(), other, vmas[l].Len());
    }
  }

  /** One area of the loop that is not inherited. */
  lemma OwnStep(vmas: seq<Vma>, pvmas: seq<Vma>, areas: seq<Area>, area': Area, pareas: seq<Area>,
                before: map<nat, Page>,
                memory: map<nat, Page>, pieok: bool, at0: nat, at: nat, at': nat, k: nat)
    requires PremapNow(vmas, areas, pareas, before, memory, pieok, at0, at, k)
    requires k < |vmas| && vmas[k].start < vmas[k].end && k < |areas| && !(IsInherited(vmas[k]) && area'.premapped)
    requires area'.bits == areas[k].bits && area'.premapped == ToPremap(vmas, k, pieok)
    requires area'.premapped ==> area'.addr == at && area'.source == vmas[k].Source() && at' == at + vmas[k].Len()
    requires !area'.premapped ==> at' == at
    ensures PremapNow(vmas, areas[k := area'], pareas, before, memory, pieok, at0, at', k + 1)
  {
    PlacedNext(vmas, areas, areas[k := area'], pieok, at0, at, at', k);
    PremapOwn(vmas, pvmas, areas, areas[k := area'], pareas, before, memory, pieok, at0, at, at', k);
  }

  /** mremap may be called. */
  lemma {:induction false} MayMove(vmas: seq<Vma>, pvmas: seq<Vma>, areas: seq<Area>, pareas: seq<Area>,
                                   before: map<nat, Page>,
                memory: map<nat, Page>, pieok: bool, at0: nat, at: nat, k: nat, paddr: nat, n: nat)
    requires PremapNow(vmas, areas, pareas, before, memory, pieok, at0, at, k) && ParentReady(vmas, pvmas, pareas, at0)
    requires k < |vmas| && IsInherited(vmas[k]) && vmas[k].start < vmas[k].end && n == vmas[k].Len()
    requires paddr == pareas[vmas[k].pvma.index].addr
    ensures at + n <= at0 + PrivateSize(vmas) && (paddr + n <= at || at + n <= paddr)
    ensures forall a :: a in memory ==> a < at || at + n <= a
  {
    LinkedArea(vmas, pvmas, pareas, at0, k, paddr);
    assert vmas[..k + 1][..k] == vmas[..k];
    PrivateSizeGrows(vmas, k + 1);
  }

  /** One area of the loop that is inherited. */
  lemma InheritedStep(vmas: seq<Vma>, pvmas: seq<Vma>, areas: seq<Area>, area': Area, pareas: seq<Area>,
                      before: map<nat, Page>,
                      memory: map<nat, Page>, memory': map<nat, Page>, pieok: bool, at0: nat, at: nat, at': nat,
                          k: nat, parent: Area, n: nat)
    requires PremapNow(vmas, areas, pareas, before, memory, pieok, at0, at, k) && ParentReady(vmas, pvmas, pareas, at0)
    requires forall l :: 0 <= l < |vmas| ==> vmas[l].start < vmas[l].end
    requires k < |vmas| && IsInherited(vmas[k]) && ToPremap(vmas, k, pieok) && n == vmas[k].Len()
    requires parent == pareas[vmas[k].pvma.index] && at' == at + n
    requires area' == areas[k].(premapped := true, addr := at, source := parent.source)
    requires parent.addr + n <= at || at' <= parent.addr
    requires forall a :: a in memory ==> a < at || at + n <= a
    requires memory' == Moved(memory, parent.addr, at, n)
    ensures PremapNow(vmas, areas[k := area'], pareas, before, memory', pieok, at0, at', k + 1)
  {
    PlacedNext(vmas, areas, areas[k := area'], pieok, at0, at, at', k);
    PremapInherited(vmas, pvmas, areas, areas[k := area'], pareas, before, memory, memory', pieok, at0, at, at', k,
                    parent.addr);
  }

  /** The pages the parent holds privately are the marked ones. */
  ghost predicate Marked(vmas: seq<Vma>, areas: seq<Area>, memory: map<nat, Page>) {
    && |areas| == |vmas|
    && forall k, o ::
        0 <= k < |vmas| && areas[k].premapped && 0 <= o < vmas[k].Len() && !NoPage(memory, areas[k].addr, o) ==>
         o in areas[k].bits
  }

  /** No entry of the pagemap meets the area. */
  ghost predicate NoEntry(pm: seq<PagemapEntry>, vma: Vma) {
    forall e :: 0 <= e < |pm| ==> pm[e].End() <= vma.start || vma.end <= pm[e].vaddr
  }

  /** Some entry ends behind the start of the area, and all that do start behind its end. */
  ghost predicate SeenUnwritten(pm: seq<PagemapEntry>, vma: Vma) {
    && (exists e :: 0 <= e < |pm| && pm[e].End() > vma.start)
    && (forall e :: 0 <= e < |pm| ==> pm[e].End() <= vma.start || pm[e].vaddr > vma.end)
  }

  /** Of the first i areas exactly those are marked that are left to the restorer and are seen not to be written. */
  ghost predicate UnwrittenSo(pm: seq<PagemapEntry>, vmas: seq<Vma>, areas: seq<Area>, pieok: bool, i: nat) {
    && |areas| == |vmas|
    && forall l :: 0 <= l < |vmas| ==>
         (areas[l].noWrite <==> l < i && vmas[l].priv && !ToPremap(vmas, l, pieok) && SeenUnwritten(pm, vmas[l]))
  }

  /** The starts of the areas do not descend. */
  ghost predicate NotDescending(vmas: seq<Vma>) {
    forall k :: 0 < k < |vmas| ==> vmas[k - 1].start <= vmas[k].start
  }

  /** The check for VMA_NO_PROT_WRITE moves along the pagemap with the areas. */
  method CheckWrite(pm: seq<PagemapEntry>, pe0: nat, vma: Vma) returns (pe: nat, noWrite: bool)
    requires SortedPagemap(pm) && pe0 < |pm| && vma.start < vma.end
    requires forall e :: 0 <= e < pe0 ==> pm[e].End() <= vma.start
    ensures pe < |pm| && forall e :: 0 <= e < pe ==> pm[e].End() <= vma.start
    ensures noWrite <==> SeenUnwritten(pm, vma)
  {
    pe, noWrite := pe0, false;
    while pm[pe].End() <= vma.start
      invariant pe < |pm| && forall e :: 0 <= e < pe ==> pm[e].End() <= vma.start
      decreases |pm| - pe
    {
      if pe == |pm| - 1 { return; }
      pe := pe + 1;
    }
    noWrite := pm[pe].vaddr > vma.end;
    forall e | pe < e < |pm| ensures pm[e].vaddr > pm[pe].vaddr && pm[e].End() > pm[e].vaddr {
      assert pm[pe].pages != [] && pm[e].pages != [];
    }
  }
}
