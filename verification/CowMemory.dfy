/** Images of private memory and what they ask for (criu/mem.c).  Addresses count pages. */
module CowMemory {

  datatype Page = Page(bytes: seq<bv8>)

  /** What a mapping shows where it has no private page: zeroes, or a file from some page on. */
  datatype Source = Anonymous | File(shmid: nat, pgoff: nat)

  /** vma->pvma: NULL, VMA_COW_ROOT, or the area of the parent whose pages are inherited. */
  datatype Parent = NotShared | CowRoot | Inherited(index: nat)

  datatype Vma = Vma(start: nat, end: nat, priv: bool, anon: bool, growsdown: bool, shmid: nat, pgoff: nat,
                     pvma: Parent) {
    function Len(): int { end - start }

    function Source(): Source { if anon then Anonymous else File(shmid, pgoff) }

    predicate Holds(a: nat) { start <= a < end }
  }

  /** A pagemap entry with the contents of its pages. */
  datatype PagemapEntry = PagemapEntry(vaddr: nat, pages: seq<Page>, lazy: bool) {
    function End(): nat { vaddr + |pages| }
  }

  /** The changing part of struct vma_area, and what the kernel maps there. */
  datatype Area = Area(premapped: bool, addr: nat, bits: set<nat>, noWrite: bool, source: Source)

  /** The contents of the files that are mapped, by file and page number. */
  type Files = (nat, nat) -> Page

  function ZeroPage(): Page { Page(seq(4096, i => 0)) }

  function Backing(fs: Files, source: Source, o: nat): Page {
    match source
    case Anonymous => ZeroPage()
    case File(shmid, pgoff) => fs(shmid, pgoff + o)
  }

  /** What a reader sees at page o of an area: its private page if it has one, else the backing. */
  function Visible(fs: Files, memory: map<nat, Page>, area: Area, o: nat): Page {
    if area.addr + o in memory then memory[area.addr + o] else Backing(fs, area.source, o)
  }

  /** Sorted and disjoint areas, as the kernel lists them. */
  ghost predicate SortedVmas(vmas: seq<Vma>) {
    && (forall k :: 0 <= k < |vmas| ==> vmas[k].start < vmas[k].end)
    && (forall k, l :: 0 <= k < l < |vmas| ==> vmas[k].end <= vmas[l].start)
  }

  /** What page_read yields: non-empty entries in ascending order, not overlapping. */
  ghost predicate SortedPagemap(pm: seq<PagemapEntry>) {
    && (forall e :: 0 <= e < |pm| ==> pm[e].pages != [])
    && (forall e, g :: 0 <= e < g < |pm| ==> pm[e].End() <= pm[g].vaddr)
  }

  /** The numbers o .. o + n. */
  function Range(o: nat, n: nat): (r: set<nat>)
    ensures forall p :: p in r <==> o <= p < o + n
  {
    if n == 0 then {} else Range(o, n - 1) + {o + n - 1}
  }

  /** The pages of one run of addresses. */
  function Pages(vaddr: nat, pages: seq<Page>): map<nat, Page> {
    map a | a in Range(vaddr, |pages|) :: pages[a - vaddr]
  }

  /** memory' is memory with the given pages stored from `at` on. */
  ghost predicate Written(memory: map<nat, Page>, memory': map<nat, Page>, at: nat, pages: seq<Page>) {
    && (forall a :: at <= a < at + |pages| ==> a in memory' && memory'[a] == pages[a - at])
    && (forall a :: a in memory' && !(at <= a < at + |pages|) ==> a in memory && memory'[a] == memory[a])
    && (forall a :: a in memory && !(at <= a < at + |pages|) ==> a in memory')
  }

  /** Reading pages into memory from `at` on. */
  function Write(memory: map<nat, Page>, at: nat, pages: seq<Page>): (m: map<nat, Page>)
    ensures Written(memory, m, at, pages)
  {
    memory + Pages(at, pages)
  }

  predicate Skipped(pe: PagemapEntry, lazyPages: bool) { lazyPages && pe.lazy }

  /** The pages the images hold for this task, those served on demand left out. */
  function ImageOf(pm: seq<PagemapEntry>, lazyPages: bool): map<nat, Page> {
    if pm == [] then map[]
    else
      var n := |pm| - 1;
      ImageOf(pm[..n], lazyPages) + (if Skipped(pm[n], lazyPages) then map[] else Pages(pm[n].vaddr, pm[n].pages))
  }

  ghost predicate InPrivate(vmas: seq<Vma>, a: nat) {
    exists k :: 0 <= k < |vmas| && vmas[k].priv && vmas[k].Holds(a)
  }

  /** Size reserved for premapping: all private areas (rst_priv_size). */
  function PrivateSize(vmas: seq<Vma>): nat {
    if vmas == [] then 0
    else
      var n := |vmas| - 1;
      PrivateSize(vmas[..n]) + (if vmas[n].priv && vmas[n].Len() >= 0 then vmas[n].Len() else 0)
  }

  ghost predicate InArea(vmas: seq<Vma>, areas: seq<Area>, k: nat, a: nat)
    requires |areas| == |vmas| && k < |vmas|
  {
    areas[k].premapped && areas[k].addr <= a < areas[k].addr + vmas[k].Len()
  }

  /** Premapped areas do not overlap. */
  ghost predicate DisjointAreas(vmas: seq<Vma>, areas: seq<Area>) {
    && |areas| == |vmas|
    && forall k, l :: 0 <= k < l < |vmas| && areas[k].premapped && areas[l].premapped ==>
         areas[k].addr + vmas[k].Len() <= areas[l].addr || areas[l].addr + vmas[l].Len() <= areas[k].addr
  }

  /** Two areas may share pages copy-on-write (the start is compared by the caller). */
  predicate CheckCowVmas(vma: Vma, pvma: Vma) {
    && vma.end == pvma.end
    && vma.priv && pvma.priv
    && vma.growsdown == pvma.growsdown && vma.anon == pvma.anon
    && (!vma.anon ==> vma.shmid == pvma.shmid)
  }

  predicate IsInherited(vma: Vma) { vma.pvma.Inherited? }

  /** The links to the parent are ones prepare_cow_vmas makes. */
  ghost predicate ValidLinks(vmas: seq<Vma>, pvmas: seq<Vma>) {
    forall k :: 0 <= k < |vmas| && IsInherited(vmas[k]) ==>
      var j := vmas[k].pvma.index;
      && j < |pvmas| && vmas[k].start == pvmas[j].start && CheckCowVmas(vmas[k], pvmas[j])
      && pvmas[j].pvma != NotShared
  }

  /** No two areas inherit from the same area of the parent. */
  ghost predicate DistinctLinks(vmas: seq<Vma>) {
    forall k, l :: 0 <= k < l < |vmas| && IsInherited(vmas[k]) && IsInherited(vmas[l]) ==>
      vmas[k].pvma.index != vmas[l].pvma.index
  }

  /** The private pages of n pages at `from`, as seen at `to`. */
  function Shifted(memory: map<nat, Page>, from: nat, to: nat, n: nat): (m: map<nat, Page>)
    ensures forall a :: a in m <==> to <= a < to + n && a - to + from in memory
    ensures forall a :: a in m ==> m[a] == memory[a - to + from]
  {
    if n == 0 then map[]
    else
      var m := Shifted(memory, from, to, n - 1);
      if from + n - 1 in memory then m[to + n - 1 := memory[from + n - 1]] else m
  }

  /** mremap: the private pages of n pages at `from` move to `to`. */
  function Moved(memory: map<nat, Page>, from: nat, to: nat, n: nat): (m: map<nat, Page>)
    requires from + n <= to || to + n <= from
    requires forall a :: a in memory ==> a < to || to + n <= a
    ensures forall a {:trigger a in m} :: a in m <==>
              if to <= a < to + n then a - to + from in memory else a in memory && !(from <= a < from + n)
    ensures forall a :: a in m && to <= a < to + n ==> m[a] == memory[a - to + from]
    ensures forall a :: a in m && !(to <= a < to + n) ==> a in memory && m[a] == memory[a]
  {
    (map a | a in memory && !(from <= a < from + n) :: memory[a]) + Shifted(memory, from, to, n)
  }

  /** One page of area k is as the images ask: listed pages hold their contents and are marked in the
      bitmap; every other page has no private copy left and shows the backing of its mapping. */
  ghost predicate PageRestored(fs: Files, vma: Vma, area: Area, memory: map<nat, Page>, image: map<nat, Page>, o: nat) {
    if vma.start + o in image then o in area.bits && Visible(fs, memory, area, o) == image[vma.start + o]
    else o !in area.bits && area.addr + o !in memory
  }

  ghost predicate AreaRestored(fs: Files, vma: Vma, area: Area, memory: map<nat, Page>, image: map<nat, Page>) {
    && (forall o :: 0 <= o < vma.Len() ==> PageRestored(fs, vma, area, memory, image, o))
    && (forall o :: o in area.bits ==> o < vma.Len())
  }

  /** Every premapped area of a task is restored, and its private memory lies inside them. */
  ghost predicate TaskRestored(fs: Files, vmas: seq<Vma>, areas: seq<Area>, memory: map<nat, Page>,
                               image: map<nat, Page>) {
    && DisjointAreas(vmas, areas)
    && (forall k :: 0 <= k < |vmas| && areas[k].premapped ==> AreaRestored(fs, vmas[k], areas[k], memory, image))
    && (forall k :: 0 <= k < |vmas| && vmas[k].priv && vmas[k].pvma != NotShared ==> areas[k].premapped)
  }

  lemma PageOfTask(fs: Files, vmas: seq<Vma>, areas: seq<Area>, memory: map<nat, Page>, image: map<nat, Page>,
                   k: nat, o: nat)
    requires TaskRestored(fs, vmas, areas, memory, image) && k < |vmas| && areas[k].premapped && o < vmas[k].Len()
    ensures PageRestored(fs, vmas[k], areas[k], memory, image, o)
  {
    assert AreaRestored(fs, vmas[k], areas[k], memory, image);
  }

  lemma RestoredPageShows(fs: Files, vma: Vma, area: Area, memory: map<nat, Page>, image: map<nat, Page>, o: nat)
    requires PageRestored(fs, vma, area, memory, image, o)
    ensures Visible(fs, memory, area, o) == if vma.start + o in image then image[vma.start + o]
            else Backing(fs, area.source, o)
  {
  }
}
