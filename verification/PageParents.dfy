/** Incremental dumps: what a hole stands for (criu/mem.c, generate_vma_iovs, and criu/pagemap.c, read_parent_page). */
module PageParents {
  import opened Options
  import opened PageEmission

  /** One dump of an area: its options, what it put out, and what the pages held at the time. */
  datatype Step<C> = Step(v: Area, o: Opts, items: seq<Item>, mem: nat -> C)

  /** A page not written to since keeps its file, or its memory and content. */
  predicate Kept(v: Area, before: bv64, now: bv64) {
    (OfFile(before) <==> OfFile(now)) && (Backed(v, before) <==> Backed(v, now))
  }

  /** The area is the same one.  Its protection may have changed. */
  predicate SameArea(v: Area, w: Area) {
    && v.start == w.start && |v.entries| == |w.entries| && v.priv == w.priv && v.vdso == w.vdso && v.vvar == w.vvar
    && v.filePrivate == w.filePrivate && v.aioRing == w.aioRing && v.zeroPfn == w.zeroPfn
  }

  /** Page i is soft-dirty, or still what it was: the kernel marks as soft-dirty what is written to. */
  ghost predicate PageKept<C>(p: Step, d: Step, i: nat)
    requires i < |p.v.entries| && i < |d.v.entries|
  {
    SoftDirty(d.v.entries[i]) ||
    (Kept(d.v, p.v.entries[i], d.v.entries[i]) && p.mem(d.v.start + i) == d.mem(d.v.start + i))
  }

  /** Dump d comes next after dump p. */
  ghost predicate Follows<C>(p: Step, d: Step) {
    && SameArea(p.v, d.v)
    && d.o.parentMode == (if p.o.preDump then Some(p.o.mode) else None)
    && forall i: nat :: i < |d.v.entries| ==> PageKept(p, d, i)
  }

  ghost predicate Has(items: seq<Item>, addr: nat) { exists k :: 0 <= k < |items| && items[k].addr == addr }

  ghost predicate IsDump<C>(d: Step<C>) { Dumped(d.v, d.o, d.items) }

  lemma HoleIsInArea<C>(d: Step<C>, k: nat) returns (i: nat)
    requires IsDump(d) && k < |d.items|
    ensures i < |d.v.entries| && d.items[k].addr == d.v.start + i
  {
    assert ItemOfArea(d.v, d.o, d.items[k]);
    i := d.items[k].addr - d.v.start;
  }

  lemma HoleIsWanted<C>(d: Step<C>, k: nat, i: nat)
    requires IsDump(d) && k < |d.items| && i < |d.v.entries| && d.items[k].addr == d.v.start + i
    ensures Wanted(d.v, d.v.entries[i]) && Scanned(d.v, d.o)
  {
    assert ItemOfArea(d.v, d.o, d.items[k]);
  }

  /** Addresses ascend, so an item is the one that its page is dumped as. */
  lemma OnlyItem(items: seq<Item>, k: nat, l: nat)
    requires Ascending(items) && k < |items| && l < |items| && items[l].addr == items[k].addr
    ensures k == l
  {
  }

  lemma DumpedSo(v: Area, o: Opts, items: seq<Item>, k: nat, i: nat)
    requires i < |v.entries| && Ascending(items) && PageDumped(v, o, items, i)
    requires k < |items| && items[k].addr == v.start + i
    ensures DumpedAs(v, o, i, items[k])
  {
    var l :| 0 <= l < |items| && DumpedAs(v, o, i, items[l]);
    OnlyItem(items, k, l);
  }

  /** A hole is clean, and left to parent images that it may refer to. */
  lemma HoleIsClean<C>(d: Step<C>, k: nat, i: nat)
    requires IsDump(d) && k < |d.items| && i < |d.v.entries| && d.items[k] == Hole(d.v.start + i)
    ensures MayRefer(d.v, d.o) && !SoftDirty(d.v.entries[i])
  {
    HoleIsWanted(d, k, i);
    DumpedSo(d.v, d.o, d.items, k, i);
  }

  lemma WantedStays(v: Area, w: Area, before: bv64, now: bv64)
    requires SameArea(v, w) && Kept(w, before, now)
    ensures Wanted(v, before) <==> Wanted(w, now)
  {
  }

  lemma WantedIsThere(v: Area, o: Opts, items: seq<Item>, i: nat)
    requires Dumped(v, o, items) && i < |v.entries| && Wanted(v, v.entries[i])
    ensures Has(items, v.start + i) <==> Scanned(v, o)
  {
    if Scanned(v, o) {
      assert PageDumped(v, o, items, i);
      var l :| 0 <= l < |items| && DumpedAs(v, o, i, items[l]);
      assert items[l].addr == v.start + i;
    }
  }

  /** The parent images have the page of a hole, unless the parent was a pre-dump by read and could not read it. */
  lemma HoleInParentIff<C>(p: Step<C>, d: Step<C>, k: nat)
    requires IsDump(p) && IsDump(d) && Follows(p, d)
    requires k < |d.items| && d.items[k].Hole?
    ensures Has(p.items, d.items[k].addr) <==> !(p.o.preDump && p.o.mode == Read && !p.v.readable)
  {
    var i := HoleIsInArea(d, k);
    HoleIsWanted(d, k, i);
    HoleIsClean(d, k, i);
    var before, now := p.v.entries[i], d.v.entries[i];
    assert PageKept(p, d, i);
    WantedStays(p.v, d.v, before, now);
    WantedIsThere(p.v, p.o, p.items, i);
  }

  /** The modes of pre-dumps may be mixed: with the protection unchanged every hole is in the parent images. */
  lemma HolesAreInParent<C>(p: Step<C>, d: Step<C>, k: nat)
    requires IsDump(p) && IsDump(d) && Follows(p, d)
    requires p.v.readable == d.v.readable
    requires k < |d.items| && d.items[k].Hole?
    ensures Has(p.items, d.items[k].addr)
  {
    var i := HoleIsInArea(d, k);
    HoleIsWanted(d, k, i);
    HoleIsClean(d, k, i);
    HoleInParentIff(p, d, k);
  }

  // ----- chains of dumps

  ghost predicate Next<C>(p: Step<C>, d: Step<C>) { Follows(p, d) && p.v.readable == d.v.readable }

  /** A first dump without a parent and dumps that follow one another, the protection of the area unchanged. */
  ghost predicate Chain<C>(ds: seq<Step<C>>) {
    && (forall k :: 0 <= k < |ds| ==> IsDump(ds[k]))
    && (|ds| > 0 ==> !ds[0].o.hasParent)
    && forall k :: 0 < k < |ds| ==> Next(ds[k - 1], ds[k])
  }

  ghost predicate HasPage(items: seq<Item>, addr: nat) {
    exists k :: 0 <= k < |items| && items[k].addr == addr && items[k].Page?
  }

  ghost predicate HasHole(items: seq<Item>, addr: nat) {
    exists k :: 0 <= k < |items| && items[k].addr == addr && items[k].Hole?
  }

  /** What the images of the last dump say of a page: its own copy, or through a hole what its parent says. */
  ghost function Restored<C>(ds: seq<Step<C>>, addr: nat): Option<C> {
    if ds == [] then None
    else if HasPage(ds[|ds| - 1].items, addr) then Some(ds[|ds| - 1].mem(addr))
    else if HasHole(ds[|ds| - 1].items, addr) then Restored(ds[..|ds| - 1], addr)
    else None
  }

  lemma NoPageOverHole(items: seq<Item>, k: nat)
    requires Ascending(items) && k < |items| && items[k].Hole?
    ensures !HasPage(items, items[k].addr)
  {
  }

  lemma Unwritten<C>(p: Step<C>, d: Step<C>, k: nat, i: nat)
    requires IsDump(d) && Next(p, d) && k < |d.items| && i < |d.v.entries| && d.items[k] == Hole(d.v.start + i)
    ensures p.mem(d.v.start + i) == d.mem(d.v.start + i)
  {
    HoleIsClean(d, k, i);
    assert PageKept(p, d, i);
  }

  lemma SameUnder<C>(p: Step<C>, d: Step<C>, k: nat, addr: nat)
    requires IsDump(d) && Next(p, d) && k < |d.items| && d.items[k] == Hole(addr)
    ensures p.mem(addr) == d.mem(addr)
  {
    var i := HoleIsInArea(d, k);
    Unwritten(p, d, k, i);
  }

  lemma ItemAtAddr(items: seq<Item>, addr: nat) returns (l: nat)
    requires Has(items, addr)
    ensures l < |items| && items[l].addr == addr
  {
    l :| 0 <= l < |items| && items[l].addr == addr;
  }

  /** Under a hole the parent has an item, and the page has not changed since. */
  lemma UnderHole<C>(p: Step<C>, d: Step<C>, k: nat, addr: nat) returns (l: nat)
    requires IsDump(p) && IsDump(d) && Next(p, d) && k < |d.items| && d.items[k] == Hole(addr)
    ensures l < |p.items| && p.items[l].addr == addr && p.mem(addr) == d.mem(addr)
  {
    SameUnder(p, d, k, addr);
    HolesAreInParent(p, d, k);
    l := ItemAtAddr(p.items, addr);
  }

  lemma FirstHasNoHoles<C>(d: Step<C>, k: nat)
    requires IsDump(d) && !d.o.hasParent && k < |d.items|
    ensures d.items[k].Page?
  {
    if d.items[k].Hole? {
      var i := HoleIsInArea(d, k);
      HoleIsClean(d, k, i);
      assert false;
    }
  }

  lemma ChainBefore<C>(ds: seq<Step<C>>, n: nat)
    requires Chain(ds) && |ds| == n + 1 && n > 0
    ensures Chain(ds[..n]) && IsDump(ds[n - 1]) && IsDump(ds[n]) && Next(ds[n - 1], ds[n])
  {
  }

  lemma ThroughHole<C>(ds: seq<Step<C>>, n: nat, d: Step<C>, k: nat, addr: nat)
    requires |ds| == n + 1 && ds[n] == d && IsDump(d) && k < |d.items| && d.items[k] == Hole(addr)
    ensures Restored(ds, addr) == Restored(ds[..n], addr)
  {
    NoPageOverHole(d.items, k);
  }

  /** However the dumps were made, every page of the last one is restored with what it held then. */
  lemma {:induction false} RestoredAsLast<C>(ds: seq<Step<C>>, n: nat, d: Step<C>, k: nat, addr: nat)
    requires Chain(ds) && |ds| == n + 1 && ds[n] == d && k < |d.items| && d.items[k].addr == addr
    ensures Restored(ds, addr) == Some(d.mem(addr))
    decreases n
  {
    if d.items[k].Page? {
      assert HasPage(d.items, addr);
    } else if n == 0 {
      FirstHasNoHoles(d, k);
    } else {
      ChainBefore(ds, n);
      ThroughHole(ds, n, d, k, addr);
      var l := UnderHole(ds[n - 1], d, k, addr);
      RestoredAsLast(ds[..n], n - 1, ds[n - 1], l, addr);
    }
  }

  /** And a page that should be in the images is. */
  lemma {:induction false} WantedIsRestored<C>(ds: seq<Step<C>>, n: nat, d: Step<C>, i: nat, addr: nat)
    requires Chain(ds) && |ds| == n + 1 && ds[n] == d && Scanned(d.v, d.o)
    requires i < |d.v.entries| && Wanted(d.v, d.v.entries[i]) && addr == d.v.start + i
    ensures Restored(ds, addr) == Some(d.mem(addr))
  {
    assert IsDump(d);
    WantedIsThere(d.v, d.o, d.items, i);
    var k :| 0 <= k < |d.items| && d.items[k].addr == addr;
    RestoredAsLast(ds, n, d, k, addr);
  }

  /** Without the protection unchanged it fails: made readable after a pre-dump by read, a page is a hole over
      nothing. */
  lemma MadeReadable()
    ensures
      var present: bv64 := 0x8000_0000_0000_0001;
      var v := Area(0, [present], true, false, false, false, false, false, 0, (a: nat) => false);
      var p := Step(v, Opts(true, false, true, Read, None, false), [], (a: nat) => 7);
      var o := Opts(true, true, false, Splice, Some(Read), true);
      var d := Step(v.(readable := true), o, [Hole(0)], (a: nat) => 7);
      Dumped(p.v, p.o, p.items) && Dumped(d.v, d.o, d.items) && Follows(p, d) && !Has(p.items, 0)
  {
    var present: bv64 := 0x8000_0000_0000_0001;
    var v := Area(0, [present], true, true, false, false, false, false, 0, (a: nat) => false);
    var o := Opts(true, true, false, Splice, Some(Read), true);
    var items := [Hole(0)];
    assert DumpedAs(v, o, 0, items[0]);
    assert PageDumped(v, o, items, 0);
  }
}
