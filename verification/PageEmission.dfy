/** Which pages of an area go into the page pipe (criu/mem.c, generate_iovs and the loop around it).
    Addresses and offsets count pages. */
module PageEmission {
  import opened Options

  const PME_PRESENT: bv64 := 1 << 63
  const PME_SWAP: bv64 := 1 << 62
  const PME_FILE: bv64 := 1 << 61
  const PME_SOFT_DIRTY: bv64 := 1 << 55
  const PME_PFRAME_MASK: bv64 := (1 << 55) - 1

  /** What matters of an area. */
  datatype Area = Area(start: nat, entries: seq<bv64>, priv: bool, readable: bool, vdso: bool, vvar: bool,
                       filePrivate: bool, aioRing: bool, zeroPfn: bv64, lazy: nat -> bool)

  /** How a pre-dump gets at the pages. */
  datatype Mode = Splice | Read

  /** The options, and what is known of the parent images. */
  datatype Opts = Opts(trackMem: bool, imgParent: bool, preDump: bool, mode: Mode, parentMode: Option<Mode>,
                       hasParent: bool)

  predicate ShouldDump(v: Area, pme: bv64) {
    if v.vdso then true
    else if v.vvar then false
    else if v.filePrivate && pme & PME_FILE != 0 then false
    else if v.aioRing then true
    else pme & (PME_PRESENT | PME_SWAP) != 0 && pme & PME_PFRAME_MASK != v.zeroPfn
  }

  /** A page, or a hole where the parent images have the page. */
  datatype Item = Page(addr: nat, lazy: bool) | Hole(addr: nat)

  /** page_in_parent. */
  predicate InParent(o: Opts, dirty: bool) { o.trackMem && o.imgParent && !dirty }

  predicate IsHole(o: Opts, hasParent: bool, pme: bv64) { hasParent && InParent(o, pme & PME_SOFT_DIRTY != 0) }

  /** An area to be scanned: with the options, and whether it may refer to parent images. */
  datatype Scan = Scan(v: Area, o: Opts, hasParent: bool)

  function ItemAt(c: Scan, i: nat): Item
    requires i < |c.v.entries|
  {
    if IsHole(c.o, c.hasParent, c.v.entries[i]) then Hole(c.v.start + i)
    else Page(c.v.start + i, c.v.lazy(c.v.start + i))
  }

  /** What is to be emitted for the pages [from, to) of the area. */
  function Emit(c: Scan, from: nat, to: nat): seq<Item>
    requires from <= to <= |c.v.entries|
  {
    if from == to then []
    else Emit(c, from, to - 1) + (if ShouldDump(c.v, c.v.entries[to - 1]) then [ItemAt(c, to - 1)] else [])
  }

  // ----- what that sequence is

  /** Every item is that of a page to be dumped. */
  ghost predicate OnlyDumped(c: Scan, from: nat, to: nat, items: seq<Item>)
    requires from <= to <= |c.v.entries|
  {
    forall k :: 0 <= k < |items| ==>
        items[k].addr >= c.v.start && IsItem(c, from, to, items[k], items[k].addr - c.v.start)
  }

  /** Every page to be dumped has its item. */
  ghost predicate AllDumped(c: Scan, from: nat, to: nat, items: seq<Item>)
    requires from <= to <= |c.v.entries|
  {
    forall i :: from <= i < to && ShouldDump(c.v, c.v.entries[i]) ==> ItemAt(c, i) in items
  }

  ghost predicate Ascending(items: seq<Item>) {
    forall k, l :: 0 <= k < l < |items| ==> items[k].addr < items[l].addr
  }

  /** Exactly the pages to be dumped, each once, in ascending order, each as a page or a hole. */
  ghost predicate Exact(c: Scan, from: nat, to: nat, items: seq<Item>)
    requires from <= to <= |c.v.entries|
  {
    OnlyDumped(c, from, to, items) && AllDumped(c, from, to, items) && Ascending(items)
  }

  predicate IsItem(c: Scan, from: nat, to: nat, item: Item, i: nat)
    requires from <= to <= |c.v.entries|
  {
    from <= i < to && ShouldDump(c.v, c.v.entries[i]) && item == ItemAt(c, i)
  }

  lemma OneMoreOnly(c: Scan, from: nat, n: nat, before: seq<Item>)
    requires from <= n < |c.v.entries| && OnlyDumped(c, from, n, before)
    ensures OnlyDumped(c, from, n + 1, before)
    ensures ShouldDump(c.v, c.v.entries[n]) ==> OnlyDumped(c, from, n + 1, before + [ItemAt(c, n)])
  {
    forall k | 0 <= k < |before|
        ensures before[k].addr >= c.v.start && IsItem(c, from, n + 1, before[k], before[k].addr - c.v.start) {
      assert IsItem(c, from, n, before[k], before[k].addr - c.v.start);
    }
    assert ShouldDump(c.v, c.v.entries[n]) ==> IsItem(c, from, n + 1, ItemAt(c, n), n);
  }

  lemma OneMoreAscends(c: Scan, from: nat, n: nat, before: seq<Item>)
    requires from <= n < |c.v.entries| && OnlyDumped(c, from, n, before) && Ascending(before)
    ensures Ascending(before + [ItemAt(c, n)])
  {
    var items := before + [ItemAt(c, n)];
    forall k, l | 0 <= k < l < |items| ensures items[k].addr < items[l].addr {
      assert IsItem(c, from, n, before[k], before[k].addr - c.v.start);
    }
  }

  lemma OneMoreAll(c: Scan, from: nat, n: nat, before: seq<Item>, items: seq<Item>)
    requires from <= n < |c.v.entries| && AllDumped(c, from, n, before)
    requires items == if ShouldDump(c.v, c.v.entries[n]) then before + [ItemAt(c, n)] else before
    ensures AllDumped(c, from, n + 1, items)
  {
    forall i | from <= i < n + 1 && ShouldDump(c.v, c.v.entries[i]) ensures ItemAt(c, i) in items {
      if i < n { assert ItemAt(c, i) in before; }
    }
  }

  lemma {:induction false} EmitIsExact(c: Scan, from: nat, to: nat)
    requires from <= to <= |c.v.entries|
    ensures Exact(c, from, to, Emit(c, from, to))
  {
    if from < to {
      var n := to - 1;
      var before := Emit(c, from, n);
      EmitIsExact(c, from, n);
      OneMoreOnly(c, from, n, before);
      OneMoreAscends(c, from, n, before);
      OneMoreAll(c, from, n, before, Emit(c, from, to));
    }
  }

  lemma {:induction false} EmitJoins(c: Scan, from: nat, mid: nat, to: nat)
    requires from <= mid <= to <= |c.v.entries|
    ensures Emit(c, from, to) == Emit(c, from, mid) + Emit(c, mid, to)
  {
    if mid < to { EmitJoins(c, from, mid, to - 1); }
  }

  // ----- the same on the bits of the entries

  /** The area is scanned at all: a pre-dump by read leaves out what cannot be read, every pre-dump the AIO rings. */
  predicate Scanned(v: Area, o: Opts) {
    v.priv && (o.preDump ==> !v.aioRing && (v.readable || o.mode == Splice))
  }

  /** A clean page may be left to the parent images. */
  predicate MayRefer(v: Area, o: Opts) {
    && o.hasParent && o.trackMem && o.imgParent && !v.aioRing
    && (v.readable || (o.preDump && (o.mode == Splice ==> o.parentMode != Some(Read))))
  }

  /** Present or swapped, and not the zero page. */
  predicate Backed(v: Area, pme: bv64) {
    && (pme & 0x8000_0000_0000_0000 != 0 || pme & 0x4000_0000_0000_0000 != 0)
    && pme & 0x007f_ffff_ffff_ffff != v.zeroPfn
  }

  predicate OfFile(pme: bv64) { pme & 0x2000_0000_0000_0000 != 0 }

  predicate SoftDirty(pme: bv64) { pme & 0x0080_0000_0000_0000 != 0 }

  /** All of a vdso, nothing of a vvar, no page of a private mapping that is still the file's, all of an AIO ring. */
  predicate Wanted(v: Area, pme: bv64) {
    v.vdso || (!v.vvar && !(v.filePrivate && OfFile(pme)) && (v.aioRing || Backed(v, pme)))
  }

  /** The item is that of page i: a hole exactly if it is clean and may be left to the parent images. */
  predicate DumpedAs(v: Area, o: Opts, i: nat, item: Item)
    requires i < |v.entries|
  {
    item == if MayRefer(v, o) && !SoftDirty(v.entries[i]) then Hole(v.start + i)
            else Page(v.start + i, v.lazy(v.start + i))
  }

  ghost predicate PageDumped(v: Area, o: Opts, items: seq<Item>, i: nat)
    requires i < |v.entries|
  {
    exists k :: 0 <= k < |items| && DumpedAs(v, o, i, items[k])
  }

  ghost predicate ItemOfArea(v: Area, o: Opts, item: Item) {
    v.start <= item.addr < v.start + |v.entries| && Wanted(v, v.entries[item.addr - v.start])
  }

  /** What is dumped of an area. */
  ghost predicate Dumped(v: Area, o: Opts, items: seq<Item>) {
    && Ascending(items)
    && (!Scanned(v, o) ==> items == [])
    && (forall k :: 0 <= k < |items| ==> ItemOfArea(v, o, items[k]))
    && (Scanned(v, o) ==> forall i :: 0 <= i < |v.entries| && Wanted(v, v.entries[i]) ==> PageDumped(v, o, items, i))
  }

  /** The scan of an area: whether it may refer to the parent, before the page and the options are looked at. */
  function ScanOf(v: Area, o: Opts): Scan {
    Scan(v, o, o.hasParent && !v.aioRing &&
               (v.readable || (o.preDump && !(o.parentMode == Some(Read) && o.mode == Splice))))
  }

  lemma DumpedByBits(v: Area, pme: bv64)
    ensures ShouldDump(v, pme) <==> Wanted(v, pme)
  {
    assert pme & (PME_PRESENT | PME_SWAP) == 0 <==>
      pme & 0x8000_0000_0000_0000 == 0 && pme & 0x4000_0000_0000_0000 == 0;
  }

  lemma ItemByBits(v: Area, o: Opts, i: nat)
    requires i < |v.entries|
    ensures DumpedAs(v, o, i, ItemAt(ScanOf(v, o), i))
  {
  }

  lemma EmitIsDumped(v: Area, o: Opts)
    requires Scanned(v, o)
    ensures Dumped(v, o, Emit(ScanOf(v, o), 0, |v.entries|))
  {
    var c, n := ScanOf(v, o), |v.entries|;
    var items := Emit(c, 0, n);
    EmitIsExact(c, 0, n);
    forall k | 0 <= k < |items| ensures ItemOfArea(v, o, items[k]) {
      var i := items[k].addr - v.start;
      assert IsItem(c, 0, n, items[k], i);
      DumpedByBits(v, v.entries[i]);
    }
    forall i | 0 <= i < n && Wanted(v, v.entries[i]) ensures PageDumped(v, o, items, i) {
      DumpedByBits(v, v.entries[i]);
      assert ItemAt(c, i) in items;
      ItemByBits(v, o, i);
    }
  }

  // ----- the pipe

  /** Whether a pipe with these items has no room for a page.  An empty one has. */
  type Fullness = (seq<Item>, Item) -> bool

  ghost predicate EmptyTakesAny(full: Fullness) { forall p :: !full([], p) }

  datatype Result = Ok | Again | Error

  /** A page pipe in chunk mode and the image behind it. */
  class PagePipe {
    const full: Fullness
    const fails: nat -> bool         // whether the n-th drain fails
    var queued: seq<Item>
    var out: seq<Item>               // drained and transferred
    var drains: nat

    constructor (full: Fullness, fails: nat -> bool)
      ensures this.full == full && this.fails == fails && queued == [] && out == []
    {
      this.full, this.fails := full, fails;
      queued, out, drains := [], [], 0;
    }

    /** Everything that went into the pipe. */
    ghost function Emitted(): seq<Item>
      reads this
    {
      out + queued
    }

    /** A drain failed since the n-th. */
    ghost predicate FailedSince(n: nat)
      reads this
    {
      exists m :: n < m <= drains && fails(m)
    }

    /** page_pipe_add_page. */
    method AddPage(p: Item) returns (r: Result)
      modifies this`queued
      ensures r == Ok ==> queued == old(queued) + [p]
      ensures r != Ok ==> r == Again && queued == old(queued) && full(queued, p)
    {
      if full(queued, p) { return Again; }
      queued := queued + [p];
      r := Ok;
    }

    /** page_pipe_add_hole: holes take no room. */
    method AddHole(h: Item)
      modifies this`queued
      ensures queued == old(queued) + [h]
    {
      queued := queued + [h];
    }

    /** drain_pages, xfer_pages and page_pipe_reinit. */
    method Drain() returns (ok: bool)
      modifies this
      ensures drains == old(drains) + 1 && (ok <==> !fails(drains))
      ensures ok ==> queued == [] && Emitted() == old(Emitted())
    {
      drains := drains + 1;
      if fails(drains) { return false; }
      out, queued := out + queued, [];
      ok := true;
    }

    /** generate_iovs from offset off on: returns the offset it has come to. */
    method GenerateIovs(c: Scan, off: nat) returns (r: Result, off': nat)
      requires off <= |c.v.entries|
      modifies this`queued
      ensures off <= off' <= |c.v.entries| && queued == old(queued) + Emit(c, off, off')
      ensures r == Ok <==> off' == |c.v.entries|
      ensures r != Ok ==> r == Again && ShouldDump(c.v, c.v.entries[off']) && full(queued, ItemAt(c, off'))
    {
      r, off' := Ok, off;
      while off' < |c.v.entries|
        invariant off <= off' <= |c.v.entries| && r == Ok && queued == old(queued) + Emit(c, off, off')
      {
        if ShouldDump(c.v, c.v.entries[off']) {
          if IsHole(c.o, c.hasParent, c.v.entries[off']) {
            AddHole(ItemAt(c, off'));
          } else {
            r := AddPage(ItemAt(c, off'));
            if r != Ok { return; }
          }
        }
        off' := off' + 1;
      }
    }

    /** The loop of generate_vma_iovs: drains the pipe and goes on where it was full. */
    method DumpArea(c: Scan) returns (ok: bool)
      requires EmptyTakesAny(full)
      modifies this
      ensures ok ==> Emitted() == old(Emitted()) + Emit(c, 0, |c.v.entries|)
      ensures drains >= old(drains) && (ok <==> !FailedSince(old(drains)))
    {
      var off: nat := 0;
      ghost var before := Emitted();
      while true
        invariant off <= |c.v.entries| && Emitted() == before + Emit(c, 0, off)
        invariant drains >= old(drains) && !FailedSince(old(drains))
        decreases |c.v.entries| - off, |queued|
      {
        ghost var was, o := queued, off;
        var r: Result;
        r, off := GenerateIovs(c, off);
        EmitJoins(c, 0, o, off);
        assert out + (was + Emit(c, o, off)) == (out + was) + Emit(c, o, off);
        assert (before + Emit(c, 0, o)) + Emit(c, o, off) == before + (Emit(c, 0, o) + Emit(c, o, off));
        if r == Ok { return true; }
        assert queued != [];
        var drained := Drain();
        if !drained { return false; }
      }
    }

    /** generate_vma_iovs. */
    method GenerateVmaIovs(v: Area, o: Opts) returns (ok: bool)
      requires EmptyTakesAny(full)
      modifies this
      ensures ok && Scanned(v, o) ==> Emitted() == old(Emitted()) + Emit(ScanOf(v, o), 0, |v.entries|)
      ensures !Scanned(v, o) ==> ok && Emitted() == old(Emitted()) && drains == old(drains)
      ensures drains >= old(drains) && (ok <==> !FailedSince(old(drains)))
    {
      var hasParent := o.hasParent;
      if !v.priv { return true; }
      if !v.readable {
        if o.mode == Read && o.preDump { return true; }
        if (o.parentMode == Some(Read) && o.mode == Splice) || !o.preDump { hasParent := false; }
      }
      if v.aioRing {
        if o.preDump { return true; }
        hasParent := false;
      }
      ok := DumpArea(Scan(v, o, hasParent));
    }
  }

  /** Whatever the pipe can hold, the pages and holes that come out are those the bits of the entries ask for. */
  method Dump(v: Area, o: Opts, full: Fullness) returns (items: seq<Item>)
    requires EmptyTakesAny(full)
    ensures Dumped(v, o, items)
  {
    var pp := new PagePipe(full, n => false);
    var ok := pp.GenerateVmaIovs(v, o);
    items := pp.out + pp.queued;
    if Scanned(v, o) {
      assert items == Emit(ScanOf(v, o), 0, |v.entries|);
      EmitIsDumped(v, o);
    }
  }
}
