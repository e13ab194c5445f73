/** The cache of /proc/pid/pagemap (criu/pagemap-cache.c).  Addresses and lengths count pages. */
module PagemapCache {
  import opened Options

  datatype Vma = Vma(start: nat, end: nat)

  const PMC_SIZE: nat := 512      // two megabytes
  const PMC_SIZE_GAP: nat := 128  // a quarter of it

  ghost predicate Sorted(vmas: seq<Vma>) {
    && (forall k :: 0 <= k < |vmas| ==> vmas[k].start < vmas[k].end)
    && (forall k, l :: 0 <= k < l < |vmas| ==> vmas[k].end <= vmas[l].start)
  }

  /** The entries of [from, to), read directly. */
  function Direct(pagemap: nat -> bv64, from: nat, to: nat): (d: seq<bv64>)
    requires from <= to
    ensures |d| == to - from && forall i :: 0 <= i < |d| ==> d[i] == pagemap(from + i)
  {
    seq(to - from, i requires 0 <= i => pagemap(from + i))
  }

  lemma DirectSlice(pagemap: nat -> bv64, start: nat, end: nat, from: nat, to: nat)
    requires start <= from <= to <= end
    ensures Direct(pagemap, start, end)[from - start..to - start] == Direct(pagemap, from, to)
  {
  }

  lemma SliceOfPrefix(s: seq<bv64>, n: nat, a: nat, b: nat)
    requires a <= b <= n <= |s|
    ensures s[..n][a..b] == s[a..b]
  {
  }


  class Pmc {
    const vmas: seq<Vma>
    const pagemap: nat -> bv64     // the entries of the frozen task
    const taskSize: nat
    const disabled: bool           // CRIU_PMC_OFF
    const buffer: array<bv64>
    var start: nat
    var end: nat

    /** pmc_init: room for the longest area that is asked for, and for the cache window. */
    constructor (vmas: seq<Vma>, pagemap: nat -> bv64, taskSize: nat, disabled: bool, size: nat)
      requires Sorted(vmas) && forall k :: 0 <= k < |vmas| ==> vmas[k].end - vmas[k].start <= size
      ensures Valid() && this.vmas == vmas && this.pagemap == pagemap && start == end == 0
    {
      this.vmas, this.pagemap, this.taskSize, this.disabled := vmas, pagemap, taskSize, disabled;
      buffer := new bv64[if size > PMC_SIZE then size else PMC_SIZE];
      start, end := 0, 0;
    }

    /** The cached window holds the entries of its pages. */
    ghost predicate Valid()
      reads this, buffer
    {
      && Sorted(vmas) && buffer.Length >= PMC_SIZE
      && (forall k :: 0 <= k < |vmas| ==> vmas[k].end - vmas[k].start <= buffer.Length)
      && start <= end && end - start <= buffer.Length
      && buffer[..end - start] == Direct(pagemap, start, end)
    }

    /** The end of the two megabytes the area starts in, or of the address space. */
    function High(k: nat): nat
      requires k < |vmas|
    {
      var high := vmas[k].start - vmas[k].start % PMC_SIZE + PMC_SIZE;
      if high > taskSize then taskSize else high
    }

    /** A small area that starts in the first quarter of its two megabytes, with the next area ending in them too. */
    predicate Together(k: nat)
      requires k < |vmas|
    {
      && !disabled && vmas[k].end - vmas[k].start < PMC_SIZE && vmas[k].start % PMC_SIZE < PMC_SIZE_GAP
      && k + 1 < |vmas| && vmas[k + 1].end <= High(k)
    }

    /** The window to read for area k. */
    method Window(k: nat) returns (from: nat, to: nat)
      requires Valid() && k < |vmas|
      ensures from == vmas[k].start && to == (if Together(k) then High(k) else vmas[k].end)
      ensures vmas[k].end <= to && to - from <= buffer.Length
    {
      var low := vmas[k].start - vmas[k].start % PMC_SIZE;
      var high := low + PMC_SIZE;
      var len := vmas[k].end - vmas[k].start;
      if high > taskSize { high := taskSize; }
      from, to := vmas[k].start, vmas[k].end;
      if !disabled && len < PMC_SIZE && vmas[k].start - low < PMC_SIZE_GAP {
        var nrVmas, i := 1, k + 1;
        while i < |vmas| && vmas[i].start <= high && vmas[i].end <= high
          invariant k + 1 <= i <= |vmas| && nrVmas == i - k
          invariant i > k + 1 ==> vmas[k + 1].end <= high
        {
          assert vmas[i].start >= low;   // the first BUG_ON of pmc_fill_cache
          nrVmas, i := nrVmas + 1, i + 1;
        }
        if nrVmas > 1 { to := high; }
      }
    }

    /** pmc_fill_cache; `readable` says whether pread succeeds. */
    method FillCache(k: nat, readable: bool) returns (ok: bool)
      requires Valid() && k < |vmas|
      modifies this, buffer
      ensures Valid() && ok == readable
      ensures ok ==>
                start == vmas[k].start && end == (if Together(k) then High(k) else vmas[k].end) && vmas[k].end <= end
      ensures !ok ==> start == end == 0
    {
      var from, to := Window(k);
      assert to - from <= buffer.Length;    // the BUG_ON of the buffer's length
      if !readable {
        start, end := 0, 0;
        return false;
      }
      forall i | 0 <= i < to - from { buffer[i] := pagemap(from + i); }
      start, end := from, to;
      ok := true;
    }

    /** pmc_get_map: where in the buffer the entries of area k are. */
    method GetMap(k: nat, readable: bool) returns (r: Option<nat>)
      requires Valid() && k < |vmas|
      modifies this, buffer
      ensures Valid()
      ensures r.None? <==> !readable && !(old(start) <= vmas[k].start && old(end) >= vmas[k].end)
      ensures r.Some? ==> r.value + (vmas[k].end - vmas[k].start) <= buffer.Length
      ensures r.Some? ==>
                buffer[r.value..r.value + (vmas[k].end - vmas[k].start)] == Direct(pagemap, vmas[k].start, vmas[k].end)
    {
      if !(start <= vmas[k].start && end >= vmas[k].end) {
        var ok := FillCache(k, readable);
        if !ok { return None; }
      }
      var at, len := vmas[k].start - start, vmas[k].end - vmas[k].start;
      DirectSlice(pagemap, start, end, vmas[k].start, vmas[k].end);
      SliceOfPrefix(buffer[..], end - start, at, at + len);
      r := Some(at);
    }
  }

  /** Whatever is asked for in whatever order, each answer holds what a direct read of the pagemap gives. */
  method Ask(pmc: Pmc, order: seq<nat>) returns (answers: seq<seq<bv64>>)
    requires pmc.Valid() && forall i :: 0 <= i < |order| ==> order[i] < |pmc.vmas|
    modifies pmc, pmc.buffer
    ensures |answers| == |order|
    ensures forall i :: 0 <= i < |order| ==>
              answers[i] == Direct(pmc.pagemap, pmc.vmas[order[i]].start, pmc.vmas[order[i]].end)
  {
    answers := [];
    for j := 0 to |order|
      invariant pmc.Valid() && |answers| == j
      invariant forall i :: 0 <= i < j ==>
                  answers[i] == Direct(pmc.pagemap, pmc.vmas[order[i]].start, pmc.vmas[order[i]].end)
    {
      var at := pmc.GetMap(order[j], true);
      var vma := pmc.vmas[order[j]];
      var got := pmc.buffer[at.value..at.value + (vma.end - vma.start)];
      answers := answers + [got];
    }
  }
}
