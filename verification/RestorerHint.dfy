/** Where the restorer blob goes (criu/cr-restore.c, restorer_get_vma_hint): a place free in the memory of criu
    and in that of the restored task. */
module RestorerHint {

  datatype Vma = Vma(start: nat, end: nat)

  /** Areas in ascending order that do not overlap, as the kernel lists them; the lists are not empty. */
  ghost predicate Sorted(vmas: seq<Vma>) {
    && vmas != []
    && (forall k :: 0 <= k < |vmas| ==> vmas[k].start < vmas[k].end)
    && (forall k, l :: 0 <= k < l < |vmas| ==> vmas[k].end <= vmas[l].start)
  }

  predicate Misses(v: Vma, a: int, len: nat) { a + len <= v.start || v.end <= a }

  /** The block of len bytes at a misses all areas but the last, and ends by the start of the last one or by the end
      of the address space: the search forgets the last area once it does not fit below it. */
  ghost predicate Fits(vmas: seq<Vma>, a: int, len: nat, taskSize: nat)
    requires vmas != []
  {
    && (forall k :: 0 <= k < |vmas| - 1 ==> Misses(vmas[k], a, len))
    && (a + len <= vmas[|vmas| - 1].start || a + len <= taskSize)
  }

  /** The start of the area a cursor points to; behind the list stands an empty area at the end of the address space. */
  function StartAt(vmas: seq<Vma>, i: nat, taskSize: nat): nat
    requires i <= |vmas|
  {
    if i < |vmas| then vmas[i].start else taskSize
  }

  /** The areas a cursor has passed end at or below a; the last one was left because the block does not fit below it. */
  ghost predicate PassedBy(vmas: seq<Vma>, i: nat, a: int, len: nat)
    requires i <= |vmas| && vmas != []
  {
    && (forall k :: 0 <= k < i && k < |vmas| - 1 ==> vmas[k].end <= a)
    && (i == |vmas| ==> a + len > vmas[|vmas| - 1].start)
  }

  lemma FitsHere(vmas: seq<Vma>, i: nat, a: int, len: nat, taskSize: nat)
    requires Sorted(vmas) && i <= |vmas| && PassedBy(vmas, i, a, len) && a + len <= StartAt(vmas, i, taskSize)
    ensures Fits(vmas, a, len, taskSize)
  {
    forall k | 0 <= k < |vmas| - 1 ensures Misses(vmas[k], a, len) {
      if i <= k { assert vmas[i].start <= vmas[k].start; }
    }
    if i < |vmas| - 1 { assert vmas[i].end <= vmas[|vmas| - 1].start; }
  }

  /** What one list makes of a block that does not fit below its cursor: the next cursor and the next address to try. */
  method Advance(vmas: seq<Vma>, i: nat, a: nat, len: nat, taskSize: nat) returns (over: bool, i': nat, a': nat)
    requires Sorted(vmas) && i <= |vmas| && PassedBy(vmas, i, a, len) && a + len > StartAt(vmas, i, taskSize)
    ensures over ==> forall b :: a <= b ==> !Fits(vmas, b, len, taskSize)
    ensures !over ==> i' == i + 1 <= |vmas| && a <= a' && PassedBy(vmas, i', a', len)
    ensures !over ==> forall b :: a <= b < a' ==> !Fits(vmas, b, len, taskSize)
  {
    over, i', a' := false, i, a;
    if i == |vmas| - 1 {
      i' := |vmas|;
    } else if i == |vmas| {
      over := true;
    } else {
      if a < vmas[i].end {
        a' := vmas[i].end;
        assert forall b :: a <= b < a' ==> !Misses(vmas[i], b, len);
      }
      i' := i + 1;
    }
  }

  /** r is the lowest address from `from` on that fits both lists, or -1 if there is none. */
  ghost predicate IsHint(targets: seq<Vma>, own: seq<Vma>, len: nat, from: nat, taskSize: nat, r: int)
    requires targets != [] && own != []
  {
    && (r == -1 || (r >= from && Fits(targets, r, len, taskSize) && Fits(own, r, len, taskSize)))
    && forall b :: from <= b && (r == -1 || b < r) ==> !(Fits(targets, b, len, taskSize) && Fits(own, b, len, taskSize))
  }

  /** The search yields the hint, and always ends. */
  method GetVmaHint(targets: seq<Vma>, own: seq<Vma>, len: nat, mmapMinAddr: nat, taskSize: nat) returns (r: int)
    requires Sorted(targets) && Sorted(own)
    ensures IsHint(targets, own, len, mmapMinAddr, taskSize, r)
  {
    var a: nat, s: nat, t: nat := mmapMinAddr, 0, 0;
    while true
      invariant s <= |own| && t <= |targets| && a >= mmapMinAddr
      invariant PassedBy(own, s, a, len) && PassedBy(targets, t, a, len)
      invariant forall b :: mmapMinAddr <= b < a ==> !(Fits(targets, b, len, taskSize) && Fits(own, b, len, taskSize))
      decreases |own| - s + |targets| - t
    {
      var over: bool;
      if a + len > StartAt(own, s, taskSize) {
        over, s, a := Advance(own, s, a, len, taskSize);
        if over { return -1; }
      } else if a + len > StartAt(targets, t, taskSize) {
        over, t, a := Advance(targets, t, a, len, taskSize);
        if over { return -1; }
      } else {
        FitsHere(own, s, a, len, taskSize);
        FitsHere(targets, t, a, len, taskSize);
        return a;
      }
    }
  }

  // ----- whether the place is free

  ghost predicate MissesAll(vmas: seq<Vma>, a: int, len: nat) {
    forall k :: 0 <= k < |vmas| ==> Misses(vmas[k], a, len)
  }

  predicate Inside(v: Vma, x: nat) { v.start <= x < v.end }

  /** Address x, below the end of the address space, lies in the last area of one of the lists and in no area of
      either that is not the last. */
  ghost predicate Exposed(targets: seq<Vma>, own: seq<Vma>, taskSize: nat, x: nat)
    requires targets != [] && own != []
  {
    && x < taskSize && (Inside(targets[|targets| - 1], x) || Inside(own[|own| - 1], x))
    && (forall k :: 0 <= k < |targets| - 1 ==> !Inside(targets[k], x))
    && (forall k :: 0 <= k < |own| - 1 ==> !Inside(own[k], x))
  }

  /** An exposed address is itself the hint for one byte from there on. */
  lemma ExposedIsHint(targets: seq<Vma>, own: seq<Vma>, taskSize: nat, x: nat)
    requires Sorted(targets) && Sorted(own) && Exposed(targets, own, taskSize, x)
    ensures IsHint(targets, own, 1, x, taskSize, x) && !(MissesAll(targets, x, 1) && MissesAll(own, x, 1))
  {
    assert Fits(targets, x, 1, taskSize) && Fits(own, x, 1, taskSize);
    assert MissesAll(targets, x, 1) ==> Misses(targets[|targets| - 1], x, 1);
    assert MissesAll(own, x, 1) ==> Misses(own[|own| - 1], x, 1);
  }

  lemma Outside(v: Vma, a: nat, len: nat, x: nat)
    requires Misses(v, a, len) && a <= x < a + len
    ensures !Inside(v, x)
  {
  }

  /** A hint that does not miss all areas runs into a last one at an exposed address. */
  lemma HintRunsInto(targets: seq<Vma>, own: seq<Vma>, len: nat, taskSize: nat, r: nat, v: Vma) returns (x: nat)
    requires Sorted(targets) && Sorted(own) && len > 0 && v.start < v.end
    requires Fits(targets, r, len, taskSize) && Fits(own, r, len, taskSize) && !Misses(v, r, len)
    requires v == targets[|targets| - 1] || v == own[|own| - 1]
    ensures Exposed(targets, own, taskSize, x)
  {
    x := if r < v.start then v.start else r;
    forall k | 0 <= k < |targets| - 1 ensures !Inside(targets[k], x) { Outside(targets[k], r, len, x); }
    forall k | 0 <= k < |own| - 1 ensures !Inside(own[k], x) { Outside(own[k], r, len, x); }
  }

  lemma NotMissed(vmas: seq<Vma>, a: int, len: nat, taskSize: nat)
    requires Sorted(vmas) && Fits(vmas, a, len, taskSize) && !MissesAll(vmas, a, len)
    ensures !Misses(vmas[|vmas| - 1], a, len)
  {
    var k :| 0 <= k < |vmas| && !Misses(vmas[k], a, len);
  }

  /** Whatever is asked for, the place found is free in both lists. */
  ghost predicate AlwaysFree(targets: seq<Vma>, own: seq<Vma>, taskSize: nat)
    requires targets != [] && own != []
  {
    forall len: nat, from: nat, r: nat :: len > 0 && IsHint(targets, own, len, from, taskSize, r) ==>
      MissesAll(targets, r, len) && MissesAll(own, r, len)
  }

  /** The place found is free, whatever its length and lowest address, if and only if no address below the end of the
      address space lies in a last area only. */
  lemma HintIsFreeIff(targets: seq<Vma>, own: seq<Vma>, taskSize: nat)
    requires Sorted(targets) && Sorted(own)
    ensures AlwaysFree(targets, own, taskSize) <==> forall x: nat :: !Exposed(targets, own, taskSize, x)
  {
    if x: nat :| Exposed(targets, own, taskSize, x) {
      ExposedIsHint(targets, own, taskSize, x);
    } else {
      forall len: nat, from: nat, r: nat | len > 0 && IsHint(targets, own, len, from, taskSize, r)
        ensures MissesAll(targets, r, len) && MissesAll(own, r, len)
      {
        if !MissesAll(targets, r, len) {
          NotMissed(targets, r, len, taskSize);
          var x := HintRunsInto(targets, own, len, taskSize, r, targets[|targets| - 1]);
          assert false;
        }
        if !MissesAll(own, r, len) {
          NotMissed(own, r, len, taskSize);
          var x := HintRunsInto(targets, own, len, taskSize, r, own[|own| - 1]);
          assert false;
        }
      }
    }
  }

  /** It is enough that the last areas start at or above the end of the address space, as the vsyscall page does. */
  lemma HighLastAreas(targets: seq<Vma>, own: seq<Vma>, taskSize: nat)
    requires Sorted(targets) && Sorted(own)
    requires targets[|targets| - 1].start >= taskSize && own[|own| - 1].start >= taskSize
    ensures AlwaysFree(targets, own, taskSize)
  {
    HintIsFreeIff(targets, own, taskSize);
  }

  /** One area in both lists: the place found for two bytes is its first two bytes. */
  lemma HintRunsIntoLastArea()
    ensures var vmas := [Vma(16, 20)]; IsHint(vmas, vmas, 2, 16, 100, 16) && !MissesAll(vmas, 16, 2)
  {
    var vmas := [Vma(16, 20)];
    assert Fits(vmas, 16, 2, 100);
    assert !Misses(vmas[0], 16, 2);
  }
}
