/** Which areas of a child may share pages with its parent (criu/mem.c, prepare_cow_vmas_for). */
module CowLinks {
  import opened CowMemory

  ghost predicate Ascending(vmas: seq<Vma>) {
    forall k, l :: 0 <= k < l < |vmas| ==> vmas[k].start < vmas[l].start
  }

  /** The pair has the same start and may share pages. */
  predicate Coincide(vma: Vma, pvma: Vma) {
    vma.start == pvma.start && CheckCowVmas(vma, pvma)
  }

  /** The walk stops at area k: it is the first one, or an area of the parent starts at or after its
      predecessor and before it.  Otherwise the walk steps over k without looking at it. */
  ghost predicate Stops(vmas: seq<Vma>, pvmas: seq<Vma>, k: nat) {
    k == 0 || (k < |vmas| && exists j :: 0 <= j < |pvmas| && vmas[k - 1].start <= pvmas[j].start < vmas[k].start)
  }

  /** What the walk makes of area k of the child. */
  ghost predicate ChildLink(vmas: seq<Vma>, pvmas: seq<Vma>, k: nat, link: Parent) {
    && (forall j :: 0 <= j < |pvmas| ==>
          (link == Inherited(j) <==> k < |vmas| && Coincide(vmas[k], pvmas[j]) && Stops(vmas, pvmas, k)))
    && (link != NotShared ==> link.Inherited? && link.index < |pvmas|)
  }

  ghost predicate Taken(linked: seq<Vma>, j: nat) {
    exists k :: 0 <= k < |linked| && linked[k].pvma == Inherited(j)
  }

  /** What the walk makes of area j of the parent, given the links of the child. */
  ghost predicate ParentMark(linked: seq<Vma>, j: nat, before: Parent, after: Parent) {
    if before != NotShared then after == before
    else after == if Taken(linked, j) then CowRoot else NotShared
  }

  ghost predicate Linking(vmas: seq<Vma>, pvmas: seq<Vma>, linked: seq<Vma>, marked: seq<Vma>, upto: nat) {
    && |linked| == |vmas| && |marked| == |pvmas|
    && (forall k :: 0 <= k < |vmas| ==> linked[k] == vmas[k].(pvma := linked[k].pvma))
    && (forall j :: 0 <= j < |pvmas| ==> marked[j] == pvmas[j].(pvma := marked[j].pvma))
    && (forall k :: 0 <= k < |vmas| && k < upto ==> ChildLink(vmas, pvmas, k, linked[k].pvma))
    && (forall k :: upto <= k < |vmas| ==> linked[k].pvma == NotShared)
    && (forall j :: 0 <= j < |pvmas| ==> ParentMark(linked, j, pvmas[j].pvma, marked[j].pvma))
  }

  /** The walk stands at areas v and p: p is the first area of the parent not below v, unless nothing was compared
      yet. */
  ghost predicate Standing(vmas: seq<Vma>, pvmas: seq<Vma>, v: nat, p: nat) {
    && v < |vmas| && p < |pvmas| && Stops(vmas, pvmas, v)
    && (forall j :: 0 <= j < p ==> pvmas[j].start < vmas[v].start)
  }

  lemma Retaken(linked: seq<Vma>, linked': seq<Vma>, v: nat, p: nat, j: nat)
    requires v < |linked| && linked' == linked[v := linked[v].(pvma := Inherited(p))] && linked[v].pvma == NotShared
    ensures Taken(linked', j) <==> Taken(linked, j) || j == p
  {
    if Taken(linked, j) {
      var k :| 0 <= k < |linked| && linked[k].pvma == Inherited(j);
      assert linked'[k].pvma == Inherited(j);
    }
    if Taken(linked', j) && j != p {
      var k :| 0 <= k < |linked'| && linked'[k].pvma == Inherited(j);
      assert linked[k].pvma == Inherited(j);
    }
    if j == p { assert linked'[v].pvma == Inherited(p); }
  }

  /** Compares areas v and p and links them if they coincide. */
  method LinkPair(ghost vmas: seq<Vma>, ghost pvmas: seq<Vma>, linked0: seq<Vma>, marked0: seq<Vma>, v: nat, p: nat)
      returns (linked: seq<Vma>, marked: seq<Vma>)
    requires Ascending(pvmas) && Standing(vmas, pvmas, v, p) && Linking(vmas, pvmas, linked0, marked0, v)
    ensures vmas[v].start <= pvmas[p].start ==> Linking(vmas, pvmas, linked, marked, v + 1)
    ensures pvmas[p].start < vmas[v].start ==> Linking(vmas, pvmas, linked, marked, v)
  {
    linked, marked := linked0, marked0;
    if Coincide(linked[v], marked[p]) {
      linked := linked[v := linked[v].(pvma := Inherited(p))];
      forall j | 0 <= j < |pvmas| ensures Taken(linked, j) <==> Taken(linked0, j) || j == p {
        Retaken(linked0, linked, v, p, j);
      }
      if marked[p].pvma == NotShared {
        marked := marked[p := marked[p].(pvma := CowRoot)];
      }
    }
  }

  /** An area the walk steps over, because it starts no later than the parent's area p. */
  lemma SteppedOver(vmas: seq<Vma>, pvmas: seq<Vma>, v0: nat, v: nat, p: nat)
    requires Ascending(vmas) && Ascending(pvmas) && Standing(vmas, pvmas, v0, p)
    requires v0 < v < |vmas| && vmas[v].start <= pvmas[p].start
    ensures ChildLink(vmas, pvmas, v, NotShared)
  {
    forall j | 0 <= j < |pvmas| ensures !(vmas[v - 1].start <= pvmas[j].start < vmas[v].start) {
      assert v0 == v - 1 || vmas[v0].start < vmas[v - 1].start;
      assert j < p || j == p || pvmas[p].start < pvmas[j].start;
    }
  }

  lemma UnlinkedNext(vmas: seq<Vma>, pvmas: seq<Vma>, linked: seq<Vma>, marked: seq<Vma>, v: nat, w: nat)
    requires Linking(vmas, pvmas, linked, marked, v) && v <= w <= |vmas|
    requires forall k :: v <= k < w ==> ChildLink(vmas, pvmas, k, NotShared)
    ensures Linking(vmas, pvmas, linked, marked, w)
  {
    forall k | 0 <= k < w ensures ChildLink(vmas, pvmas, k, linked[k].pvma) {
      if v <= k { assert linked[k].pvma == NotShared; }
    }
  }

  /** `while (vma->e->start <= pvma->e->start)`. */
  method NextChild(vmas: seq<Vma>, pvmas: seq<Vma>, v0: nat, p: nat) returns (v: nat)
    requires Ascending(vmas) && Ascending(pvmas) && Standing(vmas, pvmas, v0, p) && vmas[v0].start <= pvmas[p].start
    ensures v0 < v <= |vmas| && forall k :: v0 < k < v ==> ChildLink(vmas, pvmas, k, NotShared)
    ensures v < |vmas| ==> pvmas[p].start < vmas[v].start && Stops(vmas, pvmas, v)
  {
    v := v0;
    while vmas[v].start <= pvmas[p].start
      invariant v0 <= v < |vmas| && forall k :: v0 < k < v ==> ChildLink(vmas, pvmas, k, NotShared)
      invariant v0 < v ==> vmas[v - 1].start <= pvmas[p].start
    {
      if v0 < v { SteppedOver(vmas, pvmas, v0, v, p); }
      v := v + 1;
      if v == |vmas| { return; }
    }
  }

  /** `while (pvma->e->start < vma->e->start)`. */
  method NextParent(vmas: seq<Vma>, pvmas: seq<Vma>, v: nat, p0: nat) returns (p: nat)
    requires Ascending(vmas) && v < |vmas| && p0 < |pvmas| && pvmas[p0].start < vmas[v].start
    requires forall j :: 0 <= j < p0 ==> pvmas[j].start < vmas[v].start
    ensures p0 < p <= |pvmas| && forall j :: 0 <= j < p ==> pvmas[j].start < vmas[v].start
    ensures p == |pvmas| ==> forall k :: v <= k < |vmas| ==> ChildLink(vmas, pvmas, k, NotShared)
    ensures p < |pvmas| ==> vmas[v].start <= pvmas[p].start
  {
    p := p0;
    while pvmas[p].start < vmas[v].start
      decreases |pvmas| - p
      invariant p0 <= p < |pvmas| && forall j :: 0 <= j < p ==> pvmas[j].start < vmas[v].start
    {
      p := p + 1;
      if p == |pvmas| { return; }
    }
  }

  /** The two lists are walked together; every area of the child the walk stops at is linked to the area of
      the parent it coincides with, if there is one, and no other area is. */
  method PrepareCowVmasFor(vmas: seq<Vma>, pvmas: seq<Vma>) returns (linked: seq<Vma>, marked: seq<Vma>)
    requires vmas != [] && pvmas != [] && Ascending(vmas) && Ascending(pvmas)
    requires forall k :: 0 <= k < |vmas| ==> vmas[k].pvma == NotShared
    ensures Linking(vmas, pvmas, linked, marked, |vmas|)
  {
    linked, marked := vmas, pvmas;
    var v: nat, p: nat := 0, 0;
    while true
      invariant Standing(vmas, pvmas, v, p) && Linking(vmas, pvmas, linked, marked, v)
      decreases |vmas| - v, |pvmas| - p
    {
      linked, marked := LinkPair(vmas, pvmas, linked, marked, v, p);
      if vmas[v].start <= pvmas[p].start {
        var next := NextChild(vmas, pvmas, v, p);
        UnlinkedNext(vmas, pvmas, linked, marked, v + 1, next);
        v := next;
        if v == |vmas| { return; }
      }
      var ahead := NextParent(vmas, pvmas, v, p);
      if ahead == |pvmas| {
        UnlinkedNext(vmas, pvmas, linked, marked, v, |vmas|);
        return;
      }
      p := ahead;
    }
  }

  /** A pair that coincides and is not linked: the child has one more area below it. */
  lemma CoincidingPairSteppedOver()
    ensures exists vmas: seq<Vma>, pvmas: seq<Vma> ::
              && Ascending(vmas) && Ascending(pvmas) && |vmas| == 2 && |pvmas| == 1
              && Coincide(vmas[1], pvmas[0]) && ChildLink(vmas, pvmas, 1, NotShared)
  {
    var low := Vma(1, 2, true, true, false, 0, 0, NotShared);
    var area := Vma(5, 7, true, true, false, 0, 0, NotShared);
    SteppedOver([low, area], [area], 0, 1, 0);
    assert Coincide([low, area][1], [area][0]);
  }
}
