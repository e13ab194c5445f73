/** Offsets of duplicate epoll targets (criu/eventpoll.c, dump_one_eventpoll). */
module EpollOffsets {

  datatype Toff = Toff(idx: nat, tfd: int, off: nat)

  // ----- qsort

  type Order = (Toff, Toff) -> bool

  /** toff_cmp is not above zero. */
  function ByTarget(): Order { (a: Toff, b: Toff) => a.tfd < b.tfd || (a.tfd == b.tfd && a.idx <= b.idx) }

  /** toff_cmp_idx is not above zero. */
  function ByIndex(): Order { (a: Toff, b: Toff) => a.idx <= b.idx }

  ghost predicate TotalOrder(le: Order) {
    && (forall a, b :: le(a, b) || le(b, a))
    && (forall a, b, c :: le(a, b) && le(b, c) ==> le(a, c))
  }

  ghost predicate SortedBy(le: Order, s: seq<Toff>) {
    forall i, j :: 0 <= i < j < |s| ==> le(s[i], s[j])
  }

  function Insert(le: Order, s: seq<Toff>, x: Toff): seq<Toff> {
    if s == [] || le(x, s[0]) then [x] + s else [s[0]] + Insert(le, s[1..], x)
  }

  function Sorted(le: Order, s: seq<Toff>): seq<Toff> {
    if s == [] then [] else Insert(le, Sorted(le, s[1..]), s[0])
  }

  lemma {:induction false} InsertSorts(le: Order, s: seq<Toff>, x: Toff)
    requires TotalOrder(le) && SortedBy(le, s)
    ensures SortedBy(le, Insert(le, s, x)) && multiset(Insert(le, s, x)) == multiset(s) + multiset{x}
  {
    if s != [] {
      assert s == [s[0]] + s[1..];
      if !le(x, s[0]) {
        InsertSorts(le, s[1..], x);
        var r := Insert(le, s[1..], x);
        forall j | 0 <= j < |r| ensures le(s[0], r[j]) {
          assert r[j] in multiset(r);
          assert r[j] == x || r[j] in multiset(s[1..]);
        }
      } else {
        forall j | 0 <= j < |s| ensures le(x, s[j]) { assert j == 0 || le(s[0], s[j]); }
      }
    }
  }

  lemma {:induction false} SortedSorts(le: Order, s: seq<Toff>)
    requires TotalOrder(le)
    ensures SortedBy(le, Sorted(le, s)) && multiset(Sorted(le, s)) == multiset(s)
  {
    if s != [] {
      SortedSorts(le, s[1..]);
      InsertSorts(le, Sorted(le, s[1..]), s[0]);
      assert s == [s[0]] + s[1..];
    }
  }

  method Qsort(a: array<Toff>, le: Order)
    requires TotalOrder(le)
    modifies a
    ensures SortedBy(le, a[..]) && multiset(a[..]) == multiset(old(a[..]))
  {
    var s := Sorted(le, a[..]);
    SortedSorts(le, a[..]);
    assert |s| == |multiset(s)| == a.Length;
    forall i | 0 <= i < a.Length { a[i] := s[i]; }
    assert a[..] == s;
  }

  // ----- the entries

  /** The earlier entries with the same target. */
  function Earlier(tfds: seq<int>, i: nat): set<nat>
    requires i < |tfds|
  {
    set j: nat | j < i && tfds[j] == tfds[i]
  }

  /** One entry for each target, in some order. */
  ghost predicate Covers(tfds: seq<int>, s: seq<Toff>) {
    && |s| == |tfds|
    && (forall p :: 0 <= p < |s| ==> s[p].idx < |tfds| && s[p].tfd == tfds[s[p].idx])
    && (forall p, q :: 0 <= p < q < |s| ==> s[p].idx != s[q].idx)
    && (forall j :: 0 <= j < |tfds| ==> HasIndex(s, j))
  }

  ghost predicate HasIndex(s: seq<Toff>, j: nat) { exists p :: 0 <= p < |s| && s[p].idx == j }

  lemma TwiceInMultiset(s: seq<Toff>, p: nat, q: nat)
    requires p < q < |s| && s[p] == s[q]
    ensures multiset(s)[s[p]] >= 2
  {
    assert s == s[..q] + [s[q]] + s[q + 1..];
    assert s[p] in s[..q];
  }

  lemma {:induction false} OnceInMultiset(s: seq<Toff>, x: Toff)
    requires forall p, q :: 0 <= p < q < |s| ==> s[p].idx != s[q].idx
    ensures multiset(s)[x] <= 1
  {
    if s != [] {
      assert s == [s[0]] + s[1..];
      OnceInMultiset(s[1..], x);
      if x == s[0] { assert x !in s[1..]; }
    }
  }

  /** A reordering covers the same targets. */
  lemma StillCovers(tfds: seq<int>, s: seq<Toff>, r: seq<Toff>)
    requires Covers(tfds, s) && multiset(r) == multiset(s)
    ensures Covers(tfds, r)
  {
    assert |r| == |multiset(r)| == |multiset(s)| == |s|;
    forall p | 0 <= p < |r| ensures r[p] in s { assert r[p] in multiset(r); }
    forall p, q | 0 <= p < q < |r| ensures r[p].idx != r[q].idx {
      if r[p] == r[q] { TwiceInMultiset(r, p, q); OnceInMultiset(s, r[p]); }
      SameIndexSameEntry(s, r[p], r[q]);
    }
    forall j | 0 <= j < |tfds| ensures HasIndex(r, j) {
      assert HasIndex(s, j);
      var p :| 0 <= p < |s| && s[p].idx == j;
      assert s[p] in multiset(r);
    }
  }

  lemma SameIndexSameEntry(s: seq<Toff>, a: Toff, b: Toff)
    requires (forall p, q :: 0 <= p < q < |s| ==> s[p].idx != s[q].idx) && a in s && b in s
    ensures a.idx == b.idx ==> a == b
  {
    var p, q :| 0 <= p < |s| && s[p] == a && 0 <= q < |s| && s[q] == b;
  }

  // ----- the scan

  /** The indices of the entries before p that have the same target. */
  function Before(s: seq<Toff>, p: nat): set<nat>
    requires p < |s|
  {
    set q | 0 <= q < p && s[q].tfd == s[p].tfd :: s[q].idx
  }

  /** In target order these are the earlier entries with the same target. */
  lemma BeforeIsEarlier(tfds: seq<int>, s: seq<Toff>, p: nat)
    requires Covers(tfds, s) && SortedBy(ByTarget(), s) && p < |s|
    ensures Before(s, p) == Earlier(tfds, s[p].idx)
  {
    forall j | j in Earlier(tfds, s[p].idx) ensures j in Before(s, p) {
      assert HasIndex(s, j);
      var q :| 0 <= q < |s| && s[q].idx == j;
      assert q > p ==> ByTarget()(s[p], s[q]);
    }
    forall j | j in Before(s, p) ensures j in Earlier(tfds, s[p].idx) {
      var q :| 0 <= q < p && s[q].tfd == s[p].tfd && s[q].idx == j;
      assert ByTarget()(s[q], s[p]);
    }
  }

  lemma BeforeStep(s: seq<Toff>, p: nat)
    requires 0 < p < |s| && SortedBy(ByTarget(), s) && (forall p, q :: 0 <= p < q < |s| ==> s[p].idx != s[q].idx)
    ensures s[p].tfd == s[p - 1].tfd ==> |Before(s, p)| == |Before(s, p - 1)| + 1
    ensures s[p].tfd != s[p - 1].tfd ==> Before(s, p) == {}
  {
    if s[p].tfd == s[p - 1].tfd {
      assert Before(s, p) == Before(s, p - 1) + {s[p - 1].idx};
      assert s[p - 1].idx !in Before(s, p - 1);
    } else {
      forall q | 0 <= q < p ensures s[q].tfd != s[p].tfd {
        assert ByTarget()(s[p - 1], s[p]) && (q < p - 1 ==> ByTarget()(s[q], s[p - 1]));
      }
    }
  }

  /** The same entries but for their offsets. */
  ghost predicate SameButOffsets(s: seq<Toff>, r: seq<Toff>) {
    |s| == |r| && forall p :: 0 <= p < |s| ==> r[p].idx == s[p].idx && r[p].tfd == s[p].tfd
  }

  lemma OffsetsDoNotMatter(tfds: seq<int>, s: seq<Toff>, r: seq<Toff>)
    requires SameButOffsets(s, r) && Covers(tfds, s)
    ensures Covers(tfds, r)
  {
    forall j | 0 <= j < |tfds| ensures HasIndex(r, j) {
      assert HasIndex(s, j);
      var p :| 0 <= p < |s| && s[p].idx == j;
      assert r[p].idx == j;
    }
  }

  /** The loop between the two sorts: each entry gets one more than the one before it with the same target. */
  method Scan(a: array<Toff>, ghost tfds: seq<int>)
    requires Covers(tfds, a[..]) && SortedBy(ByTarget(), a[..]) && forall p :: 0 <= p < a.Length ==> a[p].off == 0
    modifies a
    ensures SameButOffsets(old(a[..]), a[..]) && forall p :: 0 <= p < a.Length ==> a[p].off == |Before(old(a[..]), p)|
  {
    ghost var s := a[..];
    if a.Length == 0 { return; }
    assert Before(s, 0) == {};
    for i := 1 to a.Length
      invariant SameButOffsets(s, a[..])
      invariant forall p :: 0 <= p < i ==> a[p].off == |Before(s, p)|
      invariant forall p :: i <= p < a.Length ==> a[p].off == 0
    {
      BeforeStep(s, i);
      if a[i].tfd == a[i - 1].tfd {
        a[i] := a[i].(off := a[i - 1].off + 1);
      }
    }
  }

  lemma {:induction false} AtLeast(s: seq<Toff>, i: nat)
    requires i < |s| && SortedBy(ByIndex(), s) && forall p, q :: 0 <= p < q < |s| ==> s[p].idx != s[q].idx
    ensures s[i].idx >= i
  {
    if i > 0 { AtLeast(s, i - 1); assert ByIndex()(s[i - 1], s[i]); }
  }

  lemma {:induction false} AtMost(s: seq<Toff>, i: nat)
    requires i < |s| && SortedBy(ByIndex(), s) && forall p, q :: 0 <= p < q < |s| ==> s[p].idx != s[q].idx
    requires forall p :: 0 <= p < |s| ==> s[p].idx < |s|
    ensures s[i].idx <= i
    decreases |s| - i
  {
    if i + 1 < |s| { AtMost(s, i + 1); assert ByIndex()(s[i], s[i + 1]); }
  }

  ghost predicate OffsetsRight(tfds: seq<int>, s: seq<Toff>) {
    forall p :: 0 <= p < |s| ==> s[p].idx < |tfds| && s[p].off == |Earlier(tfds, s[p].idx)|
  }

  lemma ScannedRight(tfds: seq<int>, s: seq<Toff>, r: seq<Toff>)
    requires Covers(tfds, s) && SortedBy(ByTarget(), s) && SameButOffsets(s, r)
    requires forall p :: 0 <= p < |s| ==> r[p].off == |Before(s, p)|
    ensures OffsetsRight(tfds, r)
  {
    forall p | 0 <= p < |r| ensures r[p].idx < |tfds| && r[p].off == |Earlier(tfds, r[p].idx)| {
      BeforeIsEarlier(tfds, s, p);
    }
  }

  /** After the second sort every entry is at its own index, and its offset is the number of earlier entries with the
      same target. */
  method TargetOffsets(tfds: seq<int>) returns (toff: array<Toff>)
    ensures toff.Length == |tfds|
    ensures forall i :: 0 <= i < |tfds| ==> toff[i] == Toff(i, tfds[i], |Earlier(tfds, i)|)
  {
    toff := new Toff[|tfds|](i requires 0 <= i < |tfds| => Toff(i, tfds[i], 0));
    forall j | 0 <= j < |tfds| ensures HasIndex(toff[..], j) { assert toff[..][j].idx == j; }
    ghost var s0 := toff[..];
    Qsort(toff, ByTarget());
    ghost var s1 := toff[..];
    StillCovers(tfds, s0, s1);
    forall p | 0 <= p < |s1| ensures s1[p].off == 0 { assert s1[p] in multiset(s0); }
    Scan(toff, tfds);
    ghost var s2 := toff[..];
    ScannedRight(tfds, s1, s2);
    OffsetsDoNotMatter(tfds, s1, s2);
    Qsort(toff, ByIndex());
    ghost var s3 := toff[..];
    StillCovers(tfds, s2, s3);
    forall i | 0 <= i < |tfds| ensures toff[i] == Toff(i, tfds[i], |Earlier(tfds, i)|) {
      AtLeast(s3, i);
      AtMost(s3, i);
      assert s3[i] in multiset(s2);
    }
  }
}
