/** File IDs (criu/file-ids.c): IDs from the kcmp tree, IDs drawn from its counter directly, and a cache of both
    by device, inode and mount. */
module FileIds {
  import opened Options
  import opened SearchTree
  import opened KcmpIds

  /** What fd_parms says of a file: st_dev has 64 bits. */
  datatype Parms = Parms(dev: nat, ino: nat, mnt: int)

  /** A cached ID; the device is kept in 32 bits. */
  datatype FdId = FdId(dev: nat, ino: nat, mnt: int, id: nat)

  const BUCKETS: nat := 32

  function Hash(dev: nat, ino: nat): nat { (Trunc(dev) + ino) % BUCKETS }

  function CacheEntry(p: Parms, id: nat): FdId { FdId(Trunc(p.dev), p.ino, p.mnt, id) }

  predicate Matches(f: FdId, p: Parms) { f.dev == p.dev && f.ino == p.ino && f.mnt == p.mnt }

  /** All cached IDs of one bucket, the latest first. */
  function Bucket(log: seq<FdId>, h: nat): seq<FdId> {
    if log == [] then []
    else if Hash(log[0].dev, log[0].ino) == h then [log[0]] + Bucket(log[1..], h)
    else Bucket(log[1..], h)
  }

  /** The latest cached ID that matches. */
  function Latest(log: seq<FdId>, p: Parms): Option<nat> {
    if log == [] then None else if Matches(log[0], p) then Some(log[0].id) else Latest(log[1..], p)
  }

  /** Looking in the bucket of a file is as good as looking through everything that was cached. */
  lemma {:induction false} BucketSuffices(log: seq<FdId>, p: Parms)
    requires forall i :: 0 <= i < |log| ==> log[i].dev < WORD
    ensures Latest(Bucket(log, Hash(p.dev, p.ino)), p) == Latest(log, p)
  {
    if log != [] {
      var h := Hash(p.dev, p.ino);
      BucketSuffices(log[1..], p);
      if Hash(log[0].dev, log[0].ino) == h {
        var b := Bucket(log, h);
        assert b[0] == log[0] && b[1..] == Bucket(log[1..], h);
      } else {
        assert !Matches(log[0], p);
      }
    }
  }

  /** Entry f is of device, inode and mount of p. */
  ghost predicate OfFile(f: FdId, p: Parms) { f.dev == p.dev && f.ino == p.ino && f.mnt == p.mnt }

  /** A lookup yields the ID of the latest entry with the same device, inode and mount, and nothing if there is none. */
  lemma {:induction false} LatestByFields(log: seq<FdId>, p: Parms)
    ensures Latest(log, p).None? <==> forall l :: 0 <= l < |log| ==> !OfFile(log[l], p)
    ensures forall l :: 0 <= l < |log| && OfFile(log[l], p) && (forall m :: 0 <= m < l ==> !OfFile(log[m], p)) ==>
              Latest(log, p) == Some(log[l].id)
  {
    if log != [] {
      var rest := log[1..];
      LatestByFields(rest, p);
      assert forall l :: 0 < l < |log| ==> log[l] == rest[l - 1];
      forall l | 0 <= l < |log| && OfFile(log[l], p) && (forall m :: 0 <= m < l ==> !OfFile(log[m], p))
        ensures Latest(log, p) == Some(log[l].id)
      {
        if l > 0 {
          assert !OfFile(log[0], p) && OfFile(rest[l - 1], p);
          forall m | 0 <= m < l - 1 ensures !OfFile(rest[m], p) { assert rest[m] == log[m + 1]; }
        }
      }
      if Latest(log, p).None? {
        forall l | 0 <= l < |log| ensures !OfFile(log[l], p) { if l > 0 { assert !OfFile(rest[l - 1], p); } }
      }
      if forall l :: 0 <= l < |log| ==> !OfFile(log[l], p) {
        assert !OfFile(log[0], p);
        assert forall l :: 0 <= l < |rest| ==> rest[l] == log[l + 1];
      }
    }
  }

  /** The cache finds what was cached last for the same file, if and only if the device number fits 32 bits. */
  lemma {:induction false} FindsWhatWasCached(log: seq<FdId>, p: Parms, id: nat)
    ensures p.dev < WORD ==> Latest([CacheEntry(p, id)] + log, p) == Some(id)
    ensures p.dev >= WORD && (forall i :: 0 <= i < |log| ==> log[i].dev < WORD) ==>
              Latest([CacheEntry(p, id)] + log, p) == None
  {
    var all := [CacheEntry(p, id)] + log;
    assert all[1..] == log && all[0] == CacheEntry(p, id);
    if p.dev >= WORD && forall i :: 0 <= i < |log| ==> log[i].dev < WORD { WideDeviceUnseen(log, p); }
  }

  lemma {:induction false} WideDeviceUnseen(log: seq<FdId>, p: Parms)
    requires p.dev >= WORD && forall i :: 0 <= i < |log| ==> log[i].dev < WORD
    ensures Latest(log, p) == None
  {
    if log != [] { WideDeviceUnseen(log[1..], p); }
  }

  /** fd_tree and fd_id_cache. */
  class FileIds {
    const tree: KidTree
    var cache: seq<seq<FdId>>
    ghost var log: seq<FdId>

    ghost predicate Valid()
      reads this, tree
    {
      && tree.Valid() && |cache| == BUCKETS
      && (forall i :: 0 <= i < |log| ==> log[i].dev < WORD)
      && (forall h :: 0 <= h < BUCKETS ==> cache[h] == Bucket(log, h))
    }

    constructor (k: Kernel, balanceSub: Tree<Entry> -> Tree<Entry>, balanceGen: Tree<Group> -> Tree<Group>)
      requires KeepsOrder(balanceSub) && KeepsOrder(balanceGen)
      ensures Valid() && fresh(tree) && tree.k == k && tree.subid == 1 && tree.ids == map[] && log == []
    {
      tree := new KidTree(k, balanceSub, balanceGen);
      cache, log := seq(BUCKETS, h => []), [];
    }

    /** fd_id_cache_one; `alloc` says whether its allocation succeeds. */
    method CacheOne(id: nat, p: Parms, alloc: bool)
      requires Valid()
      modifies this
      ensures Valid() && log == if alloc then [CacheEntry(p, id)] + old(log) else old(log)
    {
      if alloc {
        var fi := CacheEntry(p, id);
        var hv := Hash(p.dev, p.ino);
        ghost var after := [fi] + log;
        assert after[1..] == log && Hash(fi.dev, fi.ino) == hv;
        cache, log := cache[hv := [fi] + cache[hv]], after;
      }
    }

    /** fd_id_cache_lookup. */
    method Lookup(p: Parms) returns (r: Option<nat>)
      requires Valid()
      ensures r == Latest(log, p)
    {
      var chain := cache[Hash(p.dev, p.ino)];
      BucketSuffices(log, p);
      var i := 0;
      while i < |chain|
        invariant 0 <= i <= |chain| && Latest(chain[i..], p) == Latest(log, p)
      {
        if Matches(chain[i], p) {
          return Some(chain[i].id);
        }
        assert chain[i..][1..] == chain[i + 1..];
        i := i + 1;
      }
      r := None;
    }

    /** fd_id_generate_special: a cached ID, or the next one of the tree's counter, which is not checked for zero. */
    method GenerateSpecial(p: Option<Parms>, alloc: bool) returns (id: nat, isNew: bool)
      requires Valid()
      modifies this, tree
      ensures Valid() && tree.ids == old(tree.ids)
      ensures isNew <==> p.None? || Latest(old(log), p.value) == None
      ensures !isNew ==> Some(id) == Latest(old(log), p.value) && tree.subid == old(tree.subid) && log == old(log)
      ensures isNew ==> id == Trunc(old(tree.subid)) && tree.subid == old(tree.subid) + 1
      ensures isNew ==> log == if p.Some? && alloc then [CacheEntry(p.value, id)] + old(log) else old(log)
    {
      if p.Some? {
        var fi := Lookup(p.value);
        if fi.Some? {
          return fi.value, false;
        }
      }
      id, isNew := Trunc(tree.subid), true;
      tree.subid := tree.subid + 1;
      if p.Some? { CacheOne(id, p.value, alloc); }
    }

    /** fd_id_generate: a fresh ID is cached as well. */
    method Generate(elem: Elem, p: Parms, fails: Elem -> bool, alloc: bool, allocCache: bool) returns (r: Outcome)
      requires Valid()
      modifies this, tree
      ensures Valid()
      ensures r.Known? ==> KeyOf(tree.k, elem) in old(tree.ids) && r.id == old(tree.ids)[KeyOf(tree.k, elem)]
      ensures r.Fresh? ==> KeyOf(tree.k, elem) !in old(tree.ids) && r.id == Trunc(old(tree.subid)) != 0
      ensures r.Fresh? ==> tree.ids == old(tree.ids)[KeyOf(tree.k, elem) := r.id] && tree.subid == old(tree.subid) + 1
      ensures r.Known? || r.Failed? ==> tree.ids == old(tree.ids) && tree.subid == old(tree.subid)
      ensures r.Failed? ==>
                (KeyOf(tree.k, elem) !in old(tree.ids) && !alloc) || tree.CompareFails(old(tree.root), fails)
      ensures r.Bug? ==> KeyOf(tree.k, elem) !in old(tree.ids) && Trunc(old(tree.subid)) == 0
      ensures log == if r.Fresh? && allocCache then [CacheEntry(p, r.id)] + old(log) else old(log)
    {
      r := tree.Generate(elem, fails, alloc);
      if r.Fresh? { CacheOne(r.id, p, allocCache); }
    }
  }
}
