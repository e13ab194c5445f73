/** Identity of kernel objects (criu/kcmp-ids.c): a tree of genids, each with a tree of objects in kcmp order. */
module KcmpIds {
  import opened SearchTree

  datatype Elem = Elem(pid: nat, genid: nat, idx: nat)

  /** A kid_entry with its 32-bit subid. */
  datatype Entry = Entry(subid: nat, elem: Elem)

  /** A node of the main tree: the first entry of a genid, with the tree of all entries of that genid. */
  datatype Group = Group(genid: nat, sub: Tree<Entry>)

  /** The kernel: the address of the object behind an element. */
  datatype Kernel = Kernel(obj: Elem -> int)

  /** What an entry is compared with: an element's object (KCMP_FILE and the like) or the target of an epoll slot; and
      with which elements the comparison fails this time. */
  datatype Probe = Probe(obj: int, fails: Elem -> bool)

  /** The kcmp system call: 0 if equal, 1 if the first object is lower, 2 if it is higher, or an error. */
  function Kcmp(k: Kernel, first: Elem, second: Probe): int {
    if second.fails(first) then -1
    else if k.obj(first) == second.obj then 0
    else if k.obj(first) < second.obj then 1
    else 2
  }

  const WORD: nat := 0x1_0000_0000

  /** The 64-bit counter as it is stored in 32 bits; that the counter itself wraps at 2^64 makes no difference to
      this. */
  function Trunc(n: nat): nat { n % WORD }

  /** What identifies a kernel object. */
  datatype Key = Key(genid: nat, obj: int)

  function KeyOf(k: Kernel, e: Elem): Key { Key(e.genid, k.obj(e)) }

  function GenKey(g: Group): int { g.genid }

  /** Higher objects come first: a node that compares lower sends the search to the left. */
  function SubKey(k: Kernel): Entry -> int { (e: Entry) => -k.obj(e.elem) }

  ghost predicate GroupOk(k: Kernel, g: Group) {
    && InOrder(g.sub) != [] && Sorted(SubKey(k), InOrder(g.sub))
    && forall i :: 0 <= i < |InOrder(g.sub)| ==> InOrder(g.sub)[i].elem.genid == g.genid
  }

  /** Both levels are in order. */
  ghost predicate GroupsOk(k: Kernel, gs: seq<Group>) {
    && Sorted(GenKey, gs)
    && forall i :: 0 <= i < |gs| ==> GroupOk(k, gs[i])
  }

  ghost predicate EntryIn(gs: seq<Group>, e: Entry) {
    exists i :: 0 <= i < |gs| && e in InOrder(gs[i].sub)
  }

  /** The tree holds exactly one entry for every known object, with its ID. */
  ghost predicate Agrees(k: Kernel, gs: seq<Group>, ids: map<Key, nat>) {
    && (forall e :: EntryIn(gs, e) ==> KeyOf(k, e.elem) in ids && ids[KeyOf(k, e.elem)] == e.subid)
    && (forall key :: key in ids ==> exists e :: EntryIn(gs, e) && KeyOf(k, e.elem) == key)
  }

  // ----- how an insertion changes the tree

  lemma AgreesInserted(k: Kernel, gs: seq<Group>, gs': seq<Group>, ids: map<Key, nat>, e: Entry)
    requires Agrees(k, gs, ids) && KeyOf(k, e.elem) !in ids
    requires forall x :: EntryIn(gs', x) <==> EntryIn(gs, x) || x == e
    ensures Agrees(k, gs', ids[KeyOf(k, e.elem) := e.subid])
  {
    var ids' := ids[KeyOf(k, e.elem) := e.subid];
    forall key | key in ids' ensures exists x :: EntryIn(gs', x) && KeyOf(k, x.elem) == key {
      if key in ids {
        var x :| EntryIn(gs, x) && KeyOf(k, x.elem) == key;
        assert EntryIn(gs', x);
      } else {
        assert EntryIn(gs', e);
      }
    }
  }

  lemma NewGroupHas(gs: seq<Group>, i: nat, g: Group, r: seq<Group>, e: Entry, x: Entry)
    requires i <= |gs| && r == Inserted(gs, i, g) && InOrder(g.sub) == [e]
    ensures EntryIn(r, x) <==> EntryIn(gs, x) || x == e
  {
    assert r[i] == g && (forall j :: 0 <= j < i ==> r[j] == gs[j]) && (forall j :: i < j < |r| ==> r[j] == gs[j - 1]);
    if EntryIn(gs, x) {
      var j :| 0 <= j < |gs| && x in InOrder(gs[j].sub);
      if j >= i { assert r[j + 1] == gs[j]; }
    }
    if EntryIn(r, x) && x != e {
      var j :| 0 <= j < |r| && x in InOrder(r[j].sub);
    }
    if x == e { assert e in InOrder(r[i].sub); }
  }

  lemma NewGroup(k: Kernel, gs: seq<Group>, i: nat, g: Group, e: Entry, r: seq<Group>)
    requires GroupsOk(k, gs) && Place(GenKey, gs, g.genid, i) && InOrder(g.sub) == [e] && e.elem.genid == g.genid
    requires r == Inserted(gs, i, g)
    ensures GroupsOk(k, r) && forall x :: EntryIn(r, x) <==> EntryIn(gs, x) || x == e
  {
    InsertedSorted(GenKey, gs, i, g);
    assert GroupOk(k, g);
    forall j | 0 <= j < |r| ensures GroupOk(k, r[j]) {
      if j > i { assert r[j] == gs[j - 1]; }
    }
    forall x ensures EntryIn(r, x) <==> EntryIn(gs, x) || x == e { NewGroupHas(gs, i, g, r, e, x); }
  }

  lemma GrownGroup(k: Kernel, gs: seq<Group>, i: nat, g: Group, e: Entry, j: nat)
    requires GroupsOk(k, gs) && i < |gs| && gs[i].genid == g.genid == e.elem.genid
    requires Place(SubKey(k), InOrder(gs[i].sub), SubKey(k)(e), j)
    requires InOrder(g.sub) == Inserted(InOrder(gs[i].sub), j, e)
    ensures GroupsOk(k, gs[i := g])
    ensures forall x :: EntryIn(gs[i := g], x) <==> EntryIn(gs, x) || x == e
  {
    var r, s := gs[i := g], InOrder(gs[i].sub);
    InsertedSorted(SubKey(k), s, j, e);
    forall l | 0 <= l < |InOrder(g.sub)| ensures InOrder(g.sub)[l].elem.genid == g.genid {
      if l < j { assert InOrder(g.sub)[l] == s[l]; } else if l > j { assert InOrder(g.sub)[l] == s[l - 1]; }
    }
    assert forall l :: 0 <= l < |r| && l != i ==> r[l] == gs[l];
    InsertedHas(s, j, e);
    forall x ensures EntryIn(r, x) <==> EntryIn(gs, x) || x == e {
      if EntryIn(gs, x) {
        var l :| 0 <= l < |gs| && x in InOrder(gs[l].sub);
        assert x in InOrder(r[l].sub);
      }
      if EntryIn(r, x) && x != e {
        var l :| 0 <= l < |r| && x in InOrder(r[l].sub);
        assert x in InOrder(gs[l].sub);
      }
      if x == e { assert e in InOrder(r[i].sub); }
    }
  }

  lemma InsertedHas(s: seq<Entry>, j: nat, e: Entry)
    requires j <= |s|
    ensures forall x :: x in Inserted(s, j, e) <==> x in s || x == e
  {
    forall x ensures x in Inserted(s, j, e) <==> x in s || x == e {
      assert s == s[..j] + s[j..];
    }
  }

  // ----- what a search tells of the known objects

  lemma GroupUnknown(k: Kernel, gs: seq<Group>, ids: map<Key, nat>, key: Key)
    requires GroupsOk(k, gs) && Agrees(k, gs, ids) && Absent(GenKey, gs, key.genid)
    ensures key !in ids
  {
    forall e | EntryIn(gs, e) ensures KeyOf(k, e.elem) != key {
      var j :| 0 <= j < |gs| && e in InOrder(gs[j].sub);
      assert GroupOk(k, gs[j]) && GenKey(gs[j]) != key.genid;
    }
  }

  lemma EntryDiffers(k: Kernel, gs: seq<Group>, key: Key, i: nat, e: Entry)
    requires GroupsOk(k, gs) && i < |gs| && gs[i].genid == key.genid && EntryIn(gs, e)
    requires Absent(SubKey(k), InOrder(gs[i].sub), -key.obj)
    ensures KeyOf(k, e.elem) != key
  {
    var j :| 0 <= j < |gs| && e in InOrder(gs[j].sub);
    assert GroupOk(k, gs[j]);
    if i == j {
      var l :| 0 <= l < |InOrder(gs[i].sub)| && InOrder(gs[i].sub)[l] == e;
      assert SubKey(k)(InOrder(gs[i].sub)[l]) != -key.obj;
    } else {
      assert GenKey(gs[i]) != GenKey(gs[j]);
    }
  }

  lemma ObjectUnknown(k: Kernel, gs: seq<Group>, ids: map<Key, nat>, key: Key, i: nat)
    requires GroupsOk(k, gs) && Agrees(k, gs, ids) && i < |gs| && gs[i].genid == key.genid
    requires Absent(SubKey(k), InOrder(gs[i].sub), -key.obj)
    ensures key !in ids
  {
    forall e | EntryIn(gs, e) ensures KeyOf(k, e.elem) != key { EntryDiffers(k, gs, key, i, e); }
  }

  lemma ObjectKnown(k: Kernel, gs: seq<Group>, ids: map<Key, nat>, key: Key, i: nat, e: Entry)
    requires GroupsOk(k, gs) && Agrees(k, gs, ids) && i < |gs| && gs[i].genid == key.genid
    requires e in InOrder(gs[i].sub) && k.obj(e.elem) == key.obj
    ensures EntryIn(gs, e) && KeyOf(k, e.elem) == key && key in ids && ids[key] == e.subid
  {
    assert GroupOk(k, gs[i]) && EntryIn(gs, e);
  }

  // ----- the tree

  datatype Search = Hit(entry: Entry) | Miss | Error

  /** Known: seen before.  Fresh: a new ID (new_id is raised).  Failed: kcmp or the allocation failed.  Bug: BUG_ON. */
  datatype Outcome = Known(id: nat) | Fresh(id: nat) | Failed | Bug

  class KidTree {
    const k: Kernel
    const balanceSub: Tree<Entry> -> Tree<Entry>
    const balanceGen: Tree<Group> -> Tree<Group>
    var root: Tree<Group>
    var subid: nat
    ghost var ids: map<Key, nat>

    ghost predicate Valid()
      reads this
    {
      && KeepsOrder(balanceSub) && KeepsOrder(balanceGen)
      && GroupsOk(k, InOrder(root)) && Agrees(k, InOrder(root), ids)
    }

    /** DECLARE_KCMP_TREE. */
    constructor (k: Kernel, balanceSub: Tree<Entry> -> Tree<Entry>, balanceGen: Tree<Group> -> Tree<Group>)
      requires KeepsOrder(balanceSub) && KeepsOrder(balanceGen)
      ensures Valid() && this.k == k && subid == 1 && ids == map[]
    {
      this.k, this.balanceSub, this.balanceGen := k, balanceSub, balanceGen;
      this.root, this.subid, this.ids := Leaf, 1, map[];
    }

    /** The loop of kid_generate_sub and of kid_lookup_epoll_tfd_sub. */
    method SearchSub(t: Tree<Entry>, probe: Probe) returns (r: Search)
      requires Sorted(SubKey(k), InOrder(t))
      ensures r.Hit? ==> r.entry in InOrder(t) && k.obj(r.entry.elem) == probe.obj
      ensures r.Miss? ==> Absent(SubKey(k), InOrder(t), -probe.obj)
      ensures r.Error? ==> exists e :: e in InOrder(t) && probe.fails(e.elem)
    {
      var node := t;
      ghost var key, v := SubKey(k), -probe.obj;
      ghost var pre: seq<Entry>, post: seq<Entry> := [], [];
      while node.Node?
        invariant Searching(key, InOrder(t), pre, InOrder(node), post, v)
        decreases node
      {
        var cur := node.item;
        ghost var a, b := InOrder(node.left), InOrder(node.right);
        SearchHas(key, InOrder(t), pre, InOrder(node), a, cur, b, post, v);
        var ret := Kcmp(k, cur.elem, probe);
        if ret == 1 {
          GoLeft(key, InOrder(t), pre, InOrder(node), a, cur, b, post, v);
          post := [cur] + b + post;
          node := node.left;
        } else if ret == 2 {
          GoRight(key, InOrder(t), pre, InOrder(node), a, cur, b, post, v);
          pre := pre + a + [cur];
          node := node.right;
        } else if ret == 0 {
          return Hit(cur);
        } else {
          return Error;
        }
      }
      SearchEnds(key, InOrder(t), pre, post, v);
      r := Miss;
    }

    /** The loop of kid_generate_gen: the group of the element's genid, if there is one, and its place. */
    method SearchGen(elem: Elem) returns (found: bool, g: Group, ghost i: nat)
      requires Valid()
      ensures found ==> i < |InOrder(root)| && InOrder(root)[i] == g && g.genid == elem.genid
      ensures !found ==> Absent(GenKey, InOrder(root), elem.genid)
    {
      var node := root;
      g, i := Group(0, Leaf), 0;
      ghost var pre: seq<Group>, post: seq<Group> := [], [];
      while node.Node?
        invariant Searching(GenKey, InOrder(root), pre, InOrder(node), post, elem.genid)
        decreases node
      {
        var cur := node.item;
        ghost var a, b := InOrder(node.left), InOrder(node.right);
        SearchHas(GenKey, InOrder(root), pre, InOrder(node), a, cur, b, post, elem.genid);
        if elem.genid < cur.genid {
          GoLeft(GenKey, InOrder(root), pre, InOrder(node), a, cur, b, post, elem.genid);
          post := [cur] + b + post;
          node := node.left;
        } else if elem.genid > cur.genid {
          GoRight(GenKey, InOrder(root), pre, InOrder(node), a, cur, b, post, elem.genid);
          pre := pre + a + [cur];
          node := node.right;
        } else {
          return true, cur, |pre| + |a|;
        }
      }
      SearchEnds(GenKey, InOrder(root), pre, post, elem.genid);
      found := false;
    }

    /** The new entry of a fresh object, linked below the group at place i of the main order. */
    method AddToGroup(g: Group, e: Entry, ghost i: nat)
      requires Valid() && i < |InOrder(root)| && InOrder(root)[i] == g && g.genid == e.elem.genid
      requires KeyOf(k, e.elem) !in ids && Absent(SubKey(k), InOrder(g.sub), -k.obj(e.elem))
      modifies this`root, this`ids
      ensures Valid() && ids == old(ids)[KeyOf(k, e.elem) := e.subid]
    {
      assert GroupOk(k, g);
      var g' := Group(g.genid, balanceSub(Link(SubKey(k), g.sub, e)));
      ghost var j := LinkOrder(SubKey(k), g.sub, e);
      ReplaceOrder(GenKey, root, g', i);
      GrownGroup(k, InOrder(root), i, g', e, j);
      AgreesInserted(k, InOrder(root), InOrder(root)[i := g'], ids, e);
      root, ids := Replace(GenKey, root, g'), ids[KeyOf(k, e.elem) := e.subid];
    }

    /** The first entry of a genid. */
    method AddGroup(e: Entry)
      requires Valid() && KeyOf(k, e.elem) !in ids && Absent(GenKey, InOrder(root), e.elem.genid)
      modifies this`root, this`ids
      ensures Valid() && ids == old(ids)[KeyOf(k, e.elem) := e.subid]
    {
      var g := Group(e.elem.genid, balanceSub(Node(Leaf, e, Leaf)));
      assert InOrder(Node(Leaf, e, Leaf)) == [e];
      ghost var i := LinkOrder(GenKey, root, g);
      NewGroup(k, InOrder(root), i, g, e, Inserted(InOrder(root), i, g));
      AgreesInserted(k, InOrder(root), Inserted(InOrder(root), i, g), ids, e);
      root, ids := balanceGen(Link(GenKey, root, g)), ids[KeyOf(k, e.elem) := e.subid];
    }

    /** The comparison with some entry fails. */
    ghost predicate CompareFails(t: Tree<Group>, fails: Elem -> bool) {
      exists e :: EntryIn(InOrder(t), e) && fails(e.elem)
    }

    /** kid_generate_gen; `fails` says with which elements a comparison would fail and `alloc` whether the allocation
        of an entry would succeed. */
    method Generate(elem: Elem, fails: Elem -> bool, alloc: bool) returns (r: Outcome)
      requires Valid()
      modifies this
      ensures Valid()
      ensures r.Known? ==>
                KeyOf(k, elem) in old(ids) && r.id == old(ids)[KeyOf(k, elem)] && ids == old(ids) && subid == old(subid)
      ensures r.Fresh? ==> KeyOf(k, elem) !in old(ids) && r.id == Trunc(old(subid)) != 0 && subid == old(subid) + 1
      ensures r.Fresh? ==> ids == old(ids)[KeyOf(k, elem) := r.id]
      ensures r.Failed? ==> ids == old(ids) && subid == old(subid)
      ensures r.Failed? ==> (KeyOf(k, elem) !in old(ids) && !alloc) || CompareFails(old(root), fails)
      ensures r.Bug? ==> KeyOf(k, elem) !in old(ids) && Trunc(old(subid)) == 0
    {
      ghost var key := KeyOf(k, elem);
      var found, g, i := SearchGen(elem);
      if found {
        assert GroupOk(k, g);
        var s := SearchSub(g.sub, Probe(k.obj(elem), fails));
        if s.Hit? {
          ObjectKnown(k, InOrder(root), ids, key, i, s.entry);
          return Known(s.entry.subid);
        }
        if s.Error? {
          assert forall e :: e in InOrder(g.sub) ==> EntryIn(InOrder(root), e);
          return Failed;
        }
        ObjectUnknown(k, InOrder(root), ids, key, i);
      } else {
        GroupUnknown(k, InOrder(root), ids, key);
      }
      if !alloc {
        return Failed;
      }
      var e := Entry(Trunc(subid), elem);
      subid := subid + 1;
      if e.subid == 0 {
        return Bug;
      }
      if found { AddToGroup(g, e, i); } else { AddGroup(e); }
      r := Fresh(e.subid);
    }

    /** kid_lookup_epoll_tfd: the known element whose file an epoll slot watches. */
    method LookupEpollTfd(genid: nat, slot: Probe) returns (r: Search)
      requires Valid()
      ensures r.Hit? ==> EntryIn(InOrder(root), r.entry) && KeyOf(k, r.entry.elem) == Key(genid, slot.obj)
      ensures r.Hit? ==> Key(genid, slot.obj) in ids && ids[Key(genid, slot.obj)] == r.entry.subid
      ensures r.Miss? ==> Key(genid, slot.obj) !in ids
      ensures r.Error? ==> exists e :: EntryIn(InOrder(root), e) && slot.fails(e.elem)
    {
      var found, g, i := SearchGen(Elem(0, genid, 0));
      if !found {
        GroupUnknown(k, InOrder(root), ids, Key(genid, slot.obj));
        return Miss;
      }
      assert GroupOk(k, g);
      r := SearchSub(g.sub, slot);
      if r.Hit? {
        ObjectKnown(k, InOrder(root), ids, Key(genid, slot.obj), i, r.entry);
      } else if r.Miss? {
        ObjectUnknown(k, InOrder(root), ids, Key(genid, slot.obj), i);
      } else {
        assert forall e :: e in InOrder(g.sub) ==> EntryIn(InOrder(root), e);
      }
    }
  }
}
