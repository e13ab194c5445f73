/** Binary search trees as criu links them (include/rbtree.h): a new node goes where the search ended, and the
    tree is then reshaped in some way that keeps its in-order sequence. */
module SearchTree {

  datatype Tree<T> = Leaf | Node(left: Tree<T>, item: T, right: Tree<T>)

  function InOrder<T>(t: Tree<T>): seq<T> {
    match t
    case Leaf => []
    case Node(l, x, r) => InOrder(l) + [x] + InOrder(r)
  }

  ghost predicate Sorted<T>(key: T -> int, s: seq<T>) {
    forall i, j :: 0 <= i < j < |s| ==> key(s[i]) < key(s[j])
  }

  /** rb_link_and_balance keeps the in-order sequence. */
  ghost predicate KeepsOrder<T(!new)>(balance: Tree<T> -> Tree<T>) {
    forall t :: InOrder(balance(t)) == InOrder(t)
  }

  /** The tree with x linked in where the search for its key ended. */
  function Link<T>(key: T -> int, t: Tree<T>, x: T): Tree<T> {
    match t
    case Leaf => Node(Leaf, x, Leaf)
    case Node(l, cur, r) =>
      if key(x) < key(cur) then Node(Link(key, l, x), cur, r) else Node(l, cur, Link(key, r, x))
  }

  /** The tree with x in place of the item of the same key. */
  function Replace<T>(key: T -> int, t: Tree<T>, x: T): Tree<T> {
    match t
    case Leaf => Leaf
    case Node(l, cur, r) =>
      if key(x) < key(cur) then Node(Replace(key, l, x), cur, r)
      else if key(x) > key(cur) then Node(l, cur, Replace(key, r, x))
      else Node(l, x, r)
  }

  function Inserted<T>(s: seq<T>, i: nat, x: T): seq<T>
    requires i <= |s|
  {
    s[..i] + [x] + s[i..]
  }

  /** Key v is not in the sorted sequence s and would stand at i. */
  ghost predicate Place<T>(key: T -> int, s: seq<T>, v: int, i: nat) {
    && i <= |s|
    && (forall j :: 0 <= j < i ==> key(s[j]) < v)
    && (forall j :: i <= j < |s| ==> v < key(s[j]))
  }

  ghost predicate Absent<T>(key: T -> int, s: seq<T>, v: int) {
    forall i :: 0 <= i < |s| ==> key(s[i]) != v
  }

  lemma Parts<T>(key: T -> int, s: seq<T>, a: seq<T>, x: T, b: seq<T>)
    requires s == a + [x] + b && Sorted(key, s)
    ensures Sorted(key, a) && Sorted(key, b)
    ensures forall j :: 0 <= j < |a| ==> key(a[j]) < key(x)
    ensures forall j :: 0 <= j < |b| ==> key(x) < key(b[j])
    ensures forall j :: 0 <= j < |a| ==> s[j] == a[j]
    ensures forall j :: 0 <= j < |b| ==> s[|a| + 1 + j] == b[j]
  {
    assert s[|a|] == x;
    forall j | 0 <= j < |a| ensures s[j] == a[j] && key(a[j]) < key(x) { }
    forall j | 0 <= j < |b| ensures s[|a| + 1 + j] == b[j] && key(x) < key(b[j]) { }
    forall i, j | 0 <= i < j < |b| ensures key(b[i]) < key(b[j]) { assert key(s[|a| + 1 + i]) < key(s[|a| + 1 + j]); }
  }

  lemma PlaceLeft<T>(key: T -> int, s: seq<T>, a: seq<T>, x: T, b: seq<T>, y: T, i: nat)
    requires s == a + [x] + b && Sorted(key, s) && key(y) < key(x) && Place(key, a, key(y), i)
    ensures Place(key, s, key(y), i) && Inserted(s, i, y) == Inserted(a, i, y) + [x] + b
  {
    forall j | 0 <= j < |s| ensures j < i ==> key(s[j]) < key(y) ensures j >= i ==> key(y) < key(s[j]) {
      if j < |a| { assert s[j] == a[j]; } else { assert s[|a|] == x && (j > |a| ==> key(s[|a|]) < key(s[j])); }
    }
  }

  lemma PlaceRight<T>(key: T -> int, s: seq<T>, a: seq<T>, x: T, b: seq<T>, y: T, i: nat, n: nat)
    requires s == a + [x] + b && Sorted(key, s) && key(x) < key(y) && Place(key, b, key(y), i) && n == |a| + 1 + i
    ensures Place(key, s, key(y), n) && Inserted(s, n, y) == a + [x] + Inserted(b, i, y)
  {
    forall j | 0 <= j < |s| ensures j < n ==> key(s[j]) < key(y) ensures j >= n ==> key(y) < key(s[j]) {
      if j <= |a| {
        assert s[|a|] == x && (j < |a| ==> key(s[j]) < key(s[|a|]));
      } else {
        var p := j - |a| - 1;
        assert s[j] == b[p];
      }
    }
  }

  /** Linking puts the new item at its place in the order. */
  lemma {:induction false} LinkOrder<T>(key: T -> int, t: Tree<T>, x: T) returns (i: nat)
    requires Sorted(key, InOrder(t)) && Absent(key, InOrder(t), key(x))
    ensures Place(key, InOrder(t), key(x), i) && InOrder(Link(key, t, x)) == Inserted(InOrder(t), i, x)
  {
    match t
    case Leaf => i := 0;
    case Node(l, cur, r) =>
      var s, a, b := InOrder(t), InOrder(l), InOrder(r);
      Parts(key, s, a, cur, b);
      assert key(s[|a|]) != key(x);
      if key(x) < key(cur) {
        i := LinkOrder(key, l, x);
        PlaceLeft(key, s, a, cur, b, x, i);
      } else {
        forall j | 0 <= j < |b| ensures key(b[j]) != key(x) { assert s[|a| + 1 + j] == b[j]; }
        var j := LinkOrder(key, r, x);
        i := |a| + 1 + j;
        PlaceRight(key, s, a, cur, b, x, j, i);
      }
  }

  lemma InsertedSorted<T>(key: T -> int, s: seq<T>, i: nat, x: T)
    requires Sorted(key, s) && Place(key, s, key(x), i)
    ensures Sorted(key, Inserted(s, i, x))
  {
    var r := Inserted(s, i, x);
    forall p, q | 0 <= p < q < |r| ensures key(r[p]) < key(r[q]) {
      if p > i { assert r[p] == s[p - 1] && r[q] == s[q - 1]; }
      else if p == i { assert r[q] == s[q - 1]; }
      else if q > i { assert r[q] == s[q - 1]; }
    }
  }

  lemma ReplacedParts<T>(s: seq<T>, a: seq<T>, x: T, b: seq<T>, i: nat, y: T)
    requires s == a + [x] + b && i < |s|
    ensures i < |a| ==> s[i := y] == a[i := y] + [x] + b
    ensures i == |a| ==> s[i := y] == a + [y] + b
    ensures i > |a| ==> s[i := y] == a + [x] + b[i - |a| - 1 := y]
    ensures i < |a| ==> s[i] == a[i]
    ensures i > |a| ==> s[i] == b[i - |a| - 1]
  {
  }

  /** Replacing changes one item of the order and no other. */
  lemma {:induction false} ReplaceOrder<T>(key: T -> int, t: Tree<T>, x: T, i: nat)
    requires Sorted(key, InOrder(t)) && i < |InOrder(t)| && key(InOrder(t)[i]) == key(x)
    ensures InOrder(Replace(key, t, x)) == InOrder(t)[i := x]
  {
    match t {
      case Node(l, cur, r) =>
        var s, a, b := InOrder(t), InOrder(l), InOrder(r);
        Parts(key, s, a, cur, b);
        ReplacedParts(s, a, cur, b, i, x);
        if i < |a| {
          ReplaceOrder(key, l, x, i);
        } else if i > |a| {
          ReplaceOrder(key, r, x, i - |a| - 1);
        }
    }
  }

  // ----- searching

  /** The search for v has come down to the middle part of s. */
  ghost predicate Searching<T>(key: T -> int, s: seq<T>, pre: seq<T>, mid: seq<T>, post: seq<T>, v: int) {
    s == pre + mid + post && Absent(key, pre, v) && Absent(key, post, v)
  }

  lemma GoLeft<T>(key: T -> int, s: seq<T>, pre: seq<T>, mid: seq<T>, a: seq<T>, x: T, b: seq<T>, post: seq<T>, v: int)
    requires Sorted(key, s) && Searching(key, s, pre, mid, post, v) && mid == a + [x] + b && v < key(x)
    ensures Searching(key, s, pre, a, [x] + b + post, v)
  {
    var post' := [x] + b + post;
    assert s == pre + a + post';
    forall j | 0 <= j < |post'| ensures key(post'[j]) != v {
      if j > 0 {
        var n := |pre| + |a|;
        assert s[n] == x && s[n + j] == post'[j] && key(s[n]) < key(s[n + j]);
      }
    }
  }

  lemma GoRight<T>(key: T -> int, s: seq<T>, pre: seq<T>, mid: seq<T>, a: seq<T>, x: T, b: seq<T>, post: seq<T>, v: int)
    requires Sorted(key, s) && Searching(key, s, pre, mid, post, v) && mid == a + [x] + b && key(x) < v
    ensures Searching(key, s, pre + a + [x], b, post, v)
  {
    var pre' := pre + a + [x];
    assert s == pre' + b + post;
    forall j | 0 <= j < |pre'| ensures key(pre'[j]) != v {
      var n := |pre| + |a|;
      assert s[n] == x && s[j] == pre'[j] && (j < n ==> key(s[j]) < key(s[n]));
    }
  }

  lemma SearchHas<T>(key: T -> int, s: seq<T>, pre: seq<T>, mid: seq<T>, a: seq<T>, x: T, b: seq<T>, post: seq<T>,
                     v: int)
    requires Searching(key, s, pre, mid, post, v) && mid == a + [x] + b
    ensures |pre| + |a| < |s| && s[|pre| + |a|] == x
  {
  }

  lemma SearchEnds<T>(key: T -> int, s: seq<T>, pre: seq<T>, post: seq<T>, v: int)
    requires Searching(key, s, pre, [], post, v)
    ensures Absent(key, s, v)
  {
    forall i | 0 <= i < |s| ensures key(s[i]) != v {
      if i < |pre| { assert s[i] == pre[i]; } else { assert s[i] == post[i - |pre|]; }
    }
  }
}
