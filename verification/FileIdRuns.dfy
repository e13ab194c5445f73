/** Any sequence of requests for file IDs: who gets which ID. */
module FileIdRuns {
  import opened Options
  import opened KcmpIds
  import opened FileIds

  /** A request for the ID of an object, which may fail, or for a special ID, perhaps that of a file seen before.
      `caches` says whether the cache gets room for an entry. */
  datatype Call =
    | ForObject(key: Key, parms: Parms, fails: bool, caches: bool)
    | Special(file: Option<Parms>, caches: bool)

  /** The number drawn from the counter for a request, before it is cut to 32 bits, and whether it is drawn anew. */
  datatype Answer = NoId | Gets(number: nat, isNew: bool)

  /** The number of every object seen, the next number, and the cache with numbers for IDs, latest first. */
  datatype Ids = Ids(numbers: map<Key, nat>, next: nat, cache: seq<FdId>)

  predicate Caches(call: Call) { call.caches && (call.ForObject? || call.file.Some?) }

  function ParmsOf(call: Call): Parms
    requires Caches(call)
  {
    if call.ForObject? then call.parms else call.file.value
  }

  function Reply(s: Ids, call: Call): Answer {
    match call
    case ForObject(key, _, fails, _) =>
      if fails then NoId else if key in s.numbers then Gets(s.numbers[key], false) else Gets(s.next, true)
    case Special(file, _) =>
      if file.Some? && Latest(s.cache, file.value).Some? then Gets(Latest(s.cache, file.value).value, false)
      else Gets(s.next, true)
  }

  function Step(s: Ids, call: Call): Ids {
    if Reply(s, call) == Gets(s.next, true) then
      Ids(if call.ForObject? then s.numbers[call.key := s.next] else s.numbers, s.next + 1,
          if Caches(call) then [CacheEntry(ParmsOf(call), s.next)] + s.cache else s.cache)
    else s
  }

  function After(calls: seq<Call>): Ids {
    if calls == [] then Ids(map[], 1, []) else Step(After(calls[..|calls| - 1]), calls[|calls| - 1])
  }

  /** What is known before request i. */
  function Before(calls: seq<Call>, i: nat): Ids
    requires i <= |calls|
  {
    After(calls[..i])
  }

  function AnswerTo(calls: seq<Call>, i: nat): Answer
    requires i < |calls|
  {
    Reply(Before(calls, i), calls[i])
  }

  predicate IsNew(calls: seq<Call>, i: nat)
    requires i < |calls|
  {
    AnswerTo(calls, i).Gets? && AnswerTo(calls, i).isNew
  }

  /** How many numbers are drawn. */
  function Drawn(calls: seq<Call>): int { After(calls).next - 1 }

  // ----- one request after the other

  lemma BeforeNext(calls: seq<Call>, i: nat)
    requires i < |calls|
    ensures Before(calls, i + 1) == Step(Before(calls, i), calls[i])
  {
    assert calls[..i + 1][..i] == calls[..i];
  }

  /** Every number in use was drawn before, from 1 on. */
  ghost predicate InUse(s: Ids) {
    && s.next >= 1
    && (forall key :: key in s.numbers ==> 1 <= s.numbers[key] < s.next)
    && (forall l :: 0 <= l < |s.cache| ==> 1 <= s.cache[l].id < s.next && s.cache[l].dev < WORD)
  }

  lemma {:induction false} LatestIsCached(log: seq<FdId>, p: Parms)
    ensures Latest(log, p).Some? ==> exists l :: 0 <= l < |log| && log[l].id == Latest(log, p).value
  {
    if log != [] && !Matches(log[0], p) {
      LatestIsCached(log[1..], p);
      if Latest(log, p).Some? {
        var l :| 0 <= l < |log[1..]| && log[1..][l].id == Latest(log, p).value;
        assert log[l + 1].id == Latest(log, p).value;
      }
    }
  }

  lemma ReplyInUse(s: Ids, call: Call)
    requires InUse(s)
    ensures Reply(s, call).Gets? ==> 1 <= Reply(s, call).number <= s.next
    ensures Reply(s, call).Gets? ==> (Reply(s, call).isNew <==> Reply(s, call).number == s.next)
    ensures InUse(Step(s, call))
  {
    if call.Special? && call.file.Some? { LatestIsCached(s.cache, call.file.value); }
  }

  lemma {:induction false} AlwaysInUse(calls: seq<Call>, i: nat)
    requires i <= |calls|
    ensures InUse(Before(calls, i))
  {
    if i > 0 {
      AlwaysInUse(calls, i - 1);
      ReplyInUse(Before(calls, i - 1), calls[i - 1]);
      BeforeNext(calls, i - 1);
    }
  }

  /** A new answer is the next number; others are lower. */
  lemma AnswerIs(calls: seq<Call>, i: nat)
    requires i < |calls|
    ensures AnswerTo(calls, i).Gets? ==> 1 <= AnswerTo(calls, i).number < Before(calls, i + 1).next
    ensures IsNew(calls, i) ==>
              AnswerTo(calls, i).number == Before(calls, i).next
                  && Before(calls, i + 1).next == Before(calls, i).next + 1
    ensures AnswerTo(calls, i).Gets? && !IsNew(calls, i) ==> AnswerTo(calls, i).number < Before(calls, i).next
    ensures !IsNew(calls, i) ==> Before(calls, i + 1) == Before(calls, i)
  {
    AlwaysInUse(calls, i);
    ReplyInUse(Before(calls, i), calls[i]);
    BeforeNext(calls, i);
  }

  lemma {:induction false} NextGrows(calls: seq<Call>, i: nat, j: nat)
    requires i <= j <= |calls|
    ensures Before(calls, i).next <= Before(calls, j).next
  {
    if i < j {
      NextGrows(calls, i, j - 1);
      BeforeNext(calls, j - 1);
    }
  }

  lemma NewDiffer(calls: seq<Call>, i: nat, j: nat)
    requires i < |calls| && j < |calls| && IsNew(calls, i) && IsNew(calls, j) && i != j
    ensures AnswerTo(calls, i).number != AnswerTo(calls, j).number
  {
    AnswerIs(calls, i);
    AnswerIs(calls, j);
    if i < j { NextGrows(calls, i + 1, j); } else { NextGrows(calls, j + 1, i); }
  }

  // ----- where a number comes from

  predicate FirstFor(calls: seq<Call>, i: nat, key: Key)
    requires i < |calls|
  {
    calls[i].ForObject? && calls[i].key == key && IsNew(calls, i)
  }

  /** A known object was new once, and has kept the number it got then. */
  lemma {:induction false} ObjectSource(calls: seq<Call>, n: nat, key: Key) returns (i: nat)
    requires n <= |calls| && key in Before(calls, n).numbers
    ensures i < n && FirstFor(calls, i, key) && AnswerTo(calls, i).number == Before(calls, n).numbers[key]
  {
    BeforeNext(calls, n - 1);
    AnswerIs(calls, n - 1);
    if key in Before(calls, n - 1).numbers {
      i := ObjectSource(calls, n - 1, key);
    } else {
      i := n - 1;
    }
  }

  lemma {:induction false} ObjectKept(calls: seq<Call>, i: nat, n: nat, key: Key)
    requires i <= n <= |calls| && key in Before(calls, i).numbers
    ensures key in Before(calls, n).numbers
  {
    if i < n {
      ObjectKept(calls, i, n - 1, key);
      BeforeNext(calls, n - 1);
    }
  }

  lemma FirstOnce(calls: seq<Call>, i: nat, j: nat, key: Key)
    requires i < |calls| && j < |calls| && FirstFor(calls, i, key) && FirstFor(calls, j, key)
    ensures i == j
  {
    BeforeNext(calls, i);
    BeforeNext(calls, j);
    if i < j { ObjectKept(calls, i + 1, j, key); } else if j < i { ObjectKept(calls, j + 1, i, key); }
  }

  /** Request i draws a number that is cached for the file p. */
  predicate CachedFor(calls: seq<Call>, i: nat, p: Parms)
    requires i < |calls|
  {
    IsNew(calls, i) && Caches(calls[i]) && Matches(CacheEntry(ParmsOf(calls[i]), AnswerTo(calls, i).number), p)
  }

  /** The last of the first n requests that draws a number for the file p. */
  ghost predicate LastCachedFor(calls: seq<Call>, i: nat, n: nat, p: Parms)
    requires n <= |calls|
  {
    i < n && CachedFor(calls, i, p) && forall m :: i < m < n ==> !CachedFor(calls, m, p)
  }

  lemma {:induction false} CacheNext(calls: seq<Call>, n: nat, p: Parms)
    requires 0 < n <= |calls|
    ensures Latest(Before(calls, n).cache, p)
         == if CachedFor(calls, n - 1, p) then Some(AnswerTo(calls, n - 1).number)
             else Latest(Before(calls, n - 1).cache, p)
  {
    BeforeNext(calls, n - 1);
    AnswerIs(calls, n - 1);
    var s, call := Before(calls, n - 1), calls[n - 1];
    if IsNew(calls, n - 1) && Caches(call) {
      var cache' := [CacheEntry(ParmsOf(call), s.next)] + s.cache;
      assert cache'[1..] == s.cache;
    }
  }

  /** What the cache yields for a file is the number of the last request that drew one for it. */
  lemma {:induction false} CacheSource(calls: seq<Call>, n: nat, p: Parms) returns (i: Option<nat>)
    requires n <= |calls|
    ensures i.Some? ==> LastCachedFor(calls, i.value, n, p)
    ensures i.Some? ==> Latest(Before(calls, n).cache, p) == Some(AnswerTo(calls, i.value).number)
    ensures i.None? ==> Latest(Before(calls, n).cache, p) == None && forall m :: 0 <= m < n ==> !CachedFor(calls, m, p)
  {
    if n == 0 {
      i := None;
    } else {
      CacheNext(calls, n, p);
      if CachedFor(calls, n - 1, p) {
        i := Some(n - 1);
      } else {
        i := CacheSource(calls, n - 1, p);
      }
    }
  }

  /** Every answer has a number that was new once: of the same object, or cached last for the same file. */
  lemma Source(calls: seq<Call>, j: nat) returns (i: nat)
    requires j < |calls| && AnswerTo(calls, j).Gets?
    ensures i <= j && IsNew(calls, i) && AnswerTo(calls, i).number == AnswerTo(calls, j).number
    ensures calls[j].ForObject? ==> FirstFor(calls, i, calls[j].key)
    ensures i != j && calls[j].Special? ==> calls[j].file.Some? && LastCachedFor(calls, i, j, calls[j].file.value)
  {
    if IsNew(calls, j) {
      i := j;
    } else if calls[j].ForObject? {
      i := ObjectSource(calls, j, calls[j].key);
    } else {
      var o := CacheSource(calls, j, calls[j].file.value);
      i := o.value;
    }
  }

  // ----- who gets the same number

  /** Two requests for objects get the same number if and only if they are for the same object. */
  lemma SameNumberIffSameObject(calls: seq<Call>, i: nat, j: nat)
    requires i < |calls| && j < |calls| && calls[i].ForObject? && calls[j].ForObject? && !calls[i].fails
    requires !calls[j].fails
    ensures AnswerTo(calls, i).number == AnswerTo(calls, j).number <==> calls[i].key == calls[j].key
  {
    var k := Source(calls, i);
    var l := Source(calls, j);
    if calls[i].key == calls[j].key { FirstOnce(calls, k, l, calls[i].key); }
    else { NewDiffer(calls, k, l); }
  }

  /** new_id is raised exactly on first sight of an object. */
  lemma NewIffFirstSight(calls: seq<Call>, j: nat)
    requires j < |calls| && calls[j].ForObject? && !calls[j].fails
    ensures IsNew(calls, j) <==> forall i :: 0 <= i < j ==> !SeenBefore(calls[i], calls[j].key)
  {
    var key := calls[j].key;
    if IsNew(calls, j) {
      forall i | 0 <= i < j ensures !SeenBefore(calls[i], key) {
        BeforeNext(calls, i);
        if SeenBefore(calls[i], key) { ObjectKept(calls, i + 1, j, key); }
      }
    } else {
      var i := ObjectSource(calls, j, key);
    }
  }

  /** A request for the object that did not fail. */
  predicate SeenBefore(call: Call, key: Key) { call.ForObject? && call.key == key && !call.fails }

  /** A special request for a file gets the number cached last for it, if there is one, and a new one otherwise. */
  lemma SpecialGets(calls: seq<Call>, j: nat)
    requires j < |calls| && calls[j].Special?
    ensures forall i :: calls[j].file.Some? && LastCachedFor(calls, i, j, calls[j].file.value) ==>
              AnswerTo(calls, j) == Gets(AnswerTo(calls, i).number, false)
    ensures IsNew(calls, j) <==> calls[j].file.None? || forall i :: 0 <= i < j ==>
              !CachedFor(calls, i, calls[j].file.value)
  {
    if calls[j].file.Some? { var o := CacheSource(calls, j, calls[j].file.value); }
  }

  /** A request that comes with inode and mount of p, and with its device cut to 32 bits. */
  ghost predicate NamesFile(call: Call, p: Parms) {
    match call
    case ForObject(_, q, _, _) => q.dev % 0x1_0000_0000 == p.dev && q.ino == p.ino && q.mnt == p.mnt
    case Special(file, _) =>
      file.Some? && file.value.dev % 0x1_0000_0000 == p.dev && file.value.ino == p.ino && file.value.mnt == p.mnt
  }

  /** A request whose number a later special request for the file p may get. */
  ghost predicate Offers(calls: seq<Call>, i: nat, p: Parms)
    requires i < |calls|
  {
    IsNew(calls, i) && calls[i].caches && NamesFile(calls[i], p)
  }

  lemma CachedIffOffers(calls: seq<Call>, i: nat, p: Parms)
    requires i < |calls|
    ensures CachedFor(calls, i, p) <==> Offers(calls, i, p)
  {
  }

  /** A special request for a file is new if and only if no earlier request with its inode, its mount and a device that
      is cut to its own drew a number that was cached; otherwise it gets the number of the last one that did. */
  lemma SpecialByFields(calls: seq<Call>, j: nat, p: Parms)
    requires j < |calls| && calls[j].Special? && calls[j].file == Some(p)
    ensures IsNew(calls, j) <==> forall i :: 0 <= i < j ==> !Offers(calls, i, p)
    ensures forall i :: 0 <= i < j && Offers(calls, i, p) && (forall m :: i < m < j ==> !Offers(calls, m, p)) ==>
              AnswerTo(calls, j) == Gets(AnswerTo(calls, i).number, false)
  {
    var o := CacheSource(calls, j, p);
    forall i | 0 <= i < j ensures CachedFor(calls, i, p) <==> Offers(calls, i, p) { CachedIffOffers(calls, i, p); }
    if o.Some? { assert Offers(calls, o.value, p); }
  }

  /** If devices fit 32 bits, a special request that is not new shares its number with an earlier request for the same
      device, inode and mount. */
  lemma SharedWithSameFile(calls: seq<Call>, j: nat, p: Parms) returns (i: nat)
    requires j < |calls| && calls[j].Special? && calls[j].file == Some(p) && !IsNew(calls, j)
    requires forall m :: 0 <= m < j && Caches(calls[m]) ==> ParmsOf(calls[m]).dev < 0x1_0000_0000
    ensures i < j && AnswerTo(calls, i).Gets? && AnswerTo(calls, i).number == AnswerTo(calls, j).number
    ensures Caches(calls[i]) && ParmsOf(calls[i]) == p
  {
    var o := CacheSource(calls, j, p);
    i := o.value;
  }

  /** Without that two devices can share an ID: the first is cached under the number of the second. */
  lemma WideDeviceShares()
    ensures var calls := [Special(Some(Parms(0x1_0000_0001, 2, 3)), true), Special(Some(Parms(1, 2, 3)), true)];
            AnswerTo(calls, 1) == Gets(AnswerTo(calls, 0).number, false)
  {
    var calls := [Special(Some(Parms(0x1_0000_0001, 2, 3)), true), Special(Some(Parms(1, 2, 3)), true)];
    assert calls[..0] == [];
    assert Offers(calls, 0, Parms(1, 2, 3));
    SpecialByFields(calls, 1, Parms(1, 2, 3));
  }

  /** A number drawn for a special request is never that of an object, whenever that is asked for. */
  lemma SpecialIsApart(calls: seq<Call>, i: nat, j: nat)
    requires i < |calls| && j < |calls| && calls[i].Special? && IsNew(calls, i) && calls[j].ForObject?
    requires !calls[j].fails
    ensures AnswerTo(calls, i).number != AnswerTo(calls, j).number
  {
    var k := Source(calls, j);
    NewDiffer(calls, i, k);
  }

  /** First the object, then the file it is: a special request shares the ID, if its number was cached and nothing
      else was cached for the file since. */
  lemma ObjectThenSpecial(calls: seq<Call>, i: nat, j: nat)
    requires i < j < |calls| && calls[i].ForObject? && IsNew(calls, i) && calls[i].caches && calls[i].parms.dev < WORD
    requires calls[j].Special? && calls[j].file == Some(calls[i].parms)
    requires forall m :: i < m < j ==> !CachedFor(calls, m, calls[i].parms)
    ensures AnswerTo(calls, j) == Gets(AnswerTo(calls, i).number, false)
  {
    assert LastCachedFor(calls, i, j, calls[i].parms);
    SpecialGets(calls, j);
  }

  /** First the file, then the object: the object does not get the special ID, since requests for objects do not look
      in the cache; and a later special request for the file gets the object's. */
  lemma SpecialThenObject(calls: seq<Call>, i: nat, j: nat, l: nat)
    requires i < j < l < |calls| && calls[i].Special? && IsNew(calls, i) && calls[i].file.Some?
    requires calls[i].file.value.dev < WORD
    requires calls[j].ForObject? && IsNew(calls, j) && calls[j].caches && Some(calls[j].parms) == calls[i].file
    requires calls[l].Special? && calls[l].file == calls[i].file
    requires forall m :: j < m < l ==> !CachedFor(calls, m, calls[j].parms)
    ensures AnswerTo(calls, j).number != AnswerTo(calls, i).number
    ensures AnswerTo(calls, l) == Gets(AnswerTo(calls, j).number, false)
  {
    SpecialIsApart(calls, i, j);
    ObjectThenSpecial(calls, j, l);
  }

  /** A failed request changes no other answer: without it the others get the same. */
  lemma {:induction false} FailedChangesNothing(calls: seq<Call>, i: nat, j: nat)
    requires i < j <= |calls| && AnswerTo(calls, i) == NoId
    ensures Before(calls[..i] + calls[i + 1..], j - 1) == Before(calls, j)
    ensures j < |calls| ==> AnswerTo(calls[..i] + calls[i + 1..], j - 1) == AnswerTo(calls, j)
  {
    var without := calls[..i] + calls[i + 1..];
    if j == i + 1 {
      BeforeNext(calls, i);
      assert without[..i] == calls[..i];
    } else {
      FailedChangesNothing(calls, i, j - 1);
      BeforeNext(calls, j - 1);
      BeforeNext(without, j - 2);
    }
  }

  // ----- 32 bits

  lemma TruncSmall(a: nat, b: nat)
    requires 1 <= a <= WORD && 1 <= b <= WORD && Trunc(a) == Trunc(b)
    ensures a == b
  {
  }

  lemma AnswerInRange(calls: seq<Call>, i: nat)
    requires i < |calls| && AnswerTo(calls, i).Gets?
    ensures 1 <= AnswerTo(calls, i).number <= Drawn(calls)
  {
    AnswerIs(calls, i);
    NextGrows(calls, i + 1, |calls|);
    assert calls[..|calls|] == calls;
  }

  /** The IDs as they are stored: as long as no more than 2^32 numbers are drawn, cutting them to 32 bits tells the
      same numbers together and different ones apart. */
  lemma SameIdIffSameNumber(calls: seq<Call>, i: nat, j: nat)
    requires i < |calls| && j < |calls| && AnswerTo(calls, i).Gets? && AnswerTo(calls, j).Gets? && Drawn(calls) <= WORD
    ensures Trunc(AnswerTo(calls, i).number) == Trunc(AnswerTo(calls, j).number)
       <==> AnswerTo(calls, i).number == AnswerTo(calls, j).number
  {
    AnswerInRange(calls, i);
    AnswerInRange(calls, j);
    if Trunc(AnswerTo(calls, i).number) == Trunc(AnswerTo(calls, j).number) {
      TruncSmall(AnswerTo(calls, i).number, AnswerTo(calls, j).number);
    }
  }

  /** Every number up to the last is drawn by some request. */
  lemma {:induction false} DrawnBy(calls: seq<Call>, n: nat, j: nat) returns (i: nat)
    requires j <= |calls| && 1 <= n < Before(calls, j).next
    ensures i < j && AnswerTo(calls, i) == Gets(n, true)
  {
    BeforeNext(calls, j - 1);
    AnswerIs(calls, j - 1);
    if n < Before(calls, j - 1).next {
      i := DrawnBy(calls, n, j - 1);
    } else {
      i := j - 1;
    }
  }

  /** New answers have IDs of their own. */
  ghost predicate AllApart(calls: seq<Call>) {
    forall i, j :: 0 <= i < j < |calls| && IsNew(calls, i) && IsNew(calls, j) ==>
      Trunc(AnswerTo(calls, i).number) != Trunc(AnswerTo(calls, j).number)
  }

  /** Different objects and special IDs are told apart if and only if no more than 2^32 numbers are drawn. */
  lemma ApartIffFewEnough(calls: seq<Call>)
    ensures AllApart(calls) <==> Drawn(calls) <= WORD
  {
    assert calls[..|calls|] == calls;
    if Drawn(calls) <= WORD {
      forall i, j | 0 <= i < j < |calls| && IsNew(calls, i) && IsNew(calls, j)
        ensures Trunc(AnswerTo(calls, i).number) != Trunc(AnswerTo(calls, j).number)
      {
        NewDiffer(calls, i, j);
        SameIdIffSameNumber(calls, i, j);
      }
    } else {
      var i := DrawnBy(calls, 1, |calls|);
      var j := DrawnBy(calls, 1 + WORD, |calls|);
      assert Trunc(AnswerTo(calls, i).number) == Trunc(AnswerTo(calls, j).number) && i != j;
    }
  }

  /** n requests for special IDs without a file. */
  function Specials(n: nat): seq<Call> { seq(n, i => Special(None, false)) }

  lemma {:induction false} SpecialsDraw(n: nat, i: nat)
    requires i <= n
    ensures Before(Specials(n), i) == Ids(map[], i + 1, [])
  {
    if i > 0 {
      SpecialsDraw(n, i - 1);
      BeforeNext(Specials(n), i - 1);
    }
  }

  /** 2^32 + 1 requests for special IDs: the last one gets the ID of the first. */
  lemma TooManyCollide()
    ensures var calls := Specials(WORD + 1);
            && IsNew(calls, 0) && IsNew(calls, WORD)
            && Trunc(AnswerTo(calls, 0).number) == Trunc(AnswerTo(calls, WORD).number)
  {
    var n: nat := WORD + 1;
    SpecialsDraw(n, 0);
    SpecialsDraw(n, n - 1);
    assert Specials(n)[0] == Special(None, false) && Specials(n)[n - 1] == Special(None, false);
  }
}
