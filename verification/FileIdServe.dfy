/** The tree, its counter and the cache give the answers of FileIdRuns to any sequence of requests. */
module FileIdServe {
  import opened Options
  import opened KcmpIds
  import opened FileIds
  import opened FileIdRuns

  /** What fd_id_generate and fd_id_generate_special are called with, and how the kernel and the allocator behave. */
  datatype Request =
    | ForFile(elem: Elem, parms: Parms, compareFails: Elem -> bool, alloc: bool, allocCache: bool)
    | ForSpecial(file: Option<Parms>, allocCache: bool)

  /** Got carries the stored ID and new_id. */
  datatype Result = Got(id: nat, isNew: bool) | NotGot

  function CallOf(k: Kernel, r: Request, out: Result): Call {
    match r
    case ForFile(elem, parms, _, _, allocCache) => ForObject(KeyOf(k, elem), parms, out.NotGot?, allocCache)
    case ForSpecial(file, allocCache) => Special(file, allocCache)
  }

  /** The requests as they turned out. */
  function CallsOf(k: Kernel, rs: seq<Request>, outs: seq<Result>): seq<Call>
    requires |outs| <= |rs|
  {
    seq(|outs|, i requires 0 <= i < |outs| => CallOf(k, rs[i], outs[i]))
  }

  /** A request that may fail: there is no room for an entry, or some comparison fails. */
  ghost predicate MayFail(r: Request) {
    r.ForFile? && (!r.alloc || exists e :: r.compareFails(e))
  }

  /** An answer as it is stored. */
  function Stored(a: Answer): Result { if a.NoId? then NotGot else Got(Trunc(a.number), a.isNew) }

  // ----- the tree and the cache hold the numbers cut to 32 bits

  ghost predicate SameIds(ids: map<Key, nat>, numbers: map<Key, nat>) {
    ids.Keys == numbers.Keys && forall key :: key in ids ==> ids[key] == Trunc(numbers[key])
  }

  ghost predicate SameCache(log: seq<FdId>, cache: seq<FdId>) {
    |log| == |cache| && forall l :: 0 <= l < |log| ==> log[l] == cache[l].(id := Trunc(cache[l].id))
  }

  ghost predicate Mirrors(files: FileIds, s: Ids)
    reads files, files.tree
  {
    files.Valid() && files.tree.subid == s.next && SameIds(files.tree.ids, s.numbers) && SameCache(files.log, s.cache)
  }

  lemma {:induction false} SameLatest(log: seq<FdId>, cache: seq<FdId>, p: Parms)
    requires SameCache(log, cache)
    ensures Latest(log, p).Some? <==> Latest(cache, p).Some?
    ensures Latest(cache, p).Some? ==> Latest(log, p) == Some(Trunc(Latest(cache, p).value))
  {
    if log != [] { SameLatest(log[1..], cache[1..], p); }
  }

  lemma SameCacheMore(log: seq<FdId>, cache: seq<FdId>, p: Parms, n: nat)
    requires SameCache(log, cache)
    ensures SameCache([CacheEntry(p, Trunc(n))] + log, [CacheEntry(p, n)] + cache)
  {
  }

  lemma SameIdsMore(ids: map<Key, nat>, numbers: map<Key, nat>, key: Key, n: nat)
    requires SameIds(ids, numbers)
    ensures SameIds(ids[key := Trunc(n)], numbers[key := n])
  {
  }

  /** fd_id_generate. */
  method ServeFile(files: FileIds, r: Request, ghost s: Ids) returns (bug: bool, out: Result)
    requires Mirrors(files, s) && r.ForFile?
    modifies files, files.tree
    ensures bug ==> KeyOf(files.tree.k, r.elem) !in s.numbers && Trunc(s.next) == 0
    ensures !bug ==>
              var call := CallOf(files.tree.k, r, out); out == Stored(Reply(s, call)) && Mirrors(files, Step(s, call))
    ensures out.NotGot? && !bug ==> MayFail(r)
  {
    var o := files.Generate(r.elem, r.parms, r.compareFails, r.alloc, r.allocCache);
    bug, out := o.Bug?, NotGot;
    if o.Known? {
      out := Got(o.id, false);
    } else if o.Fresh? {
      out := Got(o.id, true);
      SameIdsMore(old(files.tree.ids), s.numbers, KeyOf(files.tree.k, r.elem), s.next);
      SameCacheMore(old(files.log), s.cache, r.parms, s.next);
    }
  }

  /** fd_id_generate_special. */
  method ServeSpecial(files: FileIds, r: Request, ghost s: Ids) returns (out: Result)
    requires Mirrors(files, s) && r.ForSpecial?
    modifies files, files.tree
    ensures var call := CallOf(files.tree.k, r, out); out == Stored(Reply(s, call)) && Mirrors(files, Step(s, call))
  {
    if r.file.Some? {
      SameLatest(files.log, s.cache, r.file.value);
      SameCacheMore(files.log, s.cache, r.file.value, s.next);
    }
    var id, isNew := files.GenerateSpecial(r.file, r.allocCache);
    out := Got(id, isNew);
  }

  method ServeOne(files: FileIds, r: Request, ghost s: Ids) returns (bug: bool, out: Result)
    requires Mirrors(files, s)
    modifies files, files.tree
    ensures bug ==> r.ForFile? && KeyOf(files.tree.k, r.elem) !in s.numbers && Trunc(s.next) == 0
    ensures !bug ==>
              var call := CallOf(files.tree.k, r, out); out == Stored(Reply(s, call)) && Mirrors(files, Step(s, call))
    ensures out.NotGot? && !bug ==> MayFail(r)
  {
    if r.ForFile? {
      bug, out := ServeFile(files, r, s);
    } else {
      bug := false;
      out := ServeSpecial(files, r, s);
    }
  }

  /** The answers so far are those of FileIdRuns, and only requests that may fail have failed. */
  ghost predicate Served(k: Kernel, rs: seq<Request>, outs: seq<Result>) {
    && |outs| <= |rs|
    && (forall i :: 0 <= i < |outs| ==> outs[i] == Stored(AnswerTo(CallsOf(k, rs, outs), i)))
    && (forall i :: 0 <= i < |outs| && outs[i].NotGot? ==> MayFail(rs[i]))
  }

  lemma CallsMore(k: Kernel, rs: seq<Request>, outs: seq<Result>, out: Result, calls: seq<Call>, calls': seq<Call>)
    requires |outs| < |rs| && calls == CallsOf(k, rs, outs) && calls' == CallsOf(k, rs, outs + [out])
    ensures calls' == calls + [CallOf(k, rs[|outs|], out)]
  {
  }

  lemma AnswersStay(calls: seq<Call>, call: Call, i: nat)
    requires i < |calls|
    ensures AnswerTo(calls + [call], i) == AnswerTo(calls, i)
  {
    assert (calls + [call])[..i] == calls[..i];
  }

  lemma {:induction false} ServedMore(k: Kernel, rs: seq<Request>, outs: seq<Result>, out: Result, calls: seq<Call>,
                                      call: Call)
    requires Served(k, rs, outs) && |outs| < |rs| && calls == CallsOf(k, rs, outs) && call == CallOf(k, rs[|outs|], out)
    requires out == Stored(Reply(After(calls), call)) && (out.NotGot? ==> MayFail(rs[|outs|]))
    ensures Served(k, rs, outs + [out]) && After(CallsOf(k, rs, outs + [out])) == Step(After(calls), call)
  {
    var n, outs', calls' := |outs|, outs + [out], CallsOf(k, rs, outs + [out]);
    CallsMore(k, rs, outs, out, calls, calls');
    assert calls'[..n] == calls;
    forall i | 0 <= i < |outs'| ensures outs'[i] == Stored(AnswerTo(calls', i)) {
      if i < n { AnswersStay(calls, call, i); }
    }
  }

  /** Serves the requests in turn, over any failures, and stops at the BUG_ON, which is met exactly by a new object
      whose number is cut to zero. */
  method Serve(files: FileIds, rs: seq<Request>) returns (outs: seq<Result>)
    requires files.Valid() && files.tree.subid == 1 && files.tree.ids == map[] && files.log == []
    modifies files, files.tree
    ensures Served(files.tree.k, rs, outs)
    ensures |outs| < |rs| ==> var s, r := After(CallsOf(files.tree.k, rs, outs)), rs[|outs|];
                              r.ForFile? && KeyOf(files.tree.k, r.elem) !in s.numbers && Trunc(s.next) == 0
  {
    ghost var k, s := files.tree.k, After([]);
    outs := [];
    assert CallsOf(k, rs, outs) == [];
    for i := 0 to |rs|
      invariant |outs| == i && Served(k, rs, outs) && s == After(CallsOf(k, rs, outs)) && Mirrors(files, s)
    {
      var bug, out := ServeOne(files, rs[i], s);
      if bug { return; }
      ServedMore(k, rs, outs, out, CallsOf(k, rs, outs), CallOf(k, rs[i], out));
      s := Step(s, CallOf(k, rs[i], out));
      outs := outs + [out];
    }
  }
}
