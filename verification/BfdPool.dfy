/** Open streams and the pool their buffers come from (criu/bfd.c). */
module BfdPool {
  import opened Options
  import opened BfdSpec
  import opened Bfd

  const BUFBATCH: nat := 16

  /** A stream as its user sees it: a writer with all it was given, or a reader with all it has still to get. */
  datatype Slot = Slot(writer: bool, open: bool, bytes: Bytes)

  datatype Op =
    | Open(writer: bool, io: Kernel, contents: Bytes, mappable: bool, entries: nat)
    | Write(i: nat, w: WriteCall)
    | Read(i: nat, size: nat)
    | Close(i: nat)

  /** The calls a user may make: on open streams of the right kind. */
  ghost predicate Allowed(slots: seq<Slot>, op: Op) {
    match op
    case Open(writer, io, _, _, _) => if writer then Writes(io) else Reads(io)
    case Write(i, _) => i < |slots| && slots[i].open && slots[i].writer
    case Read(i, _) => i < |slots| && slots[i].open && !slots[i].writer
    case Close(i) => i < |slots| && slots[i].open
  }

  /** What a call does that succeeds. */
  function Apply(slots: seq<Slot>, op: Op): seq<Slot> {
    match op
    case Open(writer, _, contents, _, _) => slots + [Slot(writer, true, if writer then [] else contents)]
    case Write(i, w) => if i < |slots| then slots[i := slots[i].(bytes := slots[i].bytes + BytesOf(w))] else slots
    case Read(i, size) =>
      if i < |slots| then slots[i := slots[i].(bytes := slots[i].bytes[|Front(slots[i].bytes, size)|..])] else slots
    case Close(i) => if i < |slots| then slots[i := slots[i].(open := false)] else slots
  }

  /** What a read yields. */
  function Yield(slots: seq<Slot>, op: Op): seq<Bytes> {
    if op.Read? && op.i < |slots| then [Front(slots[op.i].bytes, op.size)] else []
  }

  function After(ops: seq<Op>): seq<Slot> {
    if ops == [] then [] else Apply(After(ops[..|ops| - 1]), ops[|ops| - 1])
  }

  function Yields(ops: seq<Op>): seq<Bytes> {
    if ops == [] then [] else Yields(ops[..|ops| - 1]) + Yield(After(ops[..|ops| - 1]), ops[|ops| - 1])
  }

  ghost predicate AllAllowed(ops: seq<Op>) { forall k :: 0 <= k < |ops| ==> Allowed(After(ops[..k]), ops[k]) }

  /** Several streams in use at a time: all that were ever opened, which of them are still open, the free buffers
      (bufs), and whether a flush has failed (flush_failed). */
  class Streams {
    var free: seq<array<bv8>>
    var all: seq<Stream>
    var open: seq<bool>
    var flushFailed: bool
    ghost var mems: set<array<bv8>>     // all buffers ever made

    /** Free buffers are all different. */
    ghost predicate FreeOk()
      reads this
    {
      && (forall i :: 0 <= i < |free| ==> free[i].Length == BUFSIZE && free[i] in mems)
      && (forall i, j :: 0 <= i < j < |free| ==> free[i] != free[j])
    }

    /** No two open streams have the same buffer, and none has one that is free. */
    ghost predicate Apart()
      reads this
    {
      && |open| == |all|
      && (forall i, j :: 0 <= i < j < |all| ==> all[i] != all[j])
      && (forall i, j :: 0 <= i < j < |all| && open[i] && open[j] ==> all[i].mem != all[j].mem)
      && (forall i :: 0 <= i < |all| ==> all[i].mem in mems && (open[i] ==> all[i].mem !in free))
    }

    ghost predicate StreamsOk()
      reads this, all
    {
      forall i :: 0 <= i < |all| ==> StreamOk(all[i])
    }

    ghost predicate StreamOk(f: Stream)
      reads f
    {
      f.Valid() && f.buffered && if f.writable then f.data == 0 && Writes(f.io) else Reads(f.io)
    }

    ghost predicate Valid()
      reads this, all
    {
      FreeOk() && Apart() && StreamsOk()
    }

    /** An open stream is as its user expects; the file of a closed writer holds all it was given, if no flush
        failed. */
    ghost predicate SlotOk(f: Stream, isOpen: bool, failed: bool, slot: Slot)
      requires f.Valid()
      reads f, f.mem
    {
      && slot.open == isOpen && slot.writer == f.writable
      && (isOpen ==> slot.bytes == if f.writable then f.Accepted() else f.Contents())
      && (!isOpen && f.writable && !failed ==> f.written == slot.bytes)
    }

    ghost predicate Holds(slots: seq<Slot>)
      requires Valid()
      reads this, all, mems
    {
      |slots| == |all| && forall i :: 0 <= i < |all| ==> SlotOk(all[i], open[i], flushFailed, slots[i])
    }

    constructor ()
      ensures Valid() && free == [] && all == [] && open == [] && !flushFailed && mems == {}
    {
      free, all, open, flushFailed, mems := [], [], [], false, {};
    }

    /** Up to sixteen new buffers; `entries` is how many of their list entries can be allocated. */
    method Grow(entries: nat) returns (ok: bool)
      requires FreeOk() && free == []
      modifies this`free, this`mems
      ensures fresh(mems - old(mems)) && old(mems) <= mems
      ensures FreeOk() && (ok <==> entries > 0) && |free| == if entries < BUFBATCH then entries else BUFBATCH
      ensures forall i :: 0 <= i < |free| ==> fresh(free[i])
    {
      var i := 0;
      while i < BUFBATCH && i < entries
        invariant i == |free| <= BUFBATCH && i <= entries && FreeOk()
        invariant fresh(mems - old(mems)) && old(mems) <= mems && forall j :: 0 <= j < i ==> fresh(free[j])
      {
        var mem := new bv8[BUFSIZE];
        free, mems := free + [mem], mems + {mem};
        i := i + 1;
      }
      ok := i > 0;
    }

    /** buf_get: the first free buffer, which no open stream has. */
    method BufGet(mappable: bool, entries: nat) returns (buf: Option<array<bv8>>)
      requires Valid()
      modifies this`free, this`mems
      ensures fresh(mems - old(mems)) && old(mems) <= mems && (buf.Some? ==> buf.value in mems)
      ensures Valid() && (buf.None? <==> old(free) == [] && (!mappable || entries == 0))
      ensures buf.Some? ==> buf.value.Length == BUFSIZE && buf.value !in free
      ensures buf.Some? ==> forall i :: 0 <= i < |all| && open[i] ==> all[i].mem != buf.value
      ensures buf.Some? && old(free) != [] ==> free == old(free)[1..] && buf.value == old(free)[0]
    {
      if free == [] {
        if !mappable { return None; }
        var ok := Grow(entries);
        if !ok { return None; }
      }
      buf := Some(free[0]);
      free := free[1..];
    }

    /** A new stream with a buffer of its own. */
    method AddStream(f: Stream, ghost slot: Slot, ghost slots: seq<Slot>)
      requires Valid() && Holds(slots) && StreamOk(f) && SlotOk(f, true, flushFailed, slot)
      requires f !in all && f.mem in mems && f.mem !in free
      requires forall i :: 0 <= i < |all| && open[i] ==> all[i].mem != f.mem
      modifies this`all, this`open
      ensures Valid() && all == old(all) + [f] && Holds(slots + [slot])
    {
      all, open := all + [f], open + [true];
    }

    /** bfdopenr and bfdopenw: fails exactly if there is no buffer and none can be made. */
    method OpenStream(op: Op, ghost slots: seq<Slot>) returns (ok: bool)
      requires Valid() && Holds(slots) && op.Open? && Allowed(slots, op)
      modifies this
      ensures Valid() && flushFailed == old(flushFailed) && (ok <==> old(free) != [] || (op.mappable && op.entries > 0))
      ensures forall i :: 0 <= i < |all| ==> all[i] in old(all) || fresh(all[i])
      ensures ok ==> Holds(Apply(slots, op))
      ensures fresh(mems - old(mems)) && old(mems) <= mems
    {
      var buf := BufGet(op.mappable, op.entries);
      if buf.None? { return false; }
      var f := new Stream(op.io, true, op.writer, buf.value, if op.writer then [] else op.contents);
      AddStream(f, Slot(op.writer, true, if op.writer then [] else op.contents), slots);
      ok := true;
    }

    /** bwrite or bwritev on an open stream: no other stream is touched. */
    method WriteStream(op: Op, ghost slots: seq<Slot>) returns (ok: bool)
      requires Valid() && Holds(slots) && op.Write? && Allowed(slots, op)
      modifies all[op.i], all[op.i].mem
      ensures Valid() && (ok ==> Holds(Apply(slots, op)))
      ensures !ok ==> WriteFails(all[op.i].io, old(all[op.i].calls), all[op.i].calls)
    {
      ok := WriteOne(all[op.i], op.w);
    }

    /** bread on an open stream: no other stream is touched. */
    method ReadStream(op: Op, ghost slots: seq<Slot>) returns (ok: bool, buf: Bytes)
      requires Valid() && Holds(slots) && op.Read? && Allowed(slots, op)
      modifies all[op.i], all[op.i].mem
      ensures Valid() && (ok ==> Holds(Apply(slots, op)) && [buf] == Yield(slots, op))
      ensures !ok ==> ReadFails(all[op.i].io, old(all[op.i].calls), all[op.i].calls)
    {
      var r;
      r, buf := all[op.i].BRead(op.size);
      ok := r >= 0;
      if ok { assert Front(slots[op.i].bytes, op.size) == buf; }
    }

    /** buf_put: the buffer of stream i goes to the front of the free ones. */
    method BufPut(i: nat)
      requires Valid() && i < |all| && open[i]
      modifies this`free, this`open
      ensures Valid() && free == [all[i].mem] + old(free) && open == old(open)[i := false]
    {
      free, open := [all[i].mem] + free, open[i := false];
    }

    /** The flush of bclose. */
    method EndStream(i: nat)
      requires Valid() && i < |all|
      modifies this`flushFailed, all[i]
      ensures Valid() && (old(flushFailed) ==> flushFailed)
      ensures all[i].writable && !flushFailed ==> all[i].written == old(all[i].Accepted())
      ensures flushFailed ==> old(flushFailed) || WriteFails(all[i].io, old(all[i].calls), all[i].calls)
    {
      var failed := all[i].Close();
      flushFailed := flushFailed || failed;
    }

    /** bclose. */
    method CloseStream(op: Op, ghost slots: seq<Slot>)
      requires Valid() && Holds(slots) && op.Close? && Allowed(slots, op)
      modifies this`free, this`open, this`flushFailed, all[op.i]
      ensures Valid() && Holds(Apply(slots, op)) && free == [all[op.i].mem] + old(free)
      ensures flushFailed ==> old(flushFailed) || WriteFails(all[op.i].io, old(all[op.i].calls), all[op.i].calls)
    {
      EndStream(op.i);
      BufPut(op.i);
      forall j | 0 <= j < |all| && j != op.i ensures SlotOk(all[j], open[j], flushFailed, slots[j]) {
        assert old(SlotOk(all[j], open[j], flushFailed, slots[j]));
      }
    }

    /** Some call on stream i failed, or no buffer could be had for a new one. */
    ghost predicate Failure(op: Op)
      reads this, all
    {
      match op
      case Open(_, _, _, mappable, entries) => !mappable || entries == 0
      case Write(i, _) => i < |all| && WriteFails(all[i].io, 0, all[i].calls)
      case Read(i, _) => i < |all| && ReadFails(all[i].io, 0, all[i].calls)
      case Close(_) => false
    }

    method Do(op: Op, ghost slots: seq<Slot>) returns (ok: bool, got: seq<Bytes>)
      requires Valid() && Holds(slots) && Allowed(slots, op)
      modifies this, all, mems
      ensures Valid() && fresh(mems - old(mems)) && forall i :: 0 <= i < |all| ==> all[i] in old(all) || fresh(all[i])
      ensures if ok then Holds(Apply(slots, op)) && got == Yield(slots, op) else Failure(op)
    {
      ok, got := true, [];
      if op.Open? {
        ok := OpenStream(op, slots);
      } else if op.Write? {
        ok := WriteStream(op, slots);
      } else if op.Read? {
        var buf;
        ok, buf := ReadStream(op, slots);
        got := [buf];
      } else {
        CloseStream(op, slots);
      }
    }
  }

  /** Any calls on any number of streams that share the pool, in any order: reads yield the files of their own
      streams, slice by slice, and in the end every stream is as its user expects, whoever else was open at the same
      time; it ends before that only at a call that fails for a reason of its own. */
  method Session(ops: seq<Op>) returns (done: nat, got: seq<Bytes>, streams: Streams)
    requires AllAllowed(ops)
    ensures done <= |ops| && got == Yields(ops[..done]) && streams.Valid()
    ensures if done == |ops| then streams.Holds(After(ops)) else streams.Failure(ops[done])
  {
    streams := new Streams();
    done, got := 0, [];
    while done < |ops|
      invariant done <= |ops| && got == Yields(ops[..done]) && streams.Valid() && streams.Holds(After(ops[..done]))
      invariant fresh(streams) && fresh(streams.mems) && forall i :: 0 <= i < |streams.all| ==> fresh(streams.all[i])
    {
      var ok, more := streams.Do(ops[done], After(ops[..done]));
      if !ok { return; }
      assert ops[..done + 1][..done] == ops[..done];
      done, got := done + 1, got + more;
    }
    assert ops[..done] == ops;
  }
}
