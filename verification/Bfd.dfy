/** Buffered streams (criu/bfd.c). */
module Bfd {
  import opened Options
  import opened BfdSpec

  /** What the kernel answers to the k-th call when n bytes could be moved: an error if negative, else how many it
      moves. */
  type Kernel = (nat, nat) -> int

  /** read moves at least one byte unless there is none. */
  ghost predicate Reads(io: Kernel) { forall k: nat, n: nat :: n > 0 ==> io(k, n) != 0 && io(k, n) <= n }

  /** One of the calls from number `from` on and before number `to` reports an error. */
  ghost predicate ReadFails(io: Kernel, from: nat, to: nat) {
    exists k: nat, n: nat :: from <= k < to && n > 0 && io(k, n) < 0
  }

  /** Reads are short only at the end of the file, as for proc files. */
  ghost predicate FullReads(io: Kernel) { forall k: nat, n: nat :: io(k, n) == n }

  ghost predicate Writes(io: Kernel) { forall k: nat, n: nat :: io(k, n) <= n }

  /** One of these calls moves less than it could, or reports an error. */
  ghost predicate WriteFails(io: Kernel, from: nat, to: nat) {
    exists k: nat, n: nat :: from <= k < to && io(k, n) < n
  }

  class Stream {
    const io: Kernel
    const buffered: bool
    const writable: bool
    const mem: array<bv8>     // xbuf.mem, BUFSIZE bytes
    var data: nat             // xbuf.data - xbuf.mem
    var sz: nat
    var calls: nat            // system calls made
    var unread: Bytes         // what the file still holds for a reader
    var written: Bytes        // what a writer has put into the file

    constructor (io: Kernel, buffered: bool, writable: bool, mem: array<bv8>, unread: Bytes)
      requires mem.Length == BUFSIZE
      ensures Valid() && this.io == io && this.buffered == buffered && this.writable == writable && this.mem == mem
      ensures Contents() == unread && Accepted() == [] && data == 0
    {
      this.io, this.buffered, this.writable, this.mem := io, buffered, writable, mem;
      data, sz, calls := 0, 0, 0;
      this.unread, written := unread, [];
    }

    ghost predicate Valid()
      reads this
    {
      mem.Length == BUFSIZE && data + sz <= BUFSIZE && (!buffered ==> sz == 0)
    }

    /** The bytes in the buffer. */
    ghost function InBuffer(): (b: Bytes)
      requires Valid()
      reads this, mem
      ensures |b| == sz
    {
      mem[data..data + sz]
    }

    /** All that is still to be read. */
    ghost function Contents(): Bytes
      requires Valid()
      reads this, mem
    {
      InBuffer() + unread
    }

    /** All that was written, in the file or still in the buffer. */
    ghost function Accepted(): Bytes
      requires Valid()
      reads this, mem
    {
      written + InBuffer()
    }

    // ----- reading

    /** read(2) of up to n bytes. */
    method Read(n: nat) returns (r: int, got: Bytes)
      requires Reads(io)
      modifies this`calls, this`unread
      ensures r >= 0 ==> r == |got| <= n && old(unread) == got + unread
      ensures r < 0 ==> unread == old(unread) && got == [] && ReadFails(io, old(calls), calls)
      ensures calls >= old(calls)
      ensures r == 0 ==> n == 0 || old(unread) == []
      ensures FullReads(io) ==> r == if n <= |old(unread)| then n else |old(unread)|
    {
      var most := if n <= |unread| then n else |unread|;
      if most == 0 { return 0, []; }
      r, got := io(calls, most), [];
      calls := calls + 1;
      if r >= 0 { got, unread := unread[..r], unread[r..]; }
    }

    /** memmove of what is left to the front of the buffer. */
    method MoveToFront()
      requires Valid()
      modifies this`data, mem
      ensures Valid() && data == 0 && InBuffer() == old(InBuffer())
    {
      forall i | 0 <= i < sz { mem[i] := mem[data + i]; }
      data := 0;
    }

    /** Bytes put behind those in the buffer. */
    method Append(got: Bytes)
      requires Valid() && buffered && data + sz + |got| <= BUFSIZE
      modifies this`sz, mem
      ensures Valid() && sz == old(sz) + |got| && InBuffer() == old(InBuffer()) + got
    {
      forall i | 0 <= i < |got| { mem[data + sz + i] := got[i]; }
      sz := sz + |got|;
    }

    /** brefill: moves what is left to the front and reads behind it. */
    method Refill() returns (r: int)
      requires Valid() && buffered && Reads(io)
      modifies this`data, this`sz, this`calls, this`unread, mem
      ensures Valid() && data == 0 && Contents() == old(Contents()) && old(InBuffer()) <= InBuffer()
      ensures r == 0 ==> sz == old(sz) && (sz == BUFSIZE || unread == [])
      ensures r > 0 ==> sz > old(sz)
      ensures r < 0 ==> sz == old(sz) && ReadFails(io, old(calls), calls)
      ensures calls >= old(calls)
      ensures r > 0 ==> |unread| < |old(unread)|
      ensures FullReads(io) ==> r >= 0 && (sz == BUFSIZE || unread == [])
    {
      MoveToFront();
      ghost var left := InBuffer();
      var got: Bytes;
      r, got := Read(BUFSIZE - sz);
      if r > 0 {
        Assoc(left, got, unread);
        Append(got);
        r := 1;
      }
    }

    /** strnchr from offset ss on: the offset of the first delimiter, or sz. */
    method Strnchr(ss: nat, c: bv8) returns (n: nat)
      requires Valid() && ss <= sz && forall j :: 0 <= j < ss ==> InBuffer()[j] != c
      ensures n == Find(InBuffer(), c)
    {
      n := ss;
      while n < sz && mem[data + n] != c
        invariant ss <= n <= sz && forall j :: 0 <= j < n ==> InBuffer()[j] != c
      {
        n := n + 1;
      }
      FindIs(InBuffer(), c, n);
    }

    /** Takes the n bytes before a delimiter, and the delimiter. */
    method Take(n: nat) returns (piece: Bytes)
      requires Valid() && n < sz
      modifies this`data, this`sz, mem
      ensures Valid() && piece == old(InBuffer())[..n] && InBuffer() == old(InBuffer())[n + 1..]
    {
      piece := mem[data..data + n];
      mem[data + n] := 0;
      data, sz := data + n + 1, sz - n - 1;
    }

    /** The search of breadchr from offset ss on, and the taking of the piece if its end is in the buffer. */
    method TakePiece(ss: nat, c: bv8) returns (piece: Option<Bytes>)
      requires Valid() && ss <= sz && forall j :: 0 <= j < ss ==> InBuffer()[j] != c
      modifies this`data, this`sz, mem
      ensures Valid()
      ensures piece.Some? ==>
                NextPiece(old(Contents()), c, piece, Contents()) && Conserves(old(Contents()), c, piece, Contents())
      ensures piece.None? ==> unchanged(this) && unchanged(mem) && Find(InBuffer(), c) == sz
    {
      var n := Strnchr(ss, c);
      if n == sz { return None; }
      PieceFound(Contents(), c, InBuffer(), unread, n);
      var p := Take(n);
      piece := Some(p);
    }

    /** What breadchr makes of a refilled buffer without delimiter. */
    method LastPiece(c: bv8) returns (piece: Option<Bytes>)
      requires Valid() && data == 0 && Find(InBuffer(), c) == sz
      modifies this`sz, mem
      ensures Valid() && Conserves(old(Contents()), c, piece, Contents())
      ensures old(sz) == BUFSIZE || unread == [] ==> NextPiece(old(Contents()), c, piece, Contents())
      ensures piece.None? ==> old(sz) == 0 || old(sz) == BUFSIZE
    {
      ghost var s := Contents();
      if sz == 0 { return None; }
      if sz == BUFSIZE {
        PieceTooLong(s, c, InBuffer(), unread);
        return None;
      }
      mem[sz] := 0;
      piece := Some(mem[..sz]);
      assert piece.value == old(InBuffer());
      sz := 0;
      assert unread == [] ==> s == piece.value;
    }

    /** breadchr: the bytes up to the next delimiter, or None at the end of the file, if the buffer is too small, or
        with
        an error if a read fails.  A short read in the middle of a piece cuts it in two; no byte is lost or repeated. */
    method ReadChr(c: bv8) returns (err: bool, piece: Option<Bytes>)
      requires Valid() && buffered && Reads(io)
      modifies this`data, this`sz, this`calls, this`unread, mem
      ensures Valid() && Conserves(old(Contents()), c, piece, Contents())
      ensures err ==> piece.None? && ReadFails(io, old(calls), calls)
      ensures !err && piece.None? ==> NextPiece(old(Contents()), c, None, Contents())
      ensures FullReads(io) ==> !err && NextPiece(old(Contents()), c, piece, Contents())
    {
      err := false;
      piece := TakePiece(0, c);
      if piece.Some? { return; }
      var ss := sz;
      var r := Refill();
      if r < 0 { return true, None; }
      piece := TakePiece(ss, c);
      if piece.Some? { return; }
      piece := LastPiece(c);
    }

    /** breadchr until it yields nothing: the pieces up to the first that does not fit, and then nothing for ever. */
    method ReadPieces(c: bv8) returns (pieces: seq<Bytes>)
      requires Valid() && buffered && Reads(io) && FullReads(io)
      modifies this`data, this`sz, this`calls, this`unread, mem
      ensures Valid() && pieces == Readable(old(Contents()), c) && NextPiece(Contents(), c, None, Contents())
    {
      pieces := [];
      ghost var all := Readable(Contents(), c);
      while true
        invariant Valid() && pieces + Readable(Contents(), c) == all
        decreases |Contents()|
      {
        ghost var s := Contents();
        var _, piece := ReadChr(c);
        ReadableNext(s, c, piece, Contents());
        if piece.None? { return; }
        Assoc(pieces, [piece.value], Readable(Contents(), c));
        pieces := pieces + [piece.value];
      }
    }

    /** Takes up to n bytes from the buffer (memcpy and the moves of data and sz in bread). */
    method TakeBytes(n: nat) returns (got: Bytes)
      requires Valid() && n <= sz
      modifies this`data, this`sz
      ensures Valid() && |got| == n && old(Contents()) == got + Contents() && sz == old(sz) - n
    {
      got := mem[data..data + n];
      data, sz := data + n, sz - n;
    }

    /** bread: up to `size` bytes, over any number of short reads. */
    method BRead(size: nat) returns (r: int, buf: Bytes)
      requires Valid() && Reads(io)
      modifies this`data, this`sz, this`calls, this`unread, mem
      ensures Valid() && calls >= old(calls)
      ensures r >= 0 ==> r == |buf| <= size && old(Contents()) == buf + Contents()
      ensures r >= 0 && buffered ==> r == size || Contents() == []
      ensures r < 0 ==> ReadFails(io, old(calls), calls)
    {
      if !buffered {
        r, buf := Read(size);
        return;
      }
      var more := 1;
      ghost var all := Contents();
      buf := [];
      while more > 0
        invariant Valid() && |buf| <= size && all == buf + Contents()
        invariant more <= 0 ==> |buf| == size || Contents() == [] || more < 0
        invariant calls >= old(calls) && (more < 0 ==> ReadFails(io, old(calls), calls))
        decreases more > 0, |unread|
      {
        var chunk := if size - |buf| > sz then sz else size - |buf|;
        var got := TakeBytes(chunk);
        Assoc(buf, got, Contents());
        buf := buf + got;
        if |buf| < size {
          more := Refill();
        } else {
          more := 0;
        }
      }
      r := if more < 0 then more else |buf|;
    }

    // ----- writing

    /** write(2): the file takes a first part of the bytes. */
    method Write(b: Bytes) returns (r: int)
      requires Writes(io)
      modifies this`calls, this`written
      ensures r <= |b| && written == old(written) + b[..if r >= 0 then r else 0]
      ensures calls > old(calls) && (r < |b| ==> WriteFails(io, old(calls), calls))
    {
      r := io(calls, |b|);
      calls := calls + 1;
      written := written + b[..if r >= 0 then r else 0];
    }

    /** bflush: a short write is a failure; the buffer then still holds everything, also what the file has taken. */
    method Flush() returns (r: int)
      requires Valid() && Writes(io)
      modifies this`sz, this`calls, this`written
      ensures Valid() && (r == 0 || r == -1) && calls >= old(calls)
      ensures r == 0 ==> Accepted() == old(Accepted()) && sz == 0 && written == Accepted()
      ensures r == -1 ==> WriteFails(io, old(calls), calls) && sz == old(sz)
      ensures r == -1 ==> exists n :: 0 <= n < sz && written == old(written) + old(InBuffer())[..n]
    {
      if sz == 0 { return 0; }
      var ret := Write(mem[data..data + sz]);
      if ret != sz {
        ghost var n := if ret >= 0 then ret else 0;
        assert 0 <= n < sz && written == old(written) + old(InBuffer())[..n];
        return -1;
      }
      sz := 0;
      r := 0;
    }

    /** __bwrite, and write(2) for a stream that is not buffered: r bytes of b are accepted unless r is negative, and
        all of them unless a write fails or is short. */
    method BWrite(b: Bytes) returns (r: int)
      requires Valid() && Writes(io) && data == 0
      modifies this`sz, this`calls, this`written, mem
      ensures Valid() && r <= |b| && calls >= old(calls)
      ensures r >= 0 ==> Accepted() == old(Accepted()) + b[..r]
      ensures r < |b| ==> WriteFails(io, old(calls), calls)
      ensures buffered && |b| <= BUFSIZE ==> r == |b| || r == -1
      ensures buffered && old(sz) + |b| <= BUFSIZE ==> calls == old(calls) && written == old(written)
    {
      if !buffered {
        r := Write(b);
        return;
      }
      if sz + |b| > BUFSIZE {
        var ret := Flush();
        if ret < 0 { return ret; }
      }
      if |b| > BUFSIZE {
        r := Write(b);
        return;
      }
      ghost var had := InBuffer();
      Append(b);
      Assoc(written, had, b);
      r := |b|;
      assert b[..r] == b;
    }

    /** bwritev: stops at the first buffer that is not taken whole. */
    method BWritev(v: seq<Bytes>) returns (r: int)
      requires Valid() && Writes(io) && data == 0
      modifies this`sz, this`calls, this`written, mem
      ensures Valid() && r <= |Concat(v)| && calls >= old(calls)
      ensures r >= 0 ==> Accepted() == old(Accepted()) + Concat(v)[..r]
      ensures r < |Concat(v)| ==> WriteFails(io, old(calls), calls)
    {
      if !buffered {
        r := Write(Concat(v));
        return;
      }
      r := 0;
      ghost var before := Accepted();
      for i := 0 to |v|
        invariant Valid() && r == |Concat(v[..i])| && Accepted() == before + Concat(v[..i]) && calls >= old(calls)
      {
        ghost var sofar := Concat(v[..i]);
        var ret := BWrite(v[i]);
        if ret < 0 { return ret; }
        r := r + ret;
        ConcatPart(v, i, ret, r);
        Assoc(before, sofar, v[i][..ret]);
        if ret < |v[i]| { return; }
        assert v[i][..ret] == v[i];
      }
      assert v[..|v|] == v && Concat(v)[..r] == Concat(v);
    }

    /** bclose: unless a writer reports a failed flush, the file holds all that was accepted. */
    method Close() returns (flushFailed: bool)
      requires Valid() && (buffered && writable ==> Writes(io))
      modifies this`sz, this`calls, this`written
      ensures Valid() && calls >= old(calls)
      ensures flushFailed ==> writable && WriteFails(io, old(calls), calls)
      ensures writable && !flushFailed ==> written == old(Accepted())
      ensures !writable ==> written == old(written)
    {
      flushFailed := false;
      if buffered && writable {
        var r := Flush();
        flushFailed := r < 0;
      }
    }
  }

  // ----- any sequence of calls

  /** bread with any sizes: the file, slice by slice, and all of it in order whatever the reads are. */
  method ReadAll(f: Stream, sizes: seq<nat>) returns (ok: bool, bufs: seq<Bytes>)
    requires f.Valid() && Reads(f.io)
    modifies f`data, f`sz, f`calls, f`unread, f.mem
    ensures f.Valid() && (!ok ==> ReadFails(f.io, old(f.calls), f.calls))
    ensures ok ==> old(f.Contents()) == Concat(bufs) + f.Contents()
    ensures ok && f.buffered ==> bufs == Slices(old(f.Contents()), sizes)
  {
    bufs := [];
    ghost var all := Slices(f.Contents(), sizes);
    for i := 0 to |sizes|
      invariant f.Valid() && f.calls >= old(f.calls) && old(f.Contents()) == Concat(bufs) + f.Contents()
      invariant f.buffered ==> bufs + Slices(f.Contents(), sizes[i..]) == all
    {
      ghost var s := f.Contents();
      var r, buf := f.BRead(sizes[i]);
      if r < 0 { return false, bufs; }
      SliceNext(s, buf, f.Contents(), sizes, i, f.buffered);
      Assoc(Concat(bufs), buf, f.Contents());
      Assoc(bufs, [buf], Slices(f.Contents(), sizes[i + 1..]));
      assert (bufs + [buf])[..|bufs|] == bufs;
      bufs := bufs + [buf];
    }
    ok := true;
  }

  lemma {:induction false} SliceNext(s: Bytes, buf: Bytes, rest: Bytes, sizes: seq<nat>, i: nat, whole: bool)
    requires i < |sizes| && s == buf + rest && |buf| <= sizes[i] && (whole ==> |buf| == sizes[i] || rest == [])
    ensures whole ==> Slices(s, sizes[i..]) == [buf] + Slices(rest, sizes[i + 1..])
  {
    if whole {
      assert Front(s, sizes[i]) == buf && s[|buf|..] == rest;
      assert sizes[i..][1..] == sizes[i + 1..];
    }
  }

  /** A call of bwrite or bwritev. */
  datatype WriteCall = One(b: Bytes) | Vector(v: seq<Bytes>)

  function BytesOf(w: WriteCall): Bytes { if w.One? then w.b else Concat(w.v) }

  function AllBytes(ws: seq<WriteCall>): seq<Bytes> { seq(|ws|, i requires 0 <= i < |ws| => BytesOf(ws[i])) }

  /** One call; false if it is not taken whole. */
  method WriteOne(f: Stream, w: WriteCall) returns (ok: bool)
    requires f.Valid() && Writes(f.io) && f.data == 0
    modifies f`sz, f`calls, f`written, f.mem
    ensures f.Valid() && f.calls >= old(f.calls)
    ensures if ok then f.Accepted() == old(f.Accepted()) + BytesOf(w) else WriteFails(f.io, old(f.calls), f.calls)
  {
    var r: int;
    match w {
      case One(b) => r := f.BWrite(b);
      case Vector(v) => r := f.BWritev(v);
    }
    ok := r == |BytesOf(w)|;
    if ok { assert BytesOf(w)[..r] == BytesOf(w); }
  }

  /** Any calls of bwrite and bwritev and then bclose: the file holds their bytes, one after the other, unless a write
      fails or is short. */
  method WriteAll(f: Stream, ws: seq<WriteCall>) returns (ok: bool)
    requires f.Valid() && Writes(f.io) && f.data == 0 && f.Accepted() == [] && f.writable
    modifies f, f.mem
    ensures if ok then f.written == Concat(AllBytes(ws)) else WriteFails(f.io, old(f.calls), f.calls)
  {
    ghost var parts := AllBytes(ws);
    for i := 0 to |ws|
      invariant f.Valid() && f.data == 0 && f.Accepted() == Concat(parts[..i]) && f.calls >= old(f.calls)
    {
      ok := WriteOne(f, ws[i]);
      if !ok { return; }
      assert parts[..i + 1][..i] == parts[..i];
    }
    assert parts[..|ws|] == parts;
    var failed := f.Close();
    ok := !failed;
  }
}
