/** Contents of ghost files as chunks of data between holes (criu/files-reg.c). */
module GhostChunks {

  type Bytes = seq<bv8>

  /** What a transfer call (sendfile or splice) returns when it is asked for so many bytes, by the number of the call:
      negative on failure, zero if it moves nothing, and never more than was asked for. */
  type Transfer = (nat, nat) -> int

  ghost predicate Bounded(io: Transfer) { forall k: nat, n: nat :: io(k, n) <= n }

  ghost predicate Fails(io: Transfer) { exists k: nat, n: nat :: n > 0 && io(k, n) <= 0 }

  function Zeros(n: nat): (z: Bytes)
    ensures |z| == n && forall i :: 0 <= i < n ==> z[i] == 0
  {
    seq(n, i => 0)
  }

  // ----- holes

  /** Which bytes the file system keeps; the others read as zero. */
  ghost predicate IsLayout(file: Bytes, kept: seq<bool>) {
    |kept| == |file| && forall i :: 0 <= i < |file| && !kept[i] ==> file[i] == 0
  }

  /** lseek with SEEK_DATA: the next kept byte; the size of the file stands for ENXIO. */
  function SeekData(kept: seq<bool>, off: nat): (r: nat)
    requires off <= |kept|
    ensures off <= r <= |kept| && (r < |kept| ==> kept[r])
    ensures forall i :: off <= i < r ==> !kept[i]
    decreases |kept| - off
  {
    if off == |kept| || kept[off] then off else SeekData(kept, off + 1)
  }

  /** lseek with SEEK_HOLE: the next byte that is not kept, or the end of the file. */
  function SeekHole(kept: seq<bool>, off: nat): (r: nat)
    requires off <= |kept|
    ensures off <= r <= |kept| && (off < |kept| && kept[off] ==> off < r)
    ensures (forall i :: off <= i < r ==> kept[i]) && (r < |kept| ==> !kept[r])
    decreases |kept| - off
  {
    if off == |kept| || !kept[off] then off else SeekHole(kept, off + 1)
  }

  // ----- reading the image

  /** pwrite: the file grows if the bytes do not fit. */
  function WriteAt(file: Bytes, off: nat, b: Bytes): Bytes {
    var padded := if |file| < off then file + Zeros(off - |file|) else file;
    padded[..off] + b + (if off + |b| < |padded| then padded[off + |b|..] else [])
  }

  /** What pb_read_one_eof makes of the bytes at hand: the end of the image, something that is no entry, or a chunk
      entry
      that takes `size` bytes. */
  datatype Parsed = Eof | Bad | Entry(off: nat, len: nat, size: nat)

  /** How entries are written to the image and read back. */
  datatype Codec = Codec(encode: (nat, nat) -> Bytes, parse: Bytes -> Parsed)

  /** Only an empty image is at its end, and an entry takes some bytes that are there. */
  ghost predicate ParsesWell(codec: Codec, img: Bytes) {
    && (codec.parse(img).Eof? <==> img == [])
    && (codec.parse(img).Entry? ==> 0 < codec.parse(img).size <= |img|)
  }

  /** What was written is read back, whatever comes behind it. */
  ghost predicate ReadsBack(codec: Codec, off: nat, len: nat, rest: Bytes) {
    codec.parse(codec.encode(off, len) + rest) == Entry(off, len, |codec.encode(off, len)|)
  }

  ghost predicate Sound(codec: Codec) {
    && (forall img: Bytes :: ParsesWell(codec, img))
    && (forall off: nat, len: nat, rest: Bytes :: ReadsBack(codec, off, len, rest))
  }

  /** What an image describes: a file, written over what is there; or it holds something that is no entry, or ends
      inside a chunk. */
  datatype Decoded = Whole(file: Bytes) | Malformed | CutShort

  function Decode(codec: Codec, img: Bytes, file: Bytes): Decoded {
    var p := codec.parse(img);
    if p.Eof? then Whole(file)
    else if p.Bad? || !(0 < p.size <= |img|) then Malformed
    else if p.len > |img| - p.size then CutShort
    else Decode(codec, img[p.size + p.len..], WriteAt(file, p.off, img[p.size..p.size + p.len]))
  }

  // ----- the image of a list of chunks

  datatype Piece = Piece(off: nat, bytes: Bytes)

  function Encoded(codec: Codec, pieces: seq<Piece>): Bytes {
    if pieces == [] then []
    else codec.encode(pieces[0].off, |pieces[0].bytes|) + (pieces[0].bytes + Encoded(codec, pieces[1..]))
  }

  function Laid(pieces: seq<Piece>, file: Bytes): Bytes {
    if pieces == [] then file else Laid(pieces[1..], WriteAt(file, pieces[0].off, pieces[0].bytes))
  }

  lemma EncodedParts(head: Bytes, bytes: Bytes, rest: Bytes, img: Bytes)
    requires img == head + (bytes + rest)
    ensures img[|head|..|head| + |bytes|] == bytes && img[|head| + |bytes|..] == rest
  {
  }

  lemma {:induction false} DecodeChunk(codec: Codec, off: nat, head: Bytes, bytes: Bytes, rest: Bytes, img: Bytes,
                                       file: Bytes)
    requires Sound(codec) && head == codec.encode(off, |bytes|) && img == head + (bytes + rest)
    ensures Decode(codec, img, file) == Decode(codec, rest, WriteAt(file, off, bytes))
  {
    assert ReadsBack(codec, off, |bytes|, bytes + rest) && ParsesWell(codec, img);
    EncodedParts(head, bytes, rest, img);
  }

  /** The image of a list of chunks describes the file they make. */
  lemma {:induction false} DecodeEncoded(codec: Codec, pieces: seq<Piece>, file: Bytes)
    requires Sound(codec)
    ensures Decode(codec, Encoded(codec, pieces), file) == Whole(Laid(pieces, file))
  {
    if pieces == [] {
      assert ParsesWell(codec, []);
    } else {
      var off, bytes, rest := pieces[0].off, pieces[0].bytes, Encoded(codec, pieces[1..]);
      DecodeChunk(codec, off, codec.encode(off, |bytes|), bytes, rest, Encoded(codec, pieces), file);
      DecodeEncoded(codec, pieces[1..], WriteAt(file, off, bytes));
    }
  }

  lemma Assoc(a: Bytes, b: Bytes, c: Bytes, d: Bytes)
    ensures a + (b + (c + d)) == (a + (b + c)) + d
  {
  }

  lemma {:induction false} EncodedMore(codec: Codec, pieces: seq<Piece>, piece: Piece)
    ensures Encoded(codec, pieces + [piece]) == Encoded(codec,
                                                        pieces) + (codec.encode(piece.off, |piece.bytes|) + piece.bytes)
  {
    var more := pieces + [piece];
    if pieces == [] {
      assert more[1..] == [] && piece.bytes + [] == piece.bytes;
    } else {
      assert more[0] == pieces[0] && more[1..] == pieces[1..] + [piece];
      EncodedMore(codec, pieces[1..], piece);
      Assoc(codec.encode(pieces[0].off, |pieces[0].bytes|), pieces[0].bytes, Encoded(codec, pieces[1..]),
            codec.encode(piece.off, |piece.bytes|) + piece.bytes);
    }
  }

  lemma {:induction false} LaidMore(pieces: seq<Piece>, piece: Piece, file: Bytes)
    ensures Laid(pieces + [piece], file) == WriteAt(Laid(pieces, file), piece.off, piece.bytes)
  {
    var more := pieces + [piece];
    if pieces != [] {
      assert more[0] == pieces[0] && more[1..] == pieces[1..] + [piece];
      LaidMore(pieces[1..], piece, WriteAt(file, pieces[0].off, pieces[0].bytes));
    }
  }

  // ----- dump

  /** copy_chunk_from_file: k counts the transfer calls. */
  method CopyChunkFromFile(file: Bytes, off: nat, len: nat, io: Transfer, k0: nat)
      returns (ok: bool, sent: Bytes, k: nat)
    requires Bounded(io) && off + len <= |file|
    ensures ok ==> sent == file[off..off + len]
    ensures !ok ==> Fails(io)
  {
    var left := len;
    ok, sent, k := true, [], k0;
    while left > 0
      invariant 0 <= left <= len && sent == file[off..off + len - left]
    {
      var ret := io(k, left);
      k := k + 1;
      if ret <= 0 {
        ok := false;
        return;
      }
      var at := off + len - left;
      assert file[off..at + ret] == file[off..at] + file[at..at + ret];
      sent := sent + file[at..at + ret];
      left := left - ret;
    }
  }

  /** The file up to h, and zeros behind. */
  function Upto(file: Bytes, h: nat): Bytes
    requires h <= |file|
  {
    file[..h] + Zeros(|file| - h)
  }

  lemma ChunkFillsGap(file: Bytes, hole: nat, data: nat, next: nat)
    requires hole <= data <= next <= |file| && forall i :: hole <= i < data ==> file[i] == 0
    ensures WriteAt(Upto(file, hole), data, file[data..next]) == Upto(file, next)
  {
    assert |Upto(file, hole)| == |file|;
  }

  // ----- which bytes are in the chunks

  ghost predicate In(piece: Piece, i: nat) { piece.off <= i < piece.off + |piece.bytes| }

  ghost predicate Covered(pieces: seq<Piece>, i: nat) { exists p :: 0 <= p < |pieces| && In(pieces[p], i) }

  /** Below h the chunks hold exactly the bytes kept. */
  ghost predicate CoverKept(pieces: seq<Piece>, kept: seq<bool>, h: nat)
    requires h <= |kept|
  {
    forall i: nat :: i < h ==> (kept[i] <==> Covered(pieces, i))
  }

  /** The chunks are not empty, one behind the other, and end at h. */
  ghost predicate InOrder(pieces: seq<Piece>, h: nat) {
    && (forall p :: 0 <= p < |pieces| ==> pieces[p].bytes != [] && pieces[p].off + |pieces[p].bytes| <= h)
    && forall p, q :: 0 <= p < q < |pieces| ==> pieces[p].off + |pieces[p].bytes| <= pieces[q].off
  }

  lemma CoverMore(pieces: seq<Piece>, piece: Piece, kept: seq<bool>, hole: nat, next: nat)
    requires hole <= piece.off && piece.off + |piece.bytes| == next <= |kept|
    requires CoverKept(pieces, kept, hole) && InOrder(pieces, hole)
    requires forall i :: hole <= i < piece.off ==> !kept[i]
    requires forall i :: piece.off <= i < next ==> kept[i]
    ensures CoverKept(pieces + [piece], kept, next)
  {
    var more := pieces + [piece];
    forall i: nat | i < next ensures kept[i] <==> Covered(more, i) {
      if Covered(pieces, i) {
        var p :| 0 <= p < |pieces| && In(pieces[p], i);
        assert In(more[p], i);
      }
      assert more[|pieces|] == piece;
      assert In(piece, i) ==> Covered(more, i);
    }
  }

  lemma CoverRest(pieces: seq<Piece>, kept: seq<bool>, hole: nat)
    requires hole <= |kept| && CoverKept(pieces, kept, hole) && InOrder(pieces, hole)
    requires forall i :: hole <= i < |kept| ==> !kept[i]
    ensures CoverKept(pieces, kept, |kept|)
  {
  }

  /** The chunks describe the file up to `hole`, and hold no more than they must. */
  ghost predicate Written(file: Bytes, kept: seq<bool>, seeks: bool, pieces: seq<Piece>, hole: nat)
    requires IsLayout(file, kept)
  {
    && hole <= |file| && Laid(pieces, Zeros(|file|)) == Upto(file, hole) && InOrder(pieces, hole)
    && if seeks then CoverKept(pieces, kept, hole)
       else pieces == (if hole == 0 then [] else [Piece(0, file)]) && (hole == 0 || hole == |file|)
  }

  lemma WrittenMore(file: Bytes, kept: seq<bool>, seeks: bool, pieces: seq<Piece>, piece: Piece, hole: nat, next: nat)
    requires IsLayout(file, kept) && Written(file, kept, seeks, pieces, hole)
    requires hole <= piece.off < next <= |file| && piece.bytes == file[piece.off..next]
    requires forall i :: hole <= i < piece.off ==> !kept[i]
    requires if seeks then forall i :: piece.off <= i < next ==> kept[i] else piece.off == 0 && next == |file|
    ensures Written(file, kept, seeks, pieces + [piece], next)
  {
    ChunkFillsGap(file, hole, piece.off, next);
    LaidMore(pieces, piece, Zeros(|file|));
    if seeks {
      CoverMore(pieces, piece, kept, hole, next);
    } else {
      assert piece == Piece(0, file);
    }
  }

  lemma {:induction false} WrittenAll(codec: Codec, file: Bytes, kept: seq<bool>, seeks: bool, pieces: seq<Piece>,
                                      hole: nat)
    requires Sound(codec) && IsLayout(file, kept) && Written(file, kept, seeks, pieces, hole)
    requires hole == |file| || (seeks && forall i :: hole <= i < |file| ==> !kept[i])
    ensures Decode(codec, Encoded(codec, pieces), Zeros(|file|)) == Whole(file)
    ensures Written(file, kept, seeks, pieces, |file|)
  {
    assert Upto(file, hole) == file == Upto(file, |file|);
    DecodeEncoded(codec, pieces, Zeros(|file|));
    if seeks { CoverRest(pieces, kept, hole); }
  }

  /** The next stretch of bytes to be copied; without SEEK_DATA the whole file is one. */
  method NextStretch(kept: seq<bool>, seeks: bool, hole: nat) returns (data: nat, next: nat)
    requires hole < |kept| && (!seeks ==> hole == 0)
    ensures hole <= data <= |kept| && forall i :: hole <= i < data ==> !kept[i]
    ensures data < |kept| ==> data < next <= |kept|
    ensures if seeks then forall i :: data <= i < next <= |kept| ==> kept[i] else data == 0 && next == |kept|
  {
    if seeks {
      data := SeekData(kept, hole);
      next := SeekHole(kept, data);
    } else {
      data, next := 0, |kept|;
    }
  }

  lemma StretchAdded(codec: Codec, file: Bytes, kept: seq<bool>, seeks: bool, pieces: seq<Piece>, pieces': seq<Piece>,
                     hole: nat, data: nat, next: nat, chunk: Bytes)
    requires IsLayout(file, kept) && Written(file, kept, seeks, pieces, hole) && hole <= data < next <= |file|
    requires forall i :: hole <= i < data ==> !kept[i]
    requires if seeks then forall i :: data <= i < next ==> kept[i] else data == 0 && next == |file|
    requires pieces' == pieces + [Piece(data, file[data..next])]
    requires chunk == codec.encode(data, next - data) + file[data..next]
    ensures Written(file, kept, seeks, pieces', next) && Encoded(codec, pieces') == Encoded(codec, pieces) + chunk
  {
    var piece := Piece(data, file[data..next]);
    EncodedMore(codec, pieces, piece);
    WrittenMore(file, kept, seeks, pieces, piece, hole, next);
  }

  /** One turn of copy_file_to_chunks; it is over if no byte is left. */
  method CopyStretch(codec: Codec, file: Bytes, kept: seq<bool>, seeks: bool, io: Transfer, k0: nat, hole: nat,
                     ghost pieces: seq<Piece>)
      returns (ok: bool, over: bool, next: nat, chunk: Bytes, k: nat, ghost pieces': seq<Piece>)
    requires Bounded(io) && IsLayout(file, kept) && Written(file, kept, seeks, pieces, hole) && hole < |file|
    requires !seeks ==> hole == 0
    ensures ok && over ==> pieces' == pieces && seeks && forall i :: hole <= i < |file| ==> !kept[i]
    ensures ok && !over ==> hole < next && Written(file, kept, seeks, pieces', next)
    ensures ok && !over ==> Encoded(codec, pieces') == Encoded(codec, pieces) + chunk
    ensures !ok ==> Fails(io)
  {
    ok, over, chunk, k, pieces' := true, true, [], k0, pieces;
    var data;
    data, next := NextStretch(kept, seeks, hole);
    if data == |file| { return; }
    over := false;
    var sent;
    ok, sent, k := CopyChunkFromFile(file, data, next - data, io, k);
    if !ok { return; }
    chunk, pieces' := codec.encode(data, next - data) + sent, pieces + [Piece(data, file[data..next])];
    StretchAdded(codec, file, kept, seeks, pieces, pieces', hole, data, next, chunk);
  }

  /** copy_file_to_chunks.  `seeks` says whether the file system knows SEEK_DATA and SEEK_HOLE: if so, the chunks hold
      exactly the bytes kept. */
  method CopyFileToChunks(codec: Codec, file: Bytes, kept: seq<bool>, seeks: bool, io: Transfer)
      returns (ok: bool, img: Bytes, ghost pieces: seq<Piece>)
    requires Sound(codec) && Bounded(io) && IsLayout(file, kept)
    ensures ok ==> Decode(codec, img, Zeros(|file|)) == Whole(file)
    ensures ok ==> img == Encoded(codec, pieces) && InOrder(pieces, |file|)
    ensures ok && seeks ==> CoverKept(pieces, kept, |kept|)
    ensures ok && !seeks ==> pieces == if file == [] then [] else [Piece(0, file)]
    ensures !ok ==> Fails(io)
  {
    var hole: nat, k: nat, over := 0, 0, false;
    ok, img, pieces := true, [], [];
    assert Upto(file, 0) == Zeros(|file|);
    while hole < |file| && !over
      invariant img == Encoded(codec, pieces) && Written(file, kept, seeks, pieces, hole)
      invariant over ==> seeks && forall i :: hole <= i < |file| ==> !kept[i]
      decreases |file| - hole, !over
    {
      var next, chunk;
      ok, over, next, chunk, k, pieces := CopyStretch(codec, file, kept, seeks, io, k, hole, pieces);
      if !ok { return; }
      if !over { img, hole := img + chunk, next; }
    }
    WrittenAll(codec, file, kept, seeks, pieces, hole);
  }

  // ----- restore

  /** BadEntry: the image does not go on with an entry.  Spins: a transfer that moves nothing is tried again for
      ever. */
  datatype Outcome = Done | Failed | BadEntry | Spins

  /** copy_chunk_to_file: `raw` is what the image still holds.  A transfer moves nothing exactly at the end of the
      image. */
  method CopyChunkToFile(raw: Bytes, file: Bytes, off: nat, len: nat, io: Transfer, k0: nat)
      returns (r: Outcome, file': Bytes, k: nat)
    requires Bounded(io)
    ensures r.Done? ==> |raw| >= len && file' == WriteAt(file, off, raw[..len])
    ensures r.Failed? ==> Fails(io)
    ensures r.Spins? ==> |raw| < len
    ensures !r.BadEntry?
  {
    var left, pos, done: nat := len, off, 0;
    r, file', k := Done, WriteAt(file, off, []), k0;
    assert raw[..0] == [];
    while left > 0
      invariant done <= |raw| && done <= len && left == len - done && pos == off + done
      invariant file' == WriteAt(file, off, raw[..done])
    {
      var avail := |raw| - done;
      if avail == 0 { return Spins, file', k; }
      var ret := io(k, if left <= avail then left else avail);
      k := k + 1;
      if ret <= 0 { return Failed, file', k; }
      assert raw[..done + ret] == raw[..done] + raw[done..done + ret];
      WriteMore(file, off, raw[..done], raw[done..done + ret]);
      file' := WriteAt(file', pos, raw[done..done + ret]);
      pos, left, done := pos + ret, left - ret, done + ret;
    }
  }

  lemma WriteMore(file: Bytes, off: nat, a: Bytes, b: Bytes)
    ensures WriteAt(WriteAt(file, off, a), off + |a|, b) == WriteAt(file, off, a + b)
  {
  }

  /** One turn of copy_file_from_chunks; it is over at the end of the image. */
  method CopyNextChunk(codec: Codec, img: Bytes, file: Bytes, io: Transfer, k0: nat)
      returns (over: bool, r: Outcome, img': Bytes, file': Bytes, k: nat)
    requires Sound(codec) && Bounded(io)
    ensures over && r.Done? ==> file' == file && Decode(codec, img, file) == Whole(file)
    ensures !over ==> r.Done? && |img'| < |img| && Decode(codec, img', file') == Decode(codec, img, file)
    ensures r.Failed? ==> Fails(io)
    ensures r.BadEntry? ==> Decode(codec, img, file) == Malformed
    ensures r.Spins? ==> Decode(codec, img, file) == CutShort
  {
    var p := codec.parse(img);
    assert ParsesWell(codec, img);
    over, r, img', file', k := true, Done, img, file, k0;
    if p.Bad? {
      r := BadEntry;
    } else if p.Entry? {
      r, file', k := CopyChunkToFile(img[p.size..], file, p.off, p.len, io, k);
      if r.Done? {
        assert img[p.size..][..p.len] == img[p.size..p.size + p.len];
        over, img' := false, img[p.size + p.len..];
      }
    }
  }

  /** copy_file_from_chunks: ftruncate, then chunk after chunk.  For every image it yields what the image describes, or
      the reason why it describes nothing. */
  method CopyFileFromChunks(codec: Codec, img: Bytes, size: nat, io: Transfer) returns (r: Outcome, file: Bytes)
    requires Sound(codec) && Bounded(io)
    ensures r.Done? ==> Decode(codec, img, Zeros(size)) == Whole(file)
    ensures r.BadEntry? ==> Decode(codec, img, Zeros(size)) == Malformed
    ensures r.Spins? ==> Decode(codec, img, Zeros(size)) == CutShort
    ensures r.Failed? ==> Fails(io)
  {
    var rest, k: nat, over := img, 0, false;
    r, file := Done, Zeros(size);
    while !over
      invariant !over ==> Decode(codec, rest, file) == Decode(codec, img, Zeros(size))
      invariant over && r.Done? ==> Decode(codec, img, Zeros(size)) == Whole(file)
      invariant over && r.BadEntry? ==> Decode(codec, img, Zeros(size)) == Malformed
      invariant over && r.Spins? ==> Decode(codec, img, Zeros(size)) == CutShort
      invariant over && r.Failed? ==> Fails(io)
      decreases !over, |rest|
    {
      over, r, rest, file, k := CopyNextChunk(codec, rest, file, io, k);
    }
  }

  /** Dumping a file and restoring it gives the same file, for every layout of holes and every way to cut the
      transfers into pieces, as long as no transfer fails. */
  method RoundTrip(codec: Codec, file: Bytes, kept: seq<bool>, seeks: bool, dump: Transfer, restore: Transfer)
      returns (copy: Bytes)
    requires Sound(codec) && IsLayout(file, kept)
    requires Bounded(dump) && Bounded(restore) && !Fails(dump) && !Fails(restore)
    ensures copy == file
  {
    var ok, img, _ := CopyFileToChunks(codec, file, kept, seeks, dump);
    var r;
    r, copy := CopyFileFromChunks(codec, img, |file|, restore);
  }
}
