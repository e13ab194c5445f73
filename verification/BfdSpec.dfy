/** What buffered streams promise (criu/bfd.c), on plain byte sequences. */
module BfdSpec {
  import opened Options

  type Bytes = seq<bv8>

  /** One page; larger than any read of a proc file. */
  const BUFSIZE: nat := 4096

  /** The first place of c in s, or the length of s. */
  function Find(s: Bytes, c: bv8): (i: nat)
    ensures i <= |s| && (i < |s| ==> s[i] == c) && forall j :: 0 <= j < i ==> s[j] != c
  {
    if s == [] || s[0] == c then 0 else 1 + Find(s[1..], c)
  }

  lemma {:induction false} FindIs(s: Bytes, c: bv8, i: nat)
    requires i <= |s| && (i < |s| ==> s[i] == c) && forall j :: 0 <= j < i ==> s[j] != c
    ensures Find(s, c) == i
  {
  }

  /** What breadchr is to yield of the bytes s, and what it is to leave. */
  ghost predicate NextPiece(s: Bytes, c: bv8, piece: Option<Bytes>, rest: Bytes) {
    var i := Find(s, c);
    if s == [] || i >= BUFSIZE then piece == None && rest == s
    else piece == Some(s[..i]) && rest == if i < |s| then s[i + 1..] else []
  }

  /** The bytes s are the piece, perhaps its delimiter, and the rest; the piece has no delimiter in it. */
  ghost predicate Conserves(s: Bytes, c: bv8, piece: Option<Bytes>, rest: Bytes) {
    match piece
    case None => rest == s
    case Some(p) => c !in p && (s == p + [c] + rest || (p != [] && s == p + rest))
  }

  lemma {:induction false} PieceFound(s: Bytes, c: bv8, had: Bytes, more: Bytes, n: nat)
    requires s == had + more && n == Find(had, c) < |had| <= BUFSIZE
    ensures NextPiece(s, c, Some(had[..n]), had[n + 1..] + more) && Conserves(s, c, Some(had[..n]), had[n + 1..] + more)
  {
    assert forall j :: 0 <= j < |had| ==> s[j] == had[j];
    FindIs(s, c, n);
    assert s[..n] == had[..n] && s[n + 1..] == had[n + 1..] + more;
  }

  lemma {:induction false} PieceTooLong(s: Bytes, c: bv8, had: Bytes, more: Bytes)
    requires s == had + more && Find(had, c) == |had| == BUFSIZE
    ensures NextPiece(s, c, None, s)
  {
    assert forall j :: 0 <= j < |had| ==> s[j] == had[j];
    if Find(s, c) < BUFSIZE { FindIs(had, c, Find(s, c)); }
  }

  /** The pieces of s between delimiters; a last piece without delimiter counts unless it is empty. */
  function Split(s: Bytes, c: bv8): seq<Bytes> {
    if s == [] then []
    else
      var i := Find(s, c);
      [s[..i]] + (if i < |s| then Split(s[i + 1..], c) else [])
  }

  /** The pieces up to the first that does not fit the buffer. */
  function Readable(s: Bytes, c: bv8): seq<Bytes> {
    if s == [] || Find(s, c) >= BUFSIZE then []
    else
      var i := Find(s, c);
      [s[..i]] + (if i < |s| then Readable(s[i + 1..], c) else [])
  }

  lemma {:induction false} ReadableNext(s: Bytes, c: bv8, piece: Option<Bytes>, rest: Bytes)
    requires NextPiece(s, c, piece, rest)
    ensures piece.Some? ==> Readable(s, c) == [piece.value] + Readable(rest, c) && |rest| < |s|
    ensures piece.None? ==> Readable(s, c) == [] && rest == s
  {
  }

  lemma Assoc<T>(a: seq<T>, b: seq<T>, c: seq<T>)
    ensures a + (b + c) == (a + b) + c
  {
  }

  ghost predicate Short(pieces: seq<Bytes>) { forall i :: 0 <= i < |pieces| ==> |pieces[i]| < BUFSIZE }

  /** All pieces are read if and only if each is shorter than the buffer. */
  lemma {:induction false} AllReadIffShort(s: Bytes, c: bv8)
    ensures Readable(s, c) == Split(s, c) <==> Short(Split(s, c))
    ensures |Readable(s, c)| <= |Split(s, c)| && Readable(s, c) == Split(s, c)[..|Readable(s, c)|]
    decreases |s|
  {
    if s != [] {
      var i := Find(s, c);
      if i < |s| {
        AllReadIffShort(s[i + 1..], c);
        var rest, read := Split(s[i + 1..], c), Readable(s[i + 1..], c);
        assert Split(s, c) == [s[..i]] + rest;
        assert forall j :: 0 <= j < |rest| ==> Split(s, c)[j + 1] == rest[j];
        if i < BUFSIZE {
          assert Readable(s, c) == [s[..i]] + read;
          assert Short(Split(s, c)) <==> Short(rest);
          assert Readable(s, c)[1..] == read && Split(s, c)[1..] == rest;
        } else {
          assert !Short(Split(s, c)) by { assert |Split(s, c)[0]| == i; }
        }
      } else {
        assert Split(s, c) == [s[..i]];
      }
    }
  }

  /** The bytes of a vector of buffers, one after the other. */
  function Concat(v: seq<Bytes>): Bytes {
    if v == [] then [] else Concat(v[..|v| - 1]) + v[|v| - 1]
  }

  lemma {:induction false} ConcatFrom(v: seq<Bytes>, i: nat)
    requires i <= |v|
    ensures Concat(v[..i]) <= Concat(v)
    decreases |v| - i
  {
    if i == |v| {
      assert v[..i] == v;
    } else {
      assert v[..i + 1][..i] == v[..i];
      ConcatFrom(v, i + 1);
    }
  }

  /** The first i buffers and n bytes of the next are the first bytes of all. */
  lemma {:induction false} ConcatPart(v: seq<Bytes>, i: nat, n: nat, r: nat)
    requires i < |v| && n <= |v[i]| && r == |Concat(v[..i])| + n
    ensures Concat(v[..i + 1]) == Concat(v[..i]) + v[i]
    ensures r <= |Concat(v)| && Concat(v[..i]) + v[i][..n] == Concat(v)[..r]
  {
    assert v[..i + 1][..i] == v[..i];
    ConcatFrom(v, i + 1);
  }

  // ----- slices of a file

  /** The first n bytes, or all if there are fewer. */
  function Front(s: Bytes, n: nat): Bytes { if n <= |s| then s[..n] else s }

  /** What successive reads of these sizes are to yield. */
  function Slices(s: Bytes, sizes: seq<nat>): seq<Bytes> {
    if sizes == [] then [] else [Front(s, sizes[0])] + Slices(s[|Front(s, sizes[0])|..], sizes[1..])
  }
}
