/** Setting and clearing runs of bits (criu/bitmap.c).  A word is the sequence of its 64 bits, the lowest first. */
module Bitmap {

  type Word = seq<bool>

  ghost predicate IsMap(words: seq<Word>) { forall q :: 0 <= q < |words| ==> |words[q]| == 64 }

  function Ones(): (w: Word) ensures |w| == 64 { seq(64, j => true) }

  /** ~0ul << s. */
  function High(s: nat): (w: Word) ensures |w| == 64 { seq(64, j => s <= j) }

  /** (1ul << n) - 1. */
  function Low(n: nat): (w: Word) ensures |w| == 64 { seq(64, j => j < n) }

  /** These are the words the shifts give. */
  lemma MaskFormulas(s: bv7, p: bv7)
    requires s < 64 && p < 64
    ensures (0xFFFF_FFFF_FFFF_FFFF << s) & ((1 as bv64) << p) != 0 <==> s <= p
    ensures (((1 as bv64) << s) - 1) & ((1 as bv64) << p) != 0 <==> p < s
  {
  }

  function FirstMask(start: nat): (w: Word) ensures |w| == 64 { High(start % 64) }

  function LastMask(nbits: nat): (w: Word) ensures |w| == 64 { if nbits % 64 != 0 then Low(nbits % 64) else Ones() }

  function And(a: Word, b: Word): (w: Word)
    requires |a| == |b| == 64
    ensures |w| == 64
  {
    seq(64, j requires 0 <= j < 64 => a[j] && b[j])
  }

  /** *p |= mask, or *p &= ~mask. */
  function Apply(a: Word, mask: Word, v: bool): (w: Word)
    requires |a| == |mask| == 64
    ensures |w| == 64 && forall j :: 0 <= j < 64 ==> w[j] == if mask[j] then v else a[j]
  {
    seq(64, j requires 0 <= j < 64 => if v then a[j] || mask[j] else a[j] && !mask[j])
  }

  /** now is was with the n bits from number `from` on set to v, and no other changed, in the first p words; the words
      behind are as they were. */
  ghost predicate Changed(was: seq<Word>, now: seq<Word>, from: nat, n: nat, v: bool, p: nat) {
    && |now| == |was| && IsMap(was) && IsMap(now)
    && (forall q, j :: 0 <= q < |was| && q < p && 0 <= j < 64 ==>
        now[q][j] == if from <= 64 * q + j < from + n then v else was[q][j])
    && (forall q :: p <= q < |was| ==> now[q] == was[q])
  }

  /** The bits of mask are those of word p that belong to the run. */
  ghost predicate IsMask(mask: Word, from: nat, n: nat, p: nat) {
    |mask| == 64 && forall j :: 0 <= j < 64 ==> mask[j] == (from <= 64 * p + j < from + n)
  }

  lemma WordChanged(was: seq<Word>, now: seq<Word>, from: nat, n: nat, v: bool, p: nat, mask: Word, p': nat)
    requires Changed(was, now, from, n, v, p) && p < |now| && IsMask(mask, from, n, p) && p' == p + 1
    ensures Changed(was, now[p := Apply(now[p], mask, v)], from, n, v, p')
  {
  }

  /** The mask of the word the run ends in. */
  lemma LastMaskIs(mask: Word, from: nat, n: nat, size: nat, p: nat)
    requires |mask| == 64 && size == from + n && 64 * p < size <= 64 * p + 64
    requires forall j :: 0 <= j < 64 ==> mask[j] == (from <= 64 * p + j)
    ensures IsMask(And(mask, LastMask(size)), from, n, p)
  {
    assert size % 64 == if size == 64 * p + 64 then 0 else size - 64 * p;
  }

  /** bitmap_set (v) and bitmap_clear (not v) change exactly the bits [start, start + nr). */
  method ChangeBits(words: array<Word>, start: nat, nr0: nat, v: bool)
    requires start + nr0 <= 64 * words.Length && IsMap(words[..])
    modifies words
    ensures Changed(old(words[..]), words[..], start, nr0, v, words.Length)
  {
    ghost var was := words[..];
    var p, nr, size := start / 64, nr0, start + nr0;
    var bits, mask := 64 - start % 64, FirstMask(start);
    while nr - bits >= 0
      invariant 0 <= nr && 1 <= bits <= 64 && size - nr + bits == 64 * p + 64 && start <= size - nr
      invariant (bits < 64 ==> size - nr == start) && |mask| == 64
      invariant forall j :: 0 <= j < 64 ==> mask[j] == (start <= 64 * p + j)
      invariant Changed(was, words[..], start, nr0, v, p)
    {
      WordChanged(was, words[..], start, nr0, v, p, mask, p + 1);
      words[p] := Apply(words[p], mask, v);
      nr := nr - bits;
      bits, mask, p := 64, Ones(), p + 1;
    }
    if nr > 0 {
      LastMaskIs(mask, start, nr0, size, p);
      mask := And(mask, LastMask(size));
      WordChanged(was, words[..], start, nr0, v, p, mask, p + 1);
      words[p] := Apply(words[p], mask, v);
    }
  }
}
