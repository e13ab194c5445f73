/** The text of the traced process and the words ptrace reads and writes in it (tools/tracer.c). */
module TracerText {

  datatype Arch = X86 | Arm

  type Text = seq<bv8>

  /** The eight bytes of a word, lowest first: both machines are little-endian. */
  function Bytes(w: bv64): (b: seq<bv8>)
    ensures |b| == 8
  {
    [(w & 0xFF) as bv8, ((w >> 8) & 0xFF) as bv8, ((w >> 16) & 0xFF) as bv8, ((w >> 24) & 0xFF) as bv8,
     ((w >> 32) & 0xFF) as bv8, ((w >> 40) & 0xFF) as bv8, ((w >> 48) & 0xFF) as bv8, ((w >> 56) & 0xFF) as bv8]
  }

  function Word(b: seq<bv8>): bv64
    requires |b| == 8
  {
    (b[0] as bv64) | ((b[1] as bv64) << 8) | ((b[2] as bv64) << 16) | ((b[3] as bv64) << 24)
    | ((b[4] as bv64) << 32) | ((b[5] as bv64) << 40) | ((b[6] as bv64) << 48) | ((b[7] as bv64) << 56)
  }

  predicate InText(text: Text, a: nat) { a + 8 <= |text| }

  /** PTRACE_PEEKTEXT. */
  function Peek(text: Text, a: nat): bv64
    requires InText(text, a)
  {
    Word(text[a..a + 8])
  }

  /** Eight bytes put over the text at a. */
  function Splice(text: Text, a: nat, b: seq<bv8>): (r: Text)
    requires InText(text, a) && |b| == 8
    ensures |r| == |text|
  {
    text[..a] + b + text[a + 8..]
  }

  /** PTRACE_POKETEXT. */
  function Poke(text: Text, a: nat, w: bv64): (r: Text)
    requires InText(text, a)
    ensures |r| == |text|
  {
    Splice(text, a, Bytes(w))
  }

  lemma BytesOfWord(b: seq<bv8>)
    requires |b| == 8
    ensures Bytes(Word(b)) == b
  {
  }

  lemma SpliceBack(text: Text, a: nat, b: seq<bv8>)
    requires InText(text, a) && |b| == 8
    ensures Splice(Splice(text, a, b), a, text[a..a + 8]) == text
  {
  }

  /** Writing back the word that was read undoes any write in between. */
  lemma PokeBack(text: Text, a: nat, w: bv64)
    requires InText(text, a)
    ensures Poke(Poke(text, a, w), a, Peek(text, a)) == text
  {
    BytesOfWord(text[a..a + 8]);
    SpliceBack(text, a, Bytes(w));
  }

  /** What set_breakpoint writes over the word d. */
  function BreakWord(arch: Arch, d: bv64): bv64 {
    match arch
    case X86 => (d & 0xFFFFFF00) | 0xCC
    case Arm => 0xd4200000
  }

  /** What remove_trap writes over the word d. */
  function NopWord(arch: Arch, d: bv64): bv64 {
    match arch
    case X86 => (d & 0xFFFFFFFFFFFFFF00) | 0x90
    case Arm => (d & 0xFFFFFFFF00000000) | 0xd503201f
  }

  function TrapCode(arch: Arch): seq<bv8> {
    match arch
    case X86 => [0xCC]
    case Arm => [0x00, 0x00, 0x20, 0xd4]
  }

  function NopCode(arch: Arch): seq<bv8> {
    match arch
    case X86 => [0x90]
    case Arm => [0x1f, 0x20, 0x03, 0xd5]
  }

  /** The text with an instruction put at a. */
  function Patched(text: Text, a: nat, code: seq<bv8>): Text
    requires a + |code| <= |text|
  {
    text[..a] + code + text[a + |code|..]
  }

  predicate CodeAt(text: Text, a: nat, code: seq<bv8>) {
    a + |code| <= |text| && text[a..a + |code|] == code
  }

  /** The bytes a breakpoint leaves of the eight bytes b.  The last four are zero, whatever they were. */
  function BreakCode(arch: Arch, b: seq<bv8>): (r: seq<bv8>)
    requires |b| == 8
    ensures |r| == 8
  {
    match arch
    case X86 => [0xCC, b[1], b[2], b[3], 0, 0, 0, 0]
    case Arm => [0x00, 0x00, 0x20, 0xd4, 0, 0, 0, 0]
  }

  lemma BreakBits(d: bv64)
    ensures var w := (d & 0xFFFFFF00) | 0xCC;
            w & 0xFF == 0xCC && (w >> 8) & 0xFF == (d >> 8) & 0xFF && (w >> 16) & 0xFF == (d >> 16) & 0xFF
            && (w >> 24) & 0xFF == (d >> 24) & 0xFF && w >> 32 == 0
  {
  }

  lemma BreakBytes(arch: Arch, b: seq<bv8>)
    requires |b| == 8
    ensures Bytes(BreakWord(arch, Word(b))) == BreakCode(arch, b)
  {
    var d := Word(b);
    BytesOfWord(b);
    if arch == X86 {
      BreakBits(d);
      assert Bytes(d)[1] == b[1] && Bytes(d)[2] == b[2] && Bytes(d)[3] == b[3];
    }
  }

  lemma NopBits(d: bv64)
    ensures var w := (d & 0xFFFFFFFFFFFFFF00) | 0x90; w & 0xFF == 0x90 && w >> 8 == d >> 8
    ensures var w := (d & 0xFFFFFFFF00000000) | 0xd503201f;
            w & 0xFF == 0x1f && (w >> 8) & 0xFF == 0x20 && (w >> 16) & 0xFF == 0x03 && (w >> 24) & 0xFF == 0xd5
                && w >> 32 == d >> 32
  {
  }

  lemma SameBytes(w: bv64, d: bv64, n: bv64)
    requires n == 8 || n == 32
    requires w >> n == d >> n
    ensures (w >> 32) & 0xFF == (d >> 32) & 0xFF && (w >> 40) & 0xFF == (d >> 40) & 0xFF
    ensures (w >> 48) & 0xFF == (d >> 48) & 0xFF && (w >> 56) & 0xFF == (d >> 56) & 0xFF
    ensures n == 8 ==>
              (w >> 8) & 0xFF == (d >> 8) & 0xFF && (w >> 16) & 0xFF == (d >> 16) & 0xFF
                  && (w >> 24) & 0xFF == (d >> 24) & 0xFF
  {
  }

  lemma HighBytes(w: bv64, d: bv64, n: bv64)
    requires n == 8 || n == 32
    requires w >> n == d >> n
    ensures forall k :: (if n == 8 then 1 else 4) <= k < 8 ==> Bytes(w)[k] == Bytes(d)[k]
  {
    SameBytes(w, d, n);
    var b, c := Bytes(w), Bytes(d);
    assert b[4] == c[4] && b[5] == c[5] && b[6] == c[6] && b[7] == c[7];
    assert n == 8 ==> b[1] == c[1] && b[2] == c[2] && b[3] == c[3];
  }

  lemma NopBytesX86(d: bv64, w: bv64)
    requires w == NopWord(X86, d)
    ensures Bytes(w)[0] == 0x90 && forall k :: 1 <= k < 8 ==> Bytes(w)[k] == Bytes(d)[k]
  {
    NopBits(d);
    HighBytes(w, d, 8);
  }

  lemma NopBytesArm(d: bv64, w: bv64)
    requires w == NopWord(Arm, d)
    ensures var r := Bytes(w); r[0] == 0x1f && r[1] == 0x20 && r[2] == 0x03 && r[3] == 0xd5
    ensures forall k :: 4 <= k < 8 ==> Bytes(w)[k] == Bytes(d)[k]
  {
    NopBits(d);
    HighBytes(w, d, 32);
  }

  /** The eight bytes b with a NOP in front. */
  lemma NopBytes(arch: Arch, b: seq<bv8>)
    requires |b| == 8
    ensures Bytes(NopWord(arch, Word(b))) == NopCode(arch) + b[|NopCode(arch)|..]
  {
    var d := Word(b);
    BytesOfWord(b);
    if arch == X86 { NopBytesX86(d, NopWord(X86, d)); } else { NopBytesArm(d, NopWord(Arm, d)); }
  }

  lemma SplicePatch(text: Text, a: nat, code: seq<bv8>)
    requires InText(text, a) && |code| <= 8
    ensures Splice(text, a, code + text[a..a + 8][|code|..]) == Patched(text, a, code)
  {
  }

  /** remove_trap changes the trap instruction to a NOP and no other byte. */
  lemma NopOnly(arch: Arch, text: Text, a: nat)
    requires InText(text, a)
    ensures Poke(text, a, NopWord(arch, Peek(text, a))) == Patched(text, a, NopCode(arch))
  {
    NopBytes(arch, text[a..a + 8]);
    SplicePatch(text, a, NopCode(arch));
  }

  /** While a breakpoint is in place it stands at its address, and nothing outside its word differs. */
  lemma BreakInPlace(arch: Arch, text: Text, a: nat)
    requires InText(text, a)
    ensures var r := Poke(text, a, BreakWord(arch, Peek(text, a)));
            r == Splice(text, a, BreakCode(arch, text[a..a + 8])) && CodeAt(r, a, TrapCode(arch))
    ensures var r := Poke(text, a, BreakWord(arch, Peek(text, a)));
            |r| == |text| && if arch == X86 then r[a] == 0xCC else r[a..a + 4] == [0x00, 0x00, 0x20, 0xd4]
  {
    BreakBytes(arch, text[a..a + 8]);
  }
}
