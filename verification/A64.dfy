/** The AArch64 instructions that relocation patches: how the patching loops of engine/compile.js build the words, and
    how a word reads at an address. */
module A64 {
  type Bits = x: int | 0 <= x < 0x1_0000_0000

  datatype Insn =
    | Bl(target: int)
    | B(target: int)
    | BCond(cond: int, target: int)
    | Cbz(nonzero: bool, rt: int, target: int)
    | LdrLit(rd: int, from: int)
    | Adrp(rd: int, page: int)
    | AddImm(rd: int, rn: int, imm: int)
    | Br(rn: int)
    | Nop
    | Other

  /** The low n bits of a two's complement number, for n of 19, 21 and 26. */
  const N19: int := 0x8_0000
  const N21: int := 0x20_0000
  const N26: int := 0x400_0000

  function Sext(x: int, n: int): int
    requires n > 0
  {
    if x < n / 2 then x else x - n
  }

  // ---------- words as they are written ----------

  function BlWord(off: int, t: int): Bits {
    0x9400_0000 + (t - off) / 4 % N26
  }

  function BWord(off: int, t: int): Bits {
    0x1400_0000 + (t - off) / 4 % N26
  }

  function BCondWord(off: int, t: int, cond: int): Bits {
    0x5400_0000 + (t - off) / 4 % N19 * 32 + cond % 16
  }

  function CbzWord(off: int, t: int, nonzero: bool, rt: int): Bits
    requires 0 <= rt < 32
  {
    (if nonzero then 0xb500_0000 else 0xb400_0000) + (t - off) / 4 % N19 * 32 + rt
  }

  function LdrWord(off: int, t: int, rd: int): Bits
    requires 0 <= rd < 32
  {
    0x5800_0000 + (t - off) / 4 % N19 * 32 + rd
  }

  function AdrpWord(off: int, t: int, rd: int): Bits
    requires 0 <= rd < 32
  {
    var delta := t / 4096 - off / 4096;
    0x9000_0000 + delta % 4 * 0x2000_0000 + delta / 4 % N19 * 32 + rd
  }

  function AddWord(t: int, rd: int): Bits
    requires 0 <= rd < 32
  {
    0x9100_0000 + t % 4096 * 1024 + rd * 32 + rd
  }

  const NOP_WORD: Bits := 0xd503_201f
  const LDR_X16: Bits := 0x5800_0050
  const BR_X16: Bits := 0xd61f_0200

  // ---------- words as they are read ----------

  function Decode(w: Bits, pc: int): Insn {
    if w == NOP_WORD then Nop
    else if w / N26 == 0x25 then Bl(pc + 4 * Sext(w % N26, N26))
    else if w / N26 == 0x05 then B(pc + 4 * Sext(w % N26, N26))
    else if w / 0x100_0000 == 0x54 && w / 16 % 2 == 0 then BCond(w % 16, pc + 4 * Sext(w / 32 % N19, N19))
    else if w / 0x100_0000 == 0xb4 then Cbz(false, w % 32, pc + 4 * Sext(w / 32 % N19, N19))
    else if w / 0x100_0000 == 0xb5 then Cbz(true, w % 32, pc + 4 * Sext(w / 32 % N19, N19))
    else if w / 0x100_0000 == 0x58 then LdrLit(w % 32, pc + 4 * Sext(w / 32 % N19, N19))
    else if w / 0x8000_0000 == 1 && w / 0x100_0000 % 32 == 0x10 then
      Adrp(w % 32, pc / 4096 * 4096 + 4096 * Sext(w / 32 % N19 * 4 + w / 0x2000_0000 % 4, N21))
    else if w / 0x40_0000 == 0x244 then AddImm(w % 32, w / 32 % 32, w / 1024 % 4096)
    else if w / 0x400 == 0x35_87c0 && w % 32 == 0 then Br(w / 32 % 32)
    else Other
  }

  // ---------- what is written reads back as meant, at every address ----------

  predicate Near(off: int, t: int) {
    off % 4 == 0 && t % 4 == 0 && 0 <= off <= 0x4_0000 && 0 <= t <= 0x4_0000
  }

  lemma BlReads(off: int, t: int, base: int)
    requires Near(off, t)
    ensures Decode(BlWord(off, t), base + off) == Bl(base + t)
  {
    var d := (t - off) / 4;
    assert 4 * d == t - off;
    assert Sext(d % N26, N26) == d;
  }

  lemma BReads(off: int, t: int, base: int)
    requires Near(off, t)
    ensures Decode(BWord(off, t), base + off) == B(base + t)
  {
    var d := (t - off) / 4;
    assert 4 * d == t - off;
    assert Sext(d % N26, N26) == d;
  }

  /** The 19-bit fields above a 5-bit one. */
  lemma Field19(high: int, d: int, low: int)
    requires 0 <= low < 32 && 0 <= high < 256
    ensures var w := high * 0x100_0000 + d % N19 * 32 + low;
      w / 0x100_0000 == high && w / 32 % N19 == d % N19 && w % 32 == low && w / 16 % 2 == low / 16
        && w % 16 == low % 16 && w / N26 == high / 4
  {
    var f := d % N19;
    var w := high * 0x100_0000 + f * 32 + low;
    assert w / 32 == high * N19 + f;
  }

  lemma Offset19(off: int, t: int)
    requires Near(off, t)
    ensures 4 * Sext((t - off) / 4 % N19, N19) == t - off
  {
    var d := (t - off) / 4;
    assert 4 * d == t - off;
    assert Sext(d % N19, N19) == d;
  }

  lemma BCondReads(off: int, t: int, cond: int, base: int)
    requires Near(off, t)
    ensures Decode(BCondWord(off, t, cond), base + off) == BCond(cond % 16, base + t)
  {
    Field19(0x54, (t - off) / 4, cond % 16);
    Offset19(off, t);
  }

  lemma CbzReads(off: int, t: int, nonzero: bool, rt: int, base: int)
    requires Near(off, t) && 0 <= rt < 32
    ensures Decode(CbzWord(off, t, nonzero, rt), base + off) == Cbz(nonzero, rt, base + t)
  {
    Field19(if nonzero then 0xb5 else 0xb4, (t - off) / 4, rt);
    Offset19(off, t);
  }

  lemma LdrReads(off: int, t: int, rd: int, base: int)
    requires Near(off, t) && 0 <= rd < 32
    ensures Decode(LdrWord(off, t, rd), base + off) == LdrLit(rd, base + t)
  {
    Field19(0x58, (t - off) / 4, rd);
    Offset19(off, t);
  }

  lemma AdrpFields(lo: int, hi: int, rd: int)
    requires 0 <= lo < 4 && 0 <= hi < N19 && 0 <= rd < 32
    ensures var w := 0x9000_0000 + lo * 0x2000_0000 + hi * 32 + rd;
      && w / 0x2000_0000 == 4 + lo && w / 32 % N19 == hi && w % 32 == rd && w / 0x100_0000 == 0x90 + lo * 32
      && w / N26 == 0x24 + lo * 8 && w / 0x8000_0000 == 1
  {
    var w := 0x9000_0000 + lo * 0x2000_0000 + hi * 32 + rd;
    assert w / 32 == 0x480_0000 + lo * 0x100_0000 + hi;
    assert w / 32 == (9 + 2 * lo) * 16 * N19 + hi;
  }

  lemma SplitDelta(delta: int)
    requires -64 <= delta <= 64
    ensures Sext(delta / 4 % N19 * 4 + delta % 4, N21) == delta
  {
  }

  lemma AdrpDecodes(w: Bits, pc: int, lo: int, hi: int, rd: int)
    requires 0 <= lo < 4 && w != NOP_WORD && w / 0x8000_0000 == 1 && w / 0x2000_0000 == 4 + lo
    requires w / 32 % N19 == hi && w % 32 == rd && w / 0x100_0000 == 0x90 + lo * 32 && w / N26 == 0x24 + lo * 8
    ensures Decode(w, pc) == Adrp(rd, pc / 4096 * 4096 + 4096 * Sext(hi * 4 + lo, N21))
  {
    assert w / 0x100_0000 % 32 == 0x10;
    assert w / 0x2000_0000 % 4 == lo;
  }

  lemma AdrpReads(off: int, t: int, rd: int, base: int)
    requires 0 <= off <= 0x4_0000 && 0 <= t <= 0x4_0000 && 0 <= rd < 32 && base % 4096 == 0
    ensures Decode(AdrpWord(off, t, rd), base + off) == Adrp(rd, base + t / 4096 * 4096)
  {
    hide Decode, Sext;
    var delta := t / 4096 - off / 4096;
    AdrpFields(delta % 4, delta / 4 % N19, rd);
    SplitDelta(delta);
    AdrpDecodes(AdrpWord(off, t, rd), base + off, delta % 4, delta / 4 % N19, rd);
    assert (base + off) / 4096 == base / 4096 + off / 4096;
  }

  lemma AddReads(t: int, rd: int, pc: int)
    requires 0 <= rd < 32
    ensures Decode(AddWord(t, rd), pc) == AddImm(rd, rd, t % 4096)
  {
    var imm := t % 4096;
    var a := 0x9100_0000 + imm * 1024 + rd * 32 + rd;
    assert a / 1024 == 0x24_4000 + imm;
    assert a / 32 == 0x488_0000 + imm * 32 + rd;
    assert a / 0x100_0000 == 0x91 && a / N26 == 0x24 && a / 0x40_0000 == 0x244;
  }

  /** adrp and add together give the target's address wherever the buffer's first page is put. */
  lemma PageReads(off: int, t: int, rd: int, base: int)
    requires 0 <= off <= 0x4_0000 && 0 <= t <= 0x4_0000 && 0 <= rd < 32 && base % 4096 == 0
    ensures Decode(AdrpWord(off, t, rd), base + off) == Adrp(rd, base + t / 4096 * 4096)
    ensures Decode(AddWord(t, rd), base + off + 4) == AddImm(rd, rd, t % 4096)
    ensures base + t / 4096 * 4096 + t % 4096 == base + t
  {
    hide Decode, AdrpWord, AddWord;
    AdrpReads(off, t, rd, base);
    AddReads(t, rd, base + off + 4);
  }

  lemma NopReads(pc: int)
    ensures Decode(NOP_WORD, pc) == Nop
  {
  }

  lemma TrampReads(pc: int)
    ensures Decode(LDR_X16, pc) == LdrLit(16, pc + 8) && Decode(BR_X16, pc + 4) == Br(16)
  {
  }
}
