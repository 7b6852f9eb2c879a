/** The x64 instructions that relocation is about, as the processor reads them (Intel 64 manual, volume 2, sections 2.1
    and 2.2.1): loads and address computations relative to RIP, and jumps through a register. */
module X64Code {
  import opened Basics

  datatype Insn = Load(rd: int, from: int) | Lea(rd: int, address: int) | Jump(rn: int) | Other

  /** An instruction and where the next one starts. */
  datatype Read = Read(insn: Insn, next: nat)

  function Signed32(w: int): int {
    if w < 0x8000_0000 then w else w - TWO32
  }

  /** ModRM with mod 00 and r/m 101: a displacement from the next instruction. */
  predicate IsRip(modrm: int) {
    modrm / 64 == 0 && modrm % 8 == 5
  }

  /** The reg field, with REX.R in front. */
  function RegField(rex: int, modrm: int): int {
    modrm / 8 % 8 + if rex / 4 % 2 == 1 then 8 else 0
  }

  /** The instruction at `at` of an image that starts at `base`. */
  function Decode(image: seq<Byte>, at: nat, base: int): Read {
    if at + 7 <= |image| && image[at] / 8 == 9 && IsRip(image[at + 2]) && image[at + 1] in {0x8b, 0x8d} then
      var rd, place := RegField(image[at], image[at + 2]), base + at + 7 + Signed32(WordOf(image, at + 3));
      Read(if image[at + 1] == 0x8b then Load(rd, place) else Lea(rd, place), at + 7)
    else if at + 2 <= |image| && image[at] == 0xff && image[at + 1] / 64 == 3 && image[at + 1] / 8 % 8 == 4 then
      Read(Jump(image[at + 1] % 8), at + 2)
    else Read(Other, at)
  }

  /** Bytes in front of a displacement that make it that of `lea rd, [rip + disp32]`. */
  predicate IsLea(code: seq<Byte>, off: nat) {
    3 <= off <= |code| && code[off - 3] / 8 == 9 && code[off - 2] == 0x8d && IsRip(code[off - 1])
  }

  /** The register such an instruction names. */
  function LeaReg(code: seq<Byte>, off: nat): int
    requires IsLea(code, off)
  {
    RegField(code[off - 3], code[off - 1])
  }

  /** With the displacement filled in it is that instruction; with 8b for its opcode, a load of the same register. */
  lemma SiteDecodes(image: seq<Byte>, off: nat, base: int, code: seq<Byte>)
    requires IsLea(code, off) && off + 4 <= |image|
    requires image[off - 3] == code[off - 3] && image[off - 1] == code[off - 1]
    ensures var place := base + off + 4 + Signed32(WordOf(image, off));
      && (image[off - 2] == 0x8b ==> Decode(image, off - 3, base) == Read(Load(LeaReg(code, off), place), off + 4))
      && (image[off - 2] == 0x8d ==> Decode(image, off - 3, base) == Read(Lea(LeaReg(code, off), place), off + 4))
  {
  }
}
