/** Virtual registers (vm/registers.js) and their physical names on each target. */
module VRegs {
  datatype Arch = Arm64 | X64 | Wasm32

  datatype Reg =
    | V0 | V1 | V2 | V3 | V4 | V5 | V6 | V7
    | S0 | S1 | S2 | S3 | S4 | S5
    | A0 | A1 | A2 | A3 | A4 | A5
    | RET | FP | SP | LR

  /** regMap / localMap of the three backends.  On x64, S5 is a frame cell of its own (number 100). */
  function Phys(arch: Arch, r: Reg): int {
    match arch
    case Arm64 => (
      match r
      case V0 => 8 case V1 => 9 case V2 => 10 case V3 => 11
      case V4 => 12 case V5 => 13 case V6 => 14 case V7 => 15
      case S0 => 19 case S1 => 20 case S2 => 21 case S3 => 22 case S4 => 23 case S5 => 24
      case A0 => 0 case A1 => 1 case A2 => 2 case A3 => 3 case A4 => 4 case A5 => 5
      case RET => 0 case FP => 29 case SP => 31 case LR => 30)
    case X64 => (
      match r
      case V0 => 0 case V1 => 1 case V2 => 2 case V3 => 8
      case V4 => 9 case V5 => 10 case V6 => 11 case V7 => 6
      case S0 => 3 case S1 => 12 case S2 => 13 case S3 => 14 case S4 => 15 case S5 => 100
      case A0 => 7 case A1 => 6 case A2 => 2 case A3 => 1 case A4 => 8 case A5 => 9
      case RET => 0 case FP => 5 case SP => 4 case LR => 0)
    case Wasm32 => (
      match r
      case V0 => 7 case V1 => 8 case V2 => 9 case V3 => 10
      case V4 => 11 case V5 => 12 case V6 => 13 case V7 => 14
      case S0 => 15 case S1 => 16 case S2 => 17 case S3 => 18 case S4 => 19 case S5 => 20
      case A0 => 1 case A1 => 2 case A2 => 3 case A3 => 4 case A4 => 5 case A5 => 6
      case RET => 1 case FP => 21 case SP => 22 case LR => 23)
  }

  predicate IsSaved(r: Reg) {
    r.S0? || r.S1? || r.S2? || r.S3? || r.S4? || r.S5?
  }

  /** The caller-saved registers the pair rewriting may borrow on arm64. */
  predicate IsBorrowed(r: Reg) {
    r.V5? || r.V6? || r.V7?
  }

  /** A register the allocator may hand out shares its physical register with no other name. */
  predicate Unaliased(arch: Arch, r: Reg) {
    IsSaved(r) || (arch == Arm64 && IsBorrowed(r))
  }

  lemma UnaliasedIsAlone(arch: Arch, r: Reg, q: Reg)
    requires Unaliased(arch, r) && Phys(arch, r) == Phys(arch, q)
    ensures r == q
  {
  }
}
