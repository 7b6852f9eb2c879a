/** x64 lowering of division, remainder and variable shifts (backend/x64.js): three-address operations with any overlap
    of operands onto instructions with fixed registers. */
module X64Lowering {
  import opened Basics
  import opened VRegs

  const RAX: nat := 0
  const RCX: nat := 1
  const RDX: nat := 2
  const R10: nat := 10
  const R11: nat := 11

  datatype Kind = Shl | Shr | Sar

  datatype Instr =
    | MovReg(d: nat, s: nat)
    | Push(r: nat) | Pop(r: nat)
    | Cqo
    | IdivReg(r: nat)
    | IdivTop                    // idiv [rsp]
    | DropTop                    // add rsp, 8
    | LoadTop(d: nat, k: nat)    // mov d, [rsp + 8k]
    | LoadSlot(d: nat) | StoreSlot(s: nat)   // S5's cell of the frame
    | ShiftCl(kind: Kind, r: nat)
    | ShiftTop(kind: Kind)       // shift [rsp], cl
    | ShiftImm(kind: Kind, r: nat, n: nat)

  // ---------- arithmetic on 64-bit words, kept as signed integers ----------

  predicate Word(w: int) { -TWO63 <= w < TWO63 }

  function Wrap(n: int): (w: int)
    ensures Word(w) && (Word(n) ==> w == n)
  {
    (n + TWO63) % TWO64 - TWO63
  }

  function Unsigned(w: int): nat
    requires Word(w)
  {
    if w < 0 then w + TWO64 else w
  }

  function Abs(n: int): nat { if n < 0 then -n else n }

  /** Division truncates toward zero and the remainder has the dividend's sign. */
  function Quot(a: int, b: int): int
    requires b != 0
  {
    if (a < 0) == (b < 0) then Abs(a) / Abs(b) else -(Abs(a) / Abs(b))
  }

  function Rem(a: int, b: int): int
    requires b != 0
  {
    a - Times(Quot(a, b), b)
  }

  function Times(a: int, b: int): int { a * b }

  predicate DivTraps(a: int, b: int) {
    b == 0 || (a == -TWO63 && b == -1)
  }

  /** Only the low six bits of the count matter. */
  function ShiftOf(kind: Kind, v: int, c: int): (w: int)
    requires Word(v)
    ensures Word(w)
  {
    var n := c % 64;
    match kind
    case Shl => Wrap(v * Pow2(n))
    case Shr => Wrap(Over(Unsigned(v), Pow2(n)))
    case Sar => Wrap(Over(v, Pow2(n)))
  }

  function Over(v: int, p: nat): int {
    if p == 0 then v else v / p
  }

  // ---------- the machine ----------

  /** `words` are the quadwords at and above RSP, the top one last; `slot` is the frame cell that holds S5. */
  datatype St = St(regs: seq<int>, slot: int, words: seq<int>, trapped: bool)

  predicate Sane(s: St) {
    && |s.regs| == 16 && (forall i :: 0 <= i < 16 ==> Word(s.regs[i])) && Word(s.slot)
    && (forall i :: 0 <= i < |s.words| ==> Word(s.words[i]))
  }

  predicate Fits(i: Instr) {
    match i
    case MovReg(d, s) => d < 16 && s < 16
    case Push(r) => r < 16
    case Pop(r) => r < 16
    case IdivReg(r) => r < 16
    case LoadTop(d, _) => d < 16
    case LoadSlot(d) => d < 16
    case StoreSlot(s) => s < 16
    case ShiftCl(_, r) => r < 16
    case ShiftImm(_, r, _) => r < 16
    case _ => true
  }

  /** RDX:RAX divided by a word; traps on zero and when the quotient is no word. */
  function Idiv(s: St, b: int): St
    requires |s.regs| == 16
  {
    var a := s.regs[RDX] * TWO64 + s.regs[RAX] % TWO64;
    if b == 0 || !Word(Quot(a, b)) then s.(trapped := true)
    else s.(regs := s.regs[RAX := Quot(a, b)][RDX := Wrap(Rem(a, b))])
  }

  function Step(i: Instr, s: St): St
    requires Sane(s) && Fits(i)
  {
    var n := |s.words|;
    match i
    case MovReg(d, r) => s.(regs := s.regs[d := s.regs[r]])
    case Push(r) => s.(words := s.words + [s.regs[r]])
    case Pop(r) => if n == 0 then s.(trapped := true)
      else s.(regs := s.regs[r := s.words[n - 1]], words := s.words[..n - 1])
    case Cqo => s.(regs := s.regs[RDX := if s.regs[RAX] < 0 then -1 else 0])
    case IdivReg(r) => Idiv(s, s.regs[r])
    case IdivTop => if n == 0 then s.(trapped := true) else Idiv(s, s.words[n - 1])
    case DropTop => if n == 0 then s.(trapped := true) else s.(words := s.words[..n - 1])
    case LoadTop(d, k) => if k >= n then s.(trapped := true) else s.(regs := s.regs[d := s.words[n - 1 - k]])
    case LoadSlot(d) => s.(regs := s.regs[d := s.slot])
    case StoreSlot(r) => s.(slot := s.regs[r])
    case ShiftCl(kind, r) => s.(regs := s.regs[r := ShiftOf(kind, s.regs[r], s.regs[RCX])])
    case ShiftTop(kind) =>
      if n == 0 then s.(trapped := true) else s.(words := s.words[n - 1 := ShiftOf(kind, s.words[n - 1], s.regs[RCX])])
    case ShiftImm(kind, r, c) => s.(regs := s.regs[r := ShiftOf(kind, s.regs[r], c)])
  }

  predicate AllFit(code: seq<Instr>) {
    forall k :: 0 <= k < |code| ==> Fits(code[k])
  }

  lemma StepSane(i: Instr, s: St)
    requires Sane(s) && Fits(i)
    ensures Sane(Step(i, s))
  {
  }

  function Run(code: seq<Instr>, s: St): (r: St)
    requires Sane(s) && AllFit(code)
    ensures Sane(r)
    decreases |code|
  {
    if code == [] || s.trapped then s
    else
      StepSane(code[0], s);
      Run(code[1..], Step(code[0], s))
  }

  // ---------- registers ----------

  predicate IsS5(r: Reg) { r.S5? }

  function PhysOf(r: Reg): (p: nat)
    requires !IsS5(r)
    ensures p < 16
  {
    Phys(X64, r)
  }

  /** What a virtual register holds. */
  function Value(s: St, r: Reg): int
    requires |s.regs| == 16
  {
    if IsS5(r) then s.slot else s.regs[PhysOf(r)]
  }

  /** The register an operand is read from; S5 goes through a temporary. */
  function RegOf(r: Reg, temp: nat): (p: nat)
    requires temp < 16
    ensures p < 16
  {
    if IsS5(r) then temp else PhysOf(r)
  }

  function Opt(b: bool, i: Instr): (code: seq<Instr>)
    ensures Fits(i) ==> AllFit(code)
  {
    if b then [i] else []
  }

  /** Operands S5 are fetched into R10 and R11 before anything else. */
  function Fetch(r: Reg, temp: nat): seq<Instr> {
    Opt(IsS5(r), LoadSlot(temp))
  }

  predicate Lands(dest: Reg, phys: nat) {
    !IsS5(dest) && PhysOf(dest) == phys
  }

  predicate Fixed(r: nat) { r == RAX || r == RDX }

  // ---------- division ----------

  function DivSaves(dest: Reg): seq<Instr> {
    Opt(!Lands(dest, RAX), Push(RAX)) + Opt(!Lands(dest, RDX), Push(RDX))
  }

  function DivCore(ra: nat, b: Reg): seq<Instr> {
    var rb := RegOf(b, R11);
    SetUp(ra, rb) + [Cqo] + (if Fixed(rb) then [IdivTop, DropTop] else Fetch(b, R11) + [IdivReg(rb)])
  }

  function DivEnds(dest: Reg, result: nat): seq<Instr> {
    PlaceCode(dest, result) + (Opt(!Lands(dest, RDX), Pop(RDX)) + Opt(!Lands(dest, RAX), Pop(RAX)))
  }

  /** `div` leaves RAX's result and `mod` RDX's. */
  function DivCode(dest: Reg, a: Reg, b: Reg, result: nat): seq<Instr> {
    DivStart(dest, a, b) + DivEnds(dest, result)
  }

  function DivStart(dest: Reg, a: Reg, b: Reg): seq<Instr> {
    (Fetch(a, R10) + Fetch(b, R11)) + (DivSaves(dest) + DivCore(RegOf(a, R10), b))
  }

  lemma {:induction false} RunCat(a: seq<Instr>, b: seq<Instr>, s: St)
    requires Sane(s) && AllFit(a) && AllFit(b)
    ensures AllFit(a + b) && Run(a + b, s) == Run(b, Run(a, s))
    decreases |a|
  {
    hide Step;
    if a == [] {
      assert a + b == b;
    } else if !s.trapped {
      StepSane(a[0], s);
      RunCat(a[1..], b, Step(a[0], s));
      assert (a + b)[1..] == a[1..] + b;
    }
  }

  lemma RunOpt(c: bool, i: Instr, s: St)
    requires Sane(s) && Fits(i) && !s.trapped
    ensures Run(Opt(c, i), s) == if c then Step(i, s) else s
  {
    StepSane(i, s);
    if c { assert [i][1..] == []; }
  }

  /** The temporaries after the operands have been fetched. */
  function Fetched(s: St, a: Reg, b: Reg): St
    requires |s.regs| == 16
  {
    var r := if IsS5(a) then s.regs[R10 := s.slot] else s.regs;
    s.(regs := if IsS5(b) then r[R11 := s.slot] else r)
  }

  lemma FetchRuns(s: St, a: Reg, b: Reg)
    requires Sane(s) && !s.trapped
    ensures AllFit(Fetch(a, R10) + Fetch(b, R11)) && Run(Fetch(a, R10) + Fetch(b, R11), s) == Fetched(s, a, b)
    ensures Sane(Fetched(s, a, b))
  {
    RunCat(Fetch(a, R10), Fetch(b, R11), s);
    RunOpt(IsS5(a), LoadSlot(R10), s);
    var s1 := Run(Fetch(a, R10), s);
    RunOpt(IsS5(b), LoadSlot(R11), s1);
  }

  function If<T>(c: bool, x: T): seq<T> { if c then [x] else [] }

  /** f with the registers saved that the division would spoil. */
  function Saved(f: St, dest: Reg): St
    requires |f.regs| == 16
  {
    f.(words := f.words + If(!Lands(dest, RAX), f.regs[RAX]) + If(!Lands(dest, RDX), f.regs[RDX]))
  }

  lemma SavesRun(s: St, dest: Reg)
    requires Sane(s) && !s.trapped
    ensures AllFit(DivSaves(dest))
    ensures var t := Run(DivSaves(dest), s);
      Sane(t) && t == Saved(s, dest) && t.regs == s.regs && t.slot == s.slot && !t.trapped
  {
    var p, q := Opt(!Lands(dest, RAX), Push(RAX)), Opt(!Lands(dest, RDX), Push(RDX));
    RunCat(p, q, s);
    RunOpt(!Lands(dest, RAX), Push(RAX), s);
    RunOpt(!Lands(dest, RDX), Push(RDX), Run(p, s));
  }

  /** cqo and idiv on the 64-bit dividend in RAX. */
  lemma DividesSigned(s: St, b: int)
    requires Sane(s) && Word(b)
    ensures var a, t := s.regs[RAX], Idiv(Step(Cqo, s), b);
      if DivTraps(a, b) then t == Step(Cqo, s).(trapped := true)
      else t == s.(regs := s.regs[RAX := Quot(a, b)][RDX := Rem(a, b)]) && Sane(t)
  {
    var a := s.regs[RAX];
    var c := Step(Cqo, s);
    assert c.regs[RDX] * TWO64 + c.regs[RAX] % TWO64 == a;
    if b != 0 {
      QuotBounds(a, b);
      assert c.regs[RAX := Quot(a, b)][RDX := Rem(a, b)] == s.regs[RAX := Quot(a, b)][RDX := Rem(a, b)];
    }
  }

  lemma QuotRem(n: int, d: int)
    requires n >= 0 && d > 0
    ensures n == Times(n / d, d) + n % d && 0 <= n % d < d && n / d >= 0
  {
  }

  lemma TimesGrows(q: int, d: int)
    requires q >= 0 && d > 0
    ensures Times(q, d) >= q && (d >= 2 ==> Times(q, d) >= 2 * q) && (d == 1 ==> Times(q, d) == q)
  {
    assert q * (d - 1) >= 0;
    if d >= 2 { assert q * (d - 2) >= 0; }
  }

  lemma NatQuot(n: int, d: int, q: int)
    requires n >= 0 && d > 0 && q == n / d
    ensures 0 <= n - Times(q, d) < d
    ensures 0 <= q <= n && (d >= 2 ==> 2 * q <= n) && (d == 1 ==> q == n)
  {
    QuotRem(n, d);
    TimesGrows(q, d);
    hide Times;
    Ranges(n, d, q, Times(q, d), n % d);
  }

  lemma Ranges(n: int, d: int, q: int, t: int, r: int)
    requires d > 0 && n == t + r && 0 <= r < d && q >= 0 && t >= q
    requires (d >= 2 ==> t >= 2 * q) && (d == 1 ==> t == q)
    ensures 0 <= n - t < d && 0 <= q <= n && (d >= 2 ==> 2 * q <= n) && (d == 1 ==> q == n)
  {
  }

  lemma SignedProduct(quot: int, b: int, q: int, d: int)
    requires (quot == q || quot == -q) && (b == d || b == -d)
    ensures Times(quot, b) == if (quot == q) == (b == d) then Times(q, d) else -Times(q, d)
  {
    assert q * -d == -(q * d) && -q * d == -(q * d) && -q * -d == q * d;
  }

  lemma QuotRange(a: int, b: int, quot: int, n: int, d: int, q: int)
    requires Word(a) && Word(b) && b != 0 && (if a < 0 then a == -n else a == n) && (if b < 0 then b == -d else b == d)
    requires 0 <= q <= n && (d >= 2 ==> 2 * q <= n) && (d == 1 ==> q == n)
    requires if (a < 0) == (b < 0) then quot == q else quot == -q
    ensures Word(quot) <==> !(a == -TWO63 && b == -1)
  {
  }

  lemma QuotBounds(a: int, b: int)
    requires Word(a) && Word(b) && b != 0
    ensures Word(Quot(a, b)) <==> !(a == -TWO63 && b == -1)
    ensures Abs(Rem(a, b)) < Abs(b) && Word(Rem(a, b))
  {
    var n: int, d: int := Abs(a), Abs(b);
    var q: int := n / d;
    var quot: int := Quot(a, b);
    assert quot == if (a < 0) == (b < 0) then q else -q;
    NatQuot(n, d, q);
    hide Quot, Times;
    SignedProduct(quot, b, q, d);
    QuotRange(a, b, quot, n, d, q);
  }

  /** What the divisions leave: the trap, or quotient and remainder in RAX and RDX. */
  predicate Divided(t: St, a: int, b: int, u: St)
    requires Sane(t)
  {
    if DivTraps(a, b) then u.trapped else u == t.(regs := t.regs[RAX := Quot(a, b)][RDX := Rem(a, b)])
  }

  /** RDX:RAX is set up with the dividend; the divisor is still where it was, or else on the stack. */
  function SetUp(ra: nat, rb: nat): seq<Instr> {
    Opt(Fixed(rb), Push(rb)) + Opt(ra != RAX, MovReg(RAX, ra))
  }

  lemma SetUpRuns(t: St, ra: nat, rb: nat)
    requires Sane(t) && !t.trapped && ra < 16 && rb < 16
    ensures AllFit(SetUp(ra, rb))
    ensures Run(SetUp(ra, rb), t) == t.(regs := t.regs[RAX := t.regs[ra]], words := t.words + If(Fixed(rb), t.regs[rb]))
  {
    var p1, p2 := Opt(Fixed(rb), Push(rb)), Opt(ra != RAX, MovReg(RAX, ra));
    RunOpt(Fixed(rb), Push(rb), t);
    var t1 := Run(p1, t);
    RunOpt(ra != RAX, MovReg(RAX, ra), t1);
    RunCat(p1, p2, t);
    assert t.regs[RAX := t.regs[RAX]] == t.regs;
  }

  /** The divisor survives the setting up of RDX:RAX, also where it was in one of them. */
  lemma CoreRuns(t: St, ra: nat, b: Reg)
    requires Sane(t) && !t.trapped && ra < 16 && (IsS5(b) ==> t.regs[R11] == t.slot)
    ensures AllFit(DivCore(ra, b))
    ensures Divided(t, t.regs[ra], t.regs[RegOf(b, R11)], Run(DivCore(ra, b), t))
  {
    var rb := RegOf(b, R11);
    SetUpRuns(t, ra, rb);
    var t2 := Run(SetUp(ra, rb), t);
    DividesSigned(t2, t.regs[rb]);
    RunOpt(true, Cqo, t2);
    var t3 := Step(Cqo, t2);
    RunCat(SetUp(ra, rb), [Cqo], t);
    var last := if Fixed(rb) then [IdivTop, DropTop] else Fetch(b, R11) + [IdivReg(rb)];
    if Fixed(rb) {
      DividesOnStack(t, t3, t.regs[ra], t.regs[rb]);
    } else {
      DividesInRegister(t, t3, t.regs[ra], b);
    }
    RunCat(SetUp(ra, rb) + [Cqo], last, t);
  }

  /** cqo has been run on a. */
  predicate Extended(t: St, t3: St, a: int, words: seq<int>) {
    Sane(t) && Sane(t3) && !t3.trapped && Word(a)
      && t3 == t.(regs := t.regs[RAX := a][RDX := if a < 0 then -1 else 0], words := words)
  }

  lemma IdivDivides(t: St, t3: St, a: int, b: int, words: seq<int>)
    requires Extended(t, t3, a, words) && Word(b)
    ensures var u := Idiv(t3, b);
      if DivTraps(a, b) then u.trapped
      else u == t.(regs := t.regs[RAX := Quot(a, b)][RDX := Rem(a, b)], words := words) && Sane(u) && !u.trapped
  {
    var t2 := t3.(regs := t.regs[RAX := a]);
    DividesSigned(t2, b);
    assert Step(Cqo, t2) == t3;
    hide Quot, Rem, Idiv;
    assert t3.regs[RAX := Quot2(a, b)][RDX := Rem2(a, b)] == t.regs[RAX := Quot2(a, b)][RDX := Rem2(a, b)];
    assert t2.regs[RAX := Quot2(a, b)][RDX := Rem2(a, b)] == t.regs[RAX := Quot2(a, b)][RDX := Rem2(a, b)];
  }

  lemma DividesOnStack(t: St, t3: St, a: int, b: int)
    requires Extended(t, t3, a, t.words + [b]) && Word(b)
    ensures AllFit([IdivTop, DropTop]) && Divided(t, a, b, Run([IdivTop, DropTop], t3))
  {
    IdivDivides(t, t3, a, b, t.words + [b]);
    hide Quot, Rem, Idiv;
    assert (t.words + [b])[..|t.words|] == t.words;
    RunTwo(IdivTop, DropTop, t3);
  }

  lemma DividesInRegister(t: St, t3: St, a: int, b: Reg)
    requires Extended(t, t3, a, t.words) && (IsS5(b) ==> t.regs[R11] == t.slot) && !Fixed(RegOf(b, R11))
    ensures var rb := RegOf(b, R11);
      var last := Fetch(b, R11) + [IdivReg(rb)];
      AllFit(last) && Divided(t, a, t.regs[rb], Run(last, t3))
  {
    var rb := RegOf(b, R11);
    IdivDivides(t, t3, a, t.regs[rb], t.words);
    hide Quot, Rem, Idiv, Phys;
    RunOpt(IsS5(b), LoadSlot(R11), t3);
    assert t3.regs[R11 := t.slot] == t3.regs || !IsS5(b);
    RunOpt(true, IdivReg(rb), t3);
    RunCat(Fetch(b, R11), [IdivReg(rb)], t3);
  }

  function Rem2(a: int, b: int): int { if b == 0 then 0 else Rem(a, b) }

  function Quot2(a: int, b: int): int { if b == 0 then 0 else Quot(a, b) }

  lemma RunTwo(i: Instr, j: Instr, s: St)
    requires Sane(s) && Fits(i) && Fits(j) && !s.trapped
    ensures AllFit([i, j]) && Sane(Step(i, s))
    ensures Run([i, j], s) == if Step(i, s).trapped then Step(i, s) else Step(j, Step(i, s))
  {
    StepSane(i, s);
    RunOpt(true, i, s);
    var s1 := Step(i, s);
    RunCat([i], [j], s);
    assert [i] + [j] == [i, j];
    if !s1.trapped { RunOpt(true, j, s1); }
  }

  /** The result moves to its register and the saved ones come back. */
  lemma EndsRun(u: St, dest: Reg, result: nat, w: seq<int>, x: int, y: int)
    requires Sane(u) && !u.trapped && Fixed(result) && Word(x) && Word(y)
    requires u.words == w + If(!Lands(dest, RAX), x) + If(!Lands(dest, RDX), y)
    ensures AllFit(DivEnds(dest, result))
    ensures Run(DivEnds(dest, result), u) == Restored(Placed(u, dest, u.regs[result]), dest, w, x, y)
  {
    PlaceRuns(u, dest, result);
    var p, q := Opt(!Lands(dest, RDX), Pop(RDX)), Opt(!Lands(dest, RAX), Pop(RAX));
    var u1 := Placed(u, dest, u.regs[result]);
    hide Placed, Sane;
    RunOpt(!Lands(dest, RDX), Pop(RDX), u1);
    var u2 := Run(p, u1);
    assert u2.words == w + If(!Lands(dest, RAX), x);
    RunOpt(!Lands(dest, RAX), Pop(RAX), u2);
    RunCat(p, q, u1);
    RunCat(PlaceCode(dest, result), p + q, u);
  }

  function PlaceCode(dest: Reg, result: nat): seq<Instr> {
    if IsS5(dest) then [StoreSlot(result)] else Opt(PhysOf(dest) != result, MovReg(PhysOf(dest), result))
  }

  function Placed(u: St, dest: Reg, r: int): St
    requires |u.regs| == 16
  {
    if IsS5(dest) then u.(slot := r) else u.(regs := u.regs[PhysOf(dest) := r])
  }

  function Restored(u: St, dest: Reg, w: seq<int>, x: int, y: int): St
    requires |u.regs| == 16
  {
    var r := if Lands(dest, RDX) then u.regs else u.regs[RDX := y];
    u.(regs := if Lands(dest, RAX) then r else r[RAX := x], words := w)
  }

  lemma PlaceRuns(u: St, dest: Reg, result: nat)
    requires Sane(u) && !u.trapped && result < 16
    ensures AllFit(PlaceCode(dest, result)) && Sane(Placed(u, dest, u.regs[result]))
    ensures Run(PlaceCode(dest, result), u) == Placed(u, dest, u.regs[result])
  {
    if IsS5(dest) {
      RunOpt(true, StoreSlot(result), u);
    } else {
      RunOpt(PhysOf(dest) != result, MovReg(PhysOf(dest), result), u);
      assert PhysOf(dest) == result ==> u.regs[PhysOf(dest) := u.regs[result]] == u.regs;
    }
  }

  // ---------- what the lowering means ----------

  /** The operands that S5's temporaries spoil: S5 with the register the other operand lives in. */
  predicate Clash(a: Reg, b: Reg) {
    (IsS5(a) && !IsS5(b) && PhysOf(b) == R10) || (IsS5(b) && !IsS5(a) && PhysOf(a) == R11)
  }

  /** Only dest may change, and a temporary if an operand or the destination is S5. */
  predicate OnlyDest(s: St, t: St, dest: Reg, a: Reg, b: Reg)
    requires |s.regs| == 16 && |t.regs| == 16
  {
    && t.words == s.words && (!IsS5(dest) ==> t.slot == s.slot)
    && forall r :: 0 <= r < 16 && !MayChange(r, dest, a, b) ==> t.regs[r] == s.regs[r]
  }

  predicate MayChange(r: nat, dest: Reg, a: Reg, b: Reg) {
    || (!IsS5(dest) && r == PhysOf(dest))
    || (r == R10 && (IsS5(a) || IsS5(dest)))
    || (r == R11 && IsS5(b))
  }

  /** What `div` and `mod` compute from their operands as the lowered code sees them. */
  function DivResult(a: int, b: int, result: nat): int
    requires b != 0
  {
    if result == RAX then Quot(a, b) else Rem(a, b)
  }

  /** An operand as read after the fetches. */
  function Seen(s: St, r: Reg, temp: nat, a: Reg, b: Reg): int
    requires Sane(s) && temp < 16
  {
    Fetched(s, a, b).regs[RegOf(r, temp)]
  }

  /** Both results are in place, the wanted one goes to dest, what was saved comes back. */
  function Final(s: St, f: St, dest: Reg, a: int, b: int, result: nat): St
    requires |s.regs| == |f.regs| == 16 && b != 0
  {
    var regs := f.regs[RAX := Quot(a, b)][RDX := Rem(a, b)];
    Restored(Placed(f.(regs := regs), dest, DivResult(a, b, result)), dest, s.words, s.regs[RAX], s.regs[RDX])
  }

  lemma WordsDoNotMatter(u: St, words: seq<int>, dest: Reg, r: int, w: seq<int>, x: int, y: int)
    requires |u.regs| == 16
    ensures Restored(Placed(u.(words := words), dest, r), dest, w, x, y) == Restored(Placed(u, dest, r), dest, w, x, y)
  {
  }

  /** The operands as they are after fetching. */
  lemma OperandsFetched(s: St, a: Reg, b: Reg)
    requires Sane(s)
    ensures var f := Fetched(s, a, b);
      && RegOf(a, R10) < 16 && RegOf(b, R11) < 16 && |s.regs| == 16 == |f.regs| && f.trapped == s.trapped
      && f.regs[RegOf(a, R10)] == Seen(s, a, R10, a, b) && f.regs[RegOf(b, R11)] == Seen(s, b, R11, a, b)
      && (IsS5(b) ==> f.regs[R11] == f.slot)
  {
    SizeOf(s);
    hide Sane;
  }

  lemma SizeOf(s: St)
    requires Sane(s)
    ensures |s.regs| == 16
  {
  }

  lemma SaveAndDivide(f: St, dest: Reg, ra: nat, b: Reg)
    requires Sane(f) && !f.trapped && ra < 16 && (IsS5(b) ==> f.regs[R11] == f.slot)
    ensures AllFit(DivSaves(dest) + DivCore(ra, b)) && Sane(Saved(f, dest))
    ensures Divided(Saved(f, dest), f.regs[ra], f.regs[RegOf(b, R11)], Run(DivSaves(dest) + DivCore(ra, b), f))
  {
    hide Run, AllFit, DivCore, DivSaves, Step, Divided, Saved, Phys;
    SavesRun(f, dest);
    CoreRuns(Run(DivSaves(dest), f), ra, b);
    RunCat(DivSaves(dest), DivCore(ra, b), f);
  }

  /** Up to the division. */
  lemma DivStarts(s: St, dest: Reg, a: Reg, b: Reg) returns (u: St)
    requires Sane(s) && !s.trapped
    ensures AllFit(DivStart(dest, a, b)) && u == Run(DivStart(dest, a, b), s)
    ensures var f, av, bv := Fetched(s, a, b), Seen(s, a, R10, a, b), Seen(s, b, R11, a, b);
      Sane(Saved(f, dest)) && Divided(Saved(f, dest), av, bv, u)
  {
    hide Run, AllFit, DivCore, DivSaves, Step, Divided, Saved, Fetch, Phys, Sane, Fetched, Seen, RegOf;
    FetchRuns(s, a, b);
    OperandsFetched(s, a, b);
    SaveAndDivide(Fetched(s, a, b), dest, RegOf(a, R10), b);
    RunCat(Fetch(a, R10) + Fetch(b, R11), DivSaves(dest) + DivCore(RegOf(a, R10), b), s);
    u := Run(DivStart(dest, a, b), s);
  }

  lemma EndsFinal(s: St, f: St, u: St, dest: Reg, a: int, b: int, result: nat)
    requires Sane(s) && !s.trapped && Fixed(result) && b != 0 && Sane(u)
    requires |f.regs| == 16 && f.regs[RAX] == s.regs[RAX] && f.regs[RDX] == s.regs[RDX] && f.words == s.words
    requires !f.trapped
    requires u == Saved(f, dest).(regs := f.regs[RAX := Quot(a, b)][RDX := Rem(a, b)])
    ensures AllFit(DivEnds(dest, result)) && Run(DivEnds(dest, result), u) == Final(s, f, dest, a, b, result)
  {
    hide Run, Placed, Restored, Step, Quot, Rem, Phys, DivEnds, AllFit;
    EndsRun(u, dest, result, s.words, s.regs[RAX], s.regs[RDX]);
    WordsDoNotMatter(u, f.words, dest, u.regs[result], s.words, s.regs[RAX], s.regs[RDX]);
  }

  lemma DivTrapped(s: St, dest: Reg, a: Reg, b: Reg, result: nat, u: St)
    requires Sane(s) && Fixed(result) && AllFit(DivStart(dest, a, b)) && AllFit(DivEnds(dest, result))
    requires u == Run(DivStart(dest, a, b), s) && u.trapped
    ensures AllFit(DivCode(dest, a, b, result)) && Run(DivCode(dest, a, b, result), s).trapped
  {
    hide DivStart, DivEnds;
    RunCat(DivStart(dest, a, b), DivEnds(dest, result), s);
    StaysTrapped(DivEnds(dest, result), u);
  }

  lemma DivReturns(s: St, dest: Reg, a: Reg, b: Reg, result: nat, u: St, f: St, av: int, bv: int)
    requires Sane(s) && !s.trapped && Fixed(result) && AllFit(DivStart(dest, a, b)) && f == Fetched(s, a, b) && bv != 0
    requires u == Run(DivStart(dest, a, b), s)
    requires u == Saved(f, dest).(regs := f.regs[RAX := Quot(av, bv)][RDX := Rem(av, bv)])
    ensures AllFit(DivCode(dest, a, b, result))
    ensures Run(DivCode(dest, a, b, result), s) == Final(s, f, dest, av, bv, result)
  {
    hide Phys, AllFit, DivEnds, DivStart;
    FetchedIs(s, a, b);
    hide Quot, Rem, Final, Saved, Fetched, Run;
    EndsFinal(s, f, u, dest, av, bv, result);
    RunCat(DivStart(dest, a, b), DivEnds(dest, result), s);
  }

  lemma StaysTrapped(code: seq<Instr>, s: St)
    requires Sane(s) && AllFit(code) && s.trapped
    ensures Run(code, s) == s
  {
  }

  lemma DivRuns(s: St, dest: Reg, a: Reg, b: Reg, result: nat)
    requires Sane(s) && !s.trapped && Fixed(result)
    ensures AllFit(DivCode(dest, a, b, result))
    ensures var av, bv, t := Seen(s, a, R10, a, b), Seen(s, b, R11, a, b), Run(DivCode(dest, a, b, result), s);
      if DivTraps(av, bv) then t.trapped
      else !t.trapped && Value(t, dest) == DivResult(av, bv, result) && OnlyDest(s, t, dest, a, b)
  {
    var av, bv := Seen(s, a, R10, a, b), Seen(s, b, R11, a, b);
    var u := DivStarts(s, dest, a, b);
    if DivTraps(av, bv) {
      DivEndsFit(dest, result);
      DivTrapped(s, dest, a, b, result, u);
    } else {
      DivReturns(s, dest, a, b, result, u, Fetched(s, a, b), av, bv);
      FinalIs(s, dest, a, b, av, bv, result);
    }
  }

  lemma RestoredIs(f: St, dest: Reg, q: int, m: int, res: int, w: seq<int>, x: int, y: int)
    requires |f.regs| == 16
    ensures var t := Restored(Placed(f.(regs := f.regs[RAX := q][RDX := m]), dest, res), dest, w, x, y);
      && |t.regs| == 16 && t.trapped == f.trapped && t.words == w && t.slot == (if IsS5(dest) then res else f.slot)
      && forall r :: 0 <= r < 16 ==> (
        t.regs[r] == if !IsS5(dest) && r == PhysOf(dest) then res else if r == RAX then x else if r == RDX then y
          else f.regs[r])
  {
    hide Phys;
  }

  lemma FetchedIs(s: St, a: Reg, b: Reg)
    requires |s.regs| == 16
    ensures var f := Fetched(s, a, b);
      && |f.regs| == 16 && f.slot == s.slot && f.trapped == s.trapped && f.words == s.words
      && forall r :: 0 <= r < 16 && !(r == R10 && IsS5(a)) && !(r == R11 && IsS5(b)) ==> f.regs[r] == s.regs[r]
  {
  }

  lemma FinalIs(s: St, dest: Reg, a: Reg, b: Reg, av: int, bv: int, result: nat)
    requires |s.regs| == 16 && bv != 0 && Fixed(result)
    ensures var t := Final(s, Fetched(s, a, b), dest, av, bv, result);
      |t.regs| == 16 && t.trapped == s.trapped && Value(t, dest) == DivResult(av, bv, result)
        && OnlyDest(s, t, dest, a, b)
  {
    FetchedIs(s, a, b);
    RestoredIs(Fetched(s, a, b), dest, Quot(av, bv), Rem(av, bv), DivResult(av, bv, result), s.words, s.regs[RAX],
      s.regs[RDX]);
    hide Quot, Rem, Phys, Restored, Placed, Fetched, DivResult;
  }

  lemma DivEndsFit(dest: Reg, result: nat)
    requires result < 16
    ensures AllFit(DivEnds(dest, result))
  {
  }

  // ---------- variable shifts ----------

  /** dest in RCX: the shift happens on the stack. */
  function ShiftOnStack(kind: Kind, rs: nat, rc: nat): seq<Instr> {
    [Push(rs)] + (Opt(rc != RCX, MovReg(RCX, rc)) + [ShiftTop(kind), Pop(RCX)])
  }

  /** Both RCX and the count go on the stack; src may have to be read back from there. */
  function ShiftInPlace(kind: Kind, rd: nat, rs: nat, rc: nat): seq<Instr> {
    [Push(RCX), Push(rc)] +
    (FetchSrc(rd, rs) + ([Pop(RCX), ShiftCl(kind, rd)] + [Pop(RCX)]))
  }

  function FetchSrc(rd: nat, rs: nat): seq<Instr> {
    if rd == rs then [] else if rs == RCX then [LoadTop(rd, 1)] else [MovReg(rd, rs)]
  }

  function ShiftBody(kind: Kind, dest: Reg, rs: nat, rc: nat): seq<Instr> {
    if Lands(dest, RCX) then ShiftOnStack(kind, rs, rc)
    else ShiftInPlace(kind, RegOf(dest, R10), rs, rc) + Opt(IsS5(dest), StoreSlot(R10))
  }

  function ShiftCode(kind: Kind, dest: Reg, src: Reg, count: Reg): seq<Instr> {
    (Fetch(src, R10) + Fetch(count, R11)) + ShiftBody(kind, dest, RegOf(src, R10), RegOf(count, R11))
  }

  lemma OnStackIs(code: seq<Instr>, kind: Kind, rs: nat, rc: nat)
    ensures (if rc != RCX then code + [Push(rs)] + [MovReg(RCX, rc)] else code + [Push(rs)]) + [ShiftTop(kind)] +
      [Pop(RCX)] == code + ShiftOnStack(kind, rs, rc)
  {
    assert [ShiftTop(kind)] + [Pop(RCX)] == [ShiftTop(kind), Pop(RCX)];
  }

  lemma InPlaceIs(code: seq<Instr>, kind: Kind, rd: nat, rs: nat, rc: nat)
    ensures code + [Push(RCX)] + [Push(rc)] + FetchSrc(rd, rs) + [Pop(RCX)] + [ShiftCl(kind, rd)] + [Pop(RCX)] ==
      code + ShiftInPlace(kind, rd, rs, rc)
  {
    hide FetchSrc;
    assert [Pop(RCX)] + [ShiftCl(kind, rd)] == [Pop(RCX), ShiftCl(kind, rd)];
    assert [Push(RCX)] + [Push(rc)] == [Push(RCX), Push(rc)];
  }

  lemma OnStackRuns(f: St, kind: Kind, rs: nat, rc: nat)
    requires Sane(f) && !f.trapped && rs < 16 && rc < 16
    ensures AllFit(ShiftOnStack(kind, rs, rc))
    ensures Run(ShiftOnStack(kind, rs, rc), f) == f.(regs := f.regs[RCX := ShiftOf(kind, f.regs[rs], f.regs[rc])])
  {
    hide ShiftOf;
    RunOpt(true, Push(rs), f);
    var f1 := Step(Push(rs), f);
    RunOpt(rc != RCX, MovReg(RCX, rc), f1);
    var f2 := Run(Opt(rc != RCX, MovReg(RCX, rc)), f1);
    assert f2 == f1.(regs := f.regs[RCX := f.regs[rc]]) by { assert f.regs[RCX := f.regs[RCX]] == f.regs; }
    RunTwo(ShiftTop(kind), Pop(RCX), f2);
    var v := ShiftOf(kind, f.regs[rs], f.regs[rc]);
    assert (f.words + [f.regs[rs]])[|f.words| := v] == f.words + [v] && (f.words + [v])[..|f.words|] == f.words;
    assert f.regs[RCX := f.regs[rc]][RCX := v] == f.regs[RCX := v];
    RunCat(Opt(rc != RCX, MovReg(RCX, rc)), [ShiftTop(kind), Pop(RCX)], f1);
    RunCat([Push(rs)], Opt(rc != RCX, MovReg(RCX, rc)) + [ShiftTop(kind), Pop(RCX)], f);
  }

  lemma NothingRuns(f: St)
    requires Sane(f)
    ensures Run([], f) == f
  {
  }

  lemma OneRuns(i: Instr, f: St)
    requires Sane(f) && Fits(i) && !f.trapped
    ensures AllFit([i]) && Run([i], f) == Step(i, f)
  {
    RunOpt(true, i, f);
  }

  lemma Fetches(rd: nat, rs: nat, f: St)
    requires Sane(f) && rs < 16 && rd < 16
    ensures Fits(MovReg(rd, rs)) && Step(MovReg(rd, rs), f) == f.(regs := f.regs[rd := f.regs[rs]])
    ensures Fits(LoadTop(rd, 1))
    ensures |f.words| >= 2 ==> Step(LoadTop(rd, 1), f) == f.(regs := f.regs[rd := f.words[|f.words| - 2]])
  {
    hide ShiftOf, Idiv;
  }

  lemma FetchSrcRuns(f: St, rd: nat, rs: nat)
    requires Sane(f) && !f.trapped && rs < 16 && rd < 16
    requires |f.words| >= 2 && f.words[|f.words| - 2] == f.regs[RCX]
    ensures AllFit(FetchSrc(rd, rs)) && Run(FetchSrc(rd, rs), f) == f.(regs := f.regs[rd := f.regs[rs]])
  {
    hide Step, Run, Fits;
    Fetches(rd, rs, f);
    if rd == rs {
      NothingRuns(f);
      assert f.regs[rd := f.regs[rs]] == f.regs;
    } else {
      OneRuns(if rs == RCX then LoadTop(rd, 1) else MovReg(rd, rs), f);
    }
  }

  /** The count comes into CL, the shift is done, and RCX comes back. */
  lemma ShiftRestores(f: St, kind: Kind, rd: nat, c: int, w: seq<int>, x: int)
    requires Sane(f) && !f.trapped && rd < 16 && rd != RCX && Word(c) && Word(x) && f.words == w + [x] + [c]
    ensures var code := [Pop(RCX), ShiftCl(kind, rd)] + [Pop(RCX)];
      AllFit(code) && Run(code, f) == f.(regs := f.regs[rd := ShiftOf(kind, f.regs[rd], c)][RCX := x], words := w)
  {
    hide ShiftOf;
    RunTwo(Pop(RCX), ShiftCl(kind, rd), f);
    var v := ShiftOf(kind, f.regs[rd], c);
    var f4 := f.(regs := f.regs[RCX := c][rd := v], words := w + [x]);
    assert f.words[..|w| + 1] == w + [x];
    assert Run([Pop(RCX), ShiftCl(kind, rd)], f) == f4;
    RunOpt(true, Pop(RCX), f4);
    assert (w + [x])[..|w|] == w;
    assert f.regs[RCX := c][rd := v][RCX := x] == f.regs[rd := v][RCX := x];
    RunCat([Pop(RCX), ShiftCl(kind, rd)], [Pop(RCX)], f);
  }

  lemma InPlaceRuns(f: St, kind: Kind, rd: nat, rs: nat, rc: nat)
    requires Sane(f) && !f.trapped && rs < 16 && rc < 16 && rd < 16 && rd != RCX
    ensures AllFit(ShiftInPlace(kind, rd, rs, rc))
    ensures Run(ShiftInPlace(kind, rd, rs, rc), f) == f.(regs := f.regs[rd := ShiftOf(kind, f.regs[rs], f.regs[rc])])
  {
    var x, w := f.regs[RCX], f.words;
    RunTwo(Push(RCX), Push(rc), f);
    hide ShiftOf, FetchSrc, AllFit, Run;
    var f1 := f.(words := w + [x] + [f.regs[rc]]);
    FetchSrcRuns(f1, rd, rs);
    var f2 := f1.(regs := f.regs[rd := f.regs[rs]]);
    ShiftRestores(f2, kind, rd, f.regs[rc], w, x);
    var v := ShiftOf(kind, f.regs[rs], f.regs[rc]);
    assert f.regs[rd := f.regs[rs]][rd := v][RCX := x] == f.regs[rd := v];
    RunCat(FetchSrc(rd, rs), [Pop(RCX), ShiftCl(kind, rd)] + [Pop(RCX)], f1);
    RunCat([Push(RCX), Push(rc)], FetchSrc(rd, rs) + ([Pop(RCX), ShiftCl(kind, rd)] + [Pop(RCX)]), f);
  }

  lemma BodyRuns(f: St, kind: Kind, dest: Reg, rs: nat, rc: nat)
    requires Sane(f) && !f.trapped && rs < 16 && rc < 16
    ensures AllFit(ShiftBody(kind, dest, rs, rc))
    ensures var v, t := ShiftOf(kind, f.regs[rs], f.regs[rc]), Run(ShiftBody(kind, dest, rs, rc), f);
      t == f.(regs := f.regs[RegOf(dest, R10) := v], slot := if IsS5(dest) then v else f.slot)
  {
    hide ShiftOf, ShiftInPlace, ShiftOnStack, Phys;
    if Lands(dest, RCX) {
      OnStackRuns(f, kind, rs, rc);
    } else {
      var rd := RegOf(dest, R10);
      InPlaceRuns(f, kind, rd, rs, rc);
      var t := Run(ShiftInPlace(kind, rd, rs, rc), f);
      RunOpt(IsS5(dest), StoreSlot(R10), t);
      RunCat(ShiftInPlace(kind, rd, rs, rc), Opt(IsS5(dest), StoreSlot(R10)), f);
    }
  }

  lemma ShiftRuns(s: St, kind: Kind, dest: Reg, src: Reg, count: Reg)
    requires Sane(s) && !s.trapped
    ensures AllFit(ShiftCode(kind, dest, src, count))
    ensures var v, c, t := Seen(s, src, R10, src, count), Seen(s, count, R11, src, count),
      Run(ShiftCode(kind, dest, src, count), s);
      !t.trapped && Value(t, dest) == ShiftOf(kind, v, c) && OnlyDest(s, t, dest, src, count)
  {
    hide Phys, ShiftOf, ShiftBody, Run, AllFit;
    FetchRuns(s, src, count);
    var f := Fetched(s, src, count);
    FetchedIs(s, src, count);
    hide ShiftOf, ShiftBody, Fetch, Fetched, Phys, AllFit, Run;
    BodyRuns(f, kind, dest, RegOf(src, R10), RegOf(count, R11));
    RunCat(Fetch(src, R10) + Fetch(count, R11), ShiftBody(kind, dest, RegOf(src, R10), RegOf(count, R11)), s);
  }

  // ---------- main results ----------

  /** The three-address operations. */
  datatype Op = Div | Mod | Shift(kind: Kind)

  function Lowered(op: Op, dest: Reg, a: Reg, b: Reg): seq<Instr> {
    match op
    case Div => DivCode(dest, a, b, RAX)
    case Mod => DivCode(dest, a, b, RDX)
    case Shift(kind) => ShiftCode(kind, dest, a, b)
  }

  /** What an operation means to the virtual machine's callers. */
  predicate Traps(op: Op, a: int, b: int) {
    !op.Shift? && DivTraps(a, b)
  }

  function Meaning(op: Op, a: int, b: int): int
    requires Word(a) && !Traps(op, a, b)
  {
    match op
    case Div => Quot(a, b)
    case Mod => Rem(a, b)
    case Shift(kind) => ShiftOf(kind, a, b)
  }

  /** The lowered code does that and nothing else. */
  predicate Right(s: St, op: Op, dest: Reg, a: Reg, b: Reg, t: St)
    requires Sane(s) && Sane(t)
  {
    var x, y := Value(s, a), Value(s, b);
    if Traps(op, x, y) then t.trapped
    else !t.trapped && Value(t, dest) == Meaning(op, x, y) && OnlyDest(s, t, dest, a, b)
  }

  /** The stack pointer is no operand: `words` stands for it. */
  predicate NotSp(dest: Reg, a: Reg, b: Reg) {
    !dest.SP? && !a.SP? && !b.SP?
  }

  lemma SeenIsValue(s: St, a: Reg, b: Reg)
    requires Sane(s) && !Clash(a, b)
    ensures Seen(s, a, R10, a, b) == Value(s, a) && Seen(s, b, R11, a, b) == Value(s, b)
  {
    hide Phys;
  }

  lemma LoweredRuns(s: St, op: Op, dest: Reg, a: Reg, b: Reg)
    requires Sane(s) && !s.trapped
    ensures AllFit(Lowered(op, dest, a, b))
    ensures var x, y, t := Seen(s, a, R10, a, b), Seen(s, b, R11, a, b), Run(Lowered(op, dest, a, b), s);
      if Traps(op, x, y) then t.trapped
      else !t.trapped && Value(t, dest) == Meaning(op, x, y) && OnlyDest(s, t, dest, a, b)
  {
    hide DivCode, ShiftCode, Run, AllFit, Seen, Quot, Rem, ShiftOf;
    match op
    case Div => DivRuns(s, dest, a, b, RAX);
    case Mod => DivRuns(s, dest, a, b, RDX);
    case Shift(kind) => ShiftRuns(s, kind, dest, a, b);
  }

  /** Whatever registers the operands share, also with RAX, RDX and RCX, the operation is right. */
  lemma LoweringIsRight(s: St, op: Op, dest: Reg, a: Reg, b: Reg)
    requires Sane(s) && !s.trapped && !Clash(a, b) && NotSp(dest, a, b)
    ensures AllFit(Lowered(op, dest, a, b)) && Right(s, op, dest, a, b, Run(Lowered(op, dest, a, b), s))
  {
    hide Lowered, Clash, Run, Seen;
    SeenIsValue(s, a, b);
    LoweredRuns(s, op, dest, a, b);
  }

  lemma MeaningsDiffer(op: Op, x: int, y: int)
    requires if op.Shift? then x == 8 && y == 1 else x == 2 && y == 3
    ensures !Traps(op, x, y) && !Traps(op, x, x) && !Traps(op, y, y)
    ensures Meaning(op, x, y) != Meaning(op, x, x) && Meaning(op, x, y) != Meaning(op, y, y)
  {
    match op
    case Shift(kind) =>
      assert Pow2(1) == 2 && Pow2(8) == 256 by {
        assert Pow2(8) == 2 * Pow2(7) == 4 * Pow2(6) == 8 * Pow2(5) == 16 * Pow2(4);
        assert Pow2(4) == 2 * Pow2(3) == 4 * Pow2(2) == 8 * Pow2(1) == 16 * Pow2(0);
      }
      hide Pow2;
    case Div =>
    case Mod =>
  }

  function ClashState(op: Op, a: Reg): St {
    var x, y := if op.Shift? then 8 else 2, if op.Shift? then 1 else 3;
    if IsS5(a) then St(seq(16, _ => y), x, [], false) else St(seq(16, _ => x), y, [], false)
  }

  lemma ClashSees(op: Op, a: Reg, b: Reg)
    requires Clash(a, b)
    ensures var s, x, y := ClashState(op, a), if op.Shift? then 8 else 2, if op.Shift? then 1 else 3;
      && Sane(s) && !s.trapped && Value(s, a) == x && Value(s, b) == y
      && Seen(s, a, R10, a, b) == Seen(s, b, R11, a, b) == if IsS5(a) then x else y
  {
  }

  /** Where S5 meets the register its temporary spoils there is a state that shows the difference. */
  lemma ClashShows(op: Op, dest: Reg, a: Reg, b: Reg)
    requires Clash(a, b)
    ensures var s, code := ClashState(op, a), Lowered(op, dest, a, b);
      Sane(s) && !s.trapped && AllFit(code) && !Right(s, op, dest, a, b, Run(code, s))
  {
    ClashSees(op, a, b);
    hide Lowered, Run, Phys, Meaning, OnlyDest, Traps, AllFit, ClashState, Seen, Value;
    var s, x, y := ClashState(op, a), if op.Shift? then 8 else 2, if op.Shift? then 1 else 3;
    LoweredRuns(s, op, dest, a, b);
    MeaningsDiffer(op, x, y);
  }

  ghost predicate AlwaysRight(op: Op, dest: Reg, a: Reg, b: Reg) {
    forall s :: Sane(s) && !s.trapped ==>
      AllFit(Lowered(op, dest, a, b)) && Right(s, op, dest, a, b, Run(Lowered(op, dest, a, b), s))
  }

  /** For every operation and choice of operands: right on all states exactly when S5's temporaries spoil no operand. */
  lemma LoweringExactly(op: Op, dest: Reg, a: Reg, b: Reg)
    requires NotSp(dest, a, b)
    ensures AlwaysRight(op, dest, a, b) <==> !Clash(a, b)
  {
    hide Lowered, Right, Run, Sane, AllFit, Clash;
    if Clash(a, b) {
      ClashShows(op, dest, a, b);
      assert Sane(ClashState(op, a));
    } else {
      forall s | Sane(s) && !s.trapped
        ensures AllFit(Lowered(op, dest, a, b)) && Right(s, op, dest, a, b, Run(Lowered(op, dest, a, b), s)) {
        LoweringIsRight(s, op, dest, a, b);
      }
    }
  }

  // ---------- the backend ----------

  class X64Backend {
    var code: seq<Instr>

    constructor ()
      ensures code == []
    {
      code := [];
    }

    method Emit(i: Instr)
      modifies this
      ensures code == old(code) + [i]
    {
      code := code + [i];
    }

    /** The register an operand is read from; emits the fetch of S5. */
    method GetReg(r: Reg, temp: nat) returns (p: nat)
      requires temp < 16
      modifies this
      ensures p == RegOf(r, temp) && code == old(code) + Fetch(r, temp)
    {
      if IsS5(r) {
        Emit(LoadSlot(temp));
        return temp;
      }
      p := PhysOf(r);
    }

    method SetUpDividend(ra: nat, rb: nat)
      modifies this
      ensures code == old(code) + SetUp(ra, rb)
    {
      if Fixed(rb) { Emit(Push(rb)); }
      if ra != RAX { Emit(MovReg(RAX, ra)); }
    }

    method SaveFixed(dest: Reg)
      modifies this
      ensures code == old(code) + DivSaves(dest)
    {
      hide Phys;
      if !Lands(dest, RAX) { Emit(Push(RAX)); }
      if !Lands(dest, RDX) { Emit(Push(RDX)); }
    }

    /** The divisor is taken from the stack if the dividend or its sign would overwrite it. */
    method DivideBy(ra: nat, b: Reg)
      modifies this
      ensures code == old(code) + DivCore(ra, b)
    {
      hide Phys;
      var rb := RegOf(b, R11);
      SetUpDividend(ra, rb);
      Emit(Cqo);
      if Fixed(rb) {
        Emit(IdivTop);
        Emit(DropTop);
        assert [IdivTop] + [DropTop] == [IdivTop, DropTop];
      } else {
        if IsS5(b) { Emit(LoadSlot(R11)); }
        Emit(IdivReg(rb));
      }
      hide SetUp;
    }

    method PlaceAndRestore(dest: Reg, result: nat)
      modifies this
      ensures code == old(code) + DivEnds(dest, result)
    {
      hide Phys;
      if IsS5(dest) {
        Emit(StoreSlot(result));
      } else if PhysOf(dest) != result {
        Emit(MovReg(PhysOf(dest), result));
      }
      assert code == old(code) + PlaceCode(dest, result);
      hide PlaceCode;
      if !Lands(dest, RDX) { Emit(Pop(RDX)); }
      if !Lands(dest, RAX) { Emit(Pop(RAX)); }
    }

    /** `div` and `mod`, which differ in where the result is. */
    method Divide(dest: Reg, a: Reg, b: Reg, result: nat)
      modifies this
      ensures code == old(code) + DivCode(dest, a, b, result)
    {
      hide Phys, Fetch, DivSaves, DivCore, DivEnds;
      var ra := GetReg(a, R10);
      var rb := GetReg(b, R11);
      SaveFixed(dest);
      DivideBy(ra, b);
      PlaceAndRestore(dest, result);
    }

    method Div(dest: Reg, a: Reg, b: Reg)
      modifies this
      ensures code == old(code) + Lowered(Op.Div, dest, a, b)
    {
      Divide(dest, a, b, RAX);
    }

    method Mod(dest: Reg, a: Reg, b: Reg)
      modifies this
      ensures code == old(code) + Lowered(Op.Mod, dest, a, b)
    {
      Divide(dest, a, b, RDX);
    }

    method FetchSource(rd: nat, rs: nat)
      modifies this
      ensures code == old(code) + FetchSrc(rd, rs)
    {
      if rd != rs {
        if rs == RCX { Emit(LoadTop(rd, 1)); } else { Emit(MovReg(rd, rs)); }
      }
    }

    method ShiftTo(kind: Kind, dest: Reg, rs: nat, rc: nat)
      modifies this
      ensures code == old(code) + ShiftBody(kind, dest, rs, rc)
    {
      hide Phys, FetchSrc, ShiftOnStack, ShiftInPlace;
      if Lands(dest, RCX) {
        OnStackIs(code, kind, rs, rc);
        Emit(Push(rs));
        if rc != RCX { Emit(MovReg(RCX, rc)); }
        Emit(ShiftTop(kind));
        Emit(Pop(RCX));
      } else {
        var rd := if IsS5(dest) then R10 else PhysOf(dest);
        InPlaceIs(code, kind, rd, rs, rc);
        Emit(Push(RCX));
        Emit(Push(rc));
        FetchSource(rd, rs);
        Emit(Pop(RCX));
        Emit(ShiftCl(kind, rd));
        Emit(Pop(RCX));
        assert code == old(code) + ShiftInPlace(kind, rd, rs, rc);
        if IsS5(dest) { Emit(StoreSlot(rd)); }
      }
    }

    /** `shl`, `shr` and `sar` with a count in a register. */
    method ShiftBy(kind: Kind, dest: Reg, src: Reg, count: Reg)
      modifies this
      ensures code == old(code) + Lowered(Op.Shift(kind), dest, src, count)
    {
      hide Phys, Fetch, ShiftBody;
      var rs := GetReg(src, R10);
      var rc := GetReg(count, R11);
      ShiftTo(kind, dest, rs, rc);
    }
  }
}
