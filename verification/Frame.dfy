/** The frame: what prologue and epilogue do to memory (backend/arm64.js, wasm32.js, x64.js), and the save area above
    the local cells (compiler/core/context.js). */
module Frame {
  import opened Context
  import opened VRegs
  import opened Machine
  import opened Plans

  // ---------- memory ----------

  /** Eight bytes. */
  type Quad = q: seq<int> | |q| == 8 witness [0, 0, 0, 0, 0, 0, 0, 0]

  function Read(mem: int -> int, at: int): Quad {
    seq(8, i => mem(at + i))
  }

  function Write(mem: int -> int, at: int, q: Quad): int -> int {
    x => if at <= x < at + 8 then q[x - at] else mem(x)
  }

  lemma ReadsBack(mem: int -> int, at: int, q: Quad)
    ensures Read(Write(mem, at, q), at) == q
  {
  }

  /** The two memories hold the same bytes from lo up to hi. */
  ghost predicate Agree(m: int -> int, n: int -> int, lo: int, hi: int) {
    forall x :: lo <= x < hi ==> m(x) == n(x)
  }

  lemma SameRead(m: int -> int, n: int -> int, lo: int, hi: int, at: int)
    requires Agree(m, n, lo, hi) && lo <= at && at + 8 <= hi
    ensures Read(m, at) == Read(n, at)
  {
  }

  // ---------- the instructions ----------

  /** The register that reads as zero and forgets what is written to it. */
  const XZR := -1

  /** Registers are physical numbers; stp and ldp with the stack pointer moved before and after. */
  datatype Instr = StpPre(a: int, b: int) | LdpPost(a: int, b: int) | PushReg(a: int) | PopReg(a: int)

  /** `sp` and all addresses are relative to the frame pointer. */
  datatype M = M(regs: int -> Quad, sp: int, mem: int -> int)

  function RegVal(m: M, r: int): Quad {
    if r == XZR then [0, 0, 0, 0, 0, 0, 0, 0] else m.regs(r)
  }

  function WithReg(regs: int -> Quad, r: int, q: Quad): int -> Quad {
    p => if p == r && r != XZR then q else regs(p)
  }

  function Step(i: Instr, m: M): M {
    match i
    case StpPre(a, b) =>
      M(m.regs, m.sp - 16, Write(Write(m.mem, m.sp - 16, RegVal(m, a)), m.sp - 8, RegVal(m, b)))
    case LdpPost(a, b) =>
      M(WithReg(WithReg(m.regs, a, Read(m.mem, m.sp)), b, Read(m.mem, m.sp + 8)), m.sp + 16, m.mem)
    case PushReg(a) => M(m.regs, m.sp - 8, Write(m.mem, m.sp - 8, RegVal(m, a)))
    case PopReg(a) => M(WithReg(m.regs, a, Read(m.mem, m.sp)), m.sp + 8, m.mem)
  }

  function Run(code: seq<Instr>, m: M): M {
    if code == [] then m else Run(code[1..], Step(code[0], m))
  }

  lemma {:induction false} RunCat(a: seq<Instr>, b: seq<Instr>, m: M)
    ensures Run(a + b, m) == Run(b, Run(a, m))
    decreases |a|
  {
    if a == [] {
      assert a + b == b;
    } else {
      assert (a + b)[1..] == a[1..] + b;
      RunCat(a[1..], b, Step(a[0], m));
    }
  }

  // ---------- prologue and epilogue ----------

  /** The registers that get a place in the save area; x64 keeps S5 in a cell of its own. */
  function Places(arch: Arch, rs: seq<Reg>): seq<int> {
    if rs == [] then []
    else
      Places(arch, rs[..|rs| - 1]) + if arch == X64 && rs[|rs| - 1].S5? then [] else [Phys(arch, rs[|rs| - 1])]
  }

  /** The k-th place, or zero behind the last one. */
  function At(ps: seq<int>, k: nat): int {
    if k < |ps| then ps[k] else XZR
  }

  /** Number of pairs, or on x64 of single pushes. */
  function Count(arch: Arch, ps: seq<int>): nat {
    if arch == X64 then |ps| else (|ps| + 1) / 2
  }

  function SaveAt(arch: Arch, ps: seq<int>, k: nat): Instr {
    if arch == X64 then PushReg(At(ps, k)) else StpPre(At(ps, 2 * k), At(ps, 2 * k + 1))
  }

  function LoadAt(arch: Arch, ps: seq<int>, k: nat): Instr {
    if arch == X64 then PopReg(At(ps, k)) else LdpPost(At(ps, 2 * k), At(ps, 2 * k + 1))
  }

  function Saves(arch: Arch, ps: seq<int>, n: nat): seq<Instr> {
    if n == 0 then [] else Saves(arch, ps, n - 1) + [SaveAt(arch, ps, n - 1)]
  }

  function Loads(arch: Arch, ps: seq<int>, n: nat): seq<Instr> {
    if n == 0 then [] else [LoadAt(arch, ps, n - 1)] + Loads(arch, ps, n - 1)
  }

  /** The save loop of the prologue. */
  method EmitSaves(arch: Arch, rs: seq<Reg>) returns (code: seq<Instr>)
    ensures code == Saves(arch, Places(arch, rs), Count(arch, Places(arch, rs)))
  {
    code := [];
    var ps := Places(arch, rs);
    if arch == X64 {
      var k := 0;
      while k < |ps|
        invariant 0 <= k <= |ps| && code == Saves(arch, ps, k)
      {
        code := code + [PushReg(ps[k])];
        k := k + 1;
      }
    } else {
      var numPairs, i := (|ps| + 1) / 2, 0;
      while i < numPairs * 2
        invariant 0 <= i <= numPairs * 2 && i % 2 == 0 && code == Saves(arch, ps, i / 2)
      {
        code := code + [StpPre(ps[i], if i + 1 < |ps| then ps[i + 1] else XZR)];
        i := i + 2;
      }
    }
  }

  /** The restore loop of the epilogue. */
  method EmitLoads(arch: Arch, rs: seq<Reg>) returns (code: seq<Instr>)
    ensures code == Loads(arch, Places(arch, rs), Count(arch, Places(arch, rs)))
  {
    code := [];
    var ps := Places(arch, rs);
    if arch == X64 {
      var i := |ps| - 1;
      while i >= 0
        invariant -1 <= i < |ps| && code + Loads(arch, ps, i + 1) == Loads(arch, ps, |ps|)
      {
        assert code + Loads(arch, ps, i + 1) == code + [PopReg(ps[i])] + Loads(arch, ps, i);
        code := code + [PopReg(ps[i])];
        i := i - 1;
      }
    } else {
      var numPairs := (|ps| + 1) / 2;
      var p := numPairs - 1;
      while p >= 0
        invariant -1 <= p < numPairs && code + Loads(arch, ps, p + 1) == Loads(arch, ps, numPairs)
      {
        var next := LdpPost(ps[2 * p], if 2 * p + 1 < |ps| then ps[2 * p + 1] else XZR);
        assert code + Loads(arch, ps, p + 1) == code + [next] + Loads(arch, ps, p);
        code := code + [next];
        p := p - 1;
      }
    }
  }

  // ---------- saving and restoring ----------

  /** Bytes taken by n save instructions. */
  function Bytes(arch: Arch, n: int): int {
    if arch == X64 then 8 * n else 16 * n
  }

  /** Register p is saved by the k-th instruction. */
  predicate Placed(arch: Arch, ps: seq<int>, k: nat, p: int) {
    p != XZR && if arch == X64 then At(ps, k) == p else At(ps, 2 * k) == p || At(ps, 2 * k + 1) == p
  }

  predicate Saved(arch: Arch, ps: seq<int>, n: nat, p: int) {
    exists k :: 0 <= k < n && Placed(arch, ps, k, p)
  }

  lemma SavesOne(arch: Arch, ps: seq<int>, k: nat, m: M)
    ensures var s := Step(SaveAt(arch, ps, k), m);
      && s.regs == m.regs && s.sp == m.sp - Bytes(arch, 1) && (forall x :: x >= m.sp ==> s.mem(x) == m.mem(x))
      && if arch == X64 then Read(s.mem, s.sp) == RegVal(m, At(ps, k))
         else Read(s.mem, s.sp) == RegVal(m, At(ps, 2 * k)) && Read(s.mem, s.sp + 8) == RegVal(m, At(ps, 2 * k + 1))
  {
  }

  lemma LoadsOne(arch: Arch, ps: seq<int>, k: nat, m: M, t: M)
    requires t.sp == m.sp - Bytes(arch, 1) && Agree(t.mem, Step(SaveAt(arch, ps, k), m).mem, t.sp, m.sp)
    ensures var u := Step(LoadAt(arch, ps, k), t);
      && u.sp == m.sp && u.mem == t.mem
      && (forall p :: Placed(arch, ps, k, p) ==> u.regs(p) == m.regs(p))
      && (forall p :: !Placed(arch, ps, k, p) ==> u.regs(p) == t.regs(p))
  {
    SavesOne(arch, ps, k, m);
    var s := Step(SaveAt(arch, ps, k), m);
    SameRead(t.mem, s.mem, t.sp, m.sp, t.sp);
    if arch != X64 { SameRead(t.mem, s.mem, t.sp, m.sp, t.sp + 8); }
    hide Read;
  }

  lemma {:induction false} SavesMove(arch: Arch, ps: seq<int>, n: nat, m: M)
    ensures var t := Run(Saves(arch, ps, n), m);
      t.regs == m.regs && t.sp == m.sp - Bytes(arch, n) && forall x :: x >= m.sp ==> t.mem(x) == m.mem(x)
  {
    hide Step, SaveAt;
    if n > 0 {
      SavesMove(arch, ps, n - 1, m);
      LastSave(arch, ps, n, m);
      SavesOne(arch, ps, n - 1, Run(Saves(arch, ps, n - 1), m));
    }
  }

  lemma LastSave(arch: Arch, ps: seq<int>, n: nat, m: M)
    requires n > 0
    ensures Run(Saves(arch, ps, n), m) == Step(SaveAt(arch, ps, n - 1), Run(Saves(arch, ps, n - 1), m))
  {
    hide Step, SaveAt;
    RunCat(Saves(arch, ps, n - 1), [SaveAt(arch, ps, n - 1)], m);
    assert [SaveAt(arch, ps, n - 1)][1..] == [];
  }

  lemma SavedOneMore(arch: Arch, ps: seq<int>, n: nat, p: int)
    requires n > 0
    ensures Saved(arch, ps, n, p) <==> Saved(arch, ps, n - 1, p) || Placed(arch, ps, n - 1, p)
  {
    hide Placed;
  }

  /** The epilogue's loads undo the prologue's saves, whatever has happened to the registers in between, as long as the
      save area has been left alone. */
  lemma {:induction false} RestoresSaved(arch: Arch, ps: seq<int>, n: nat, m: M, t: M)
    requires t.sp == m.sp - Bytes(arch, n) && Agree(t.mem, Run(Saves(arch, ps, n), m).mem, t.sp, m.sp)
    ensures var u := Run(Loads(arch, ps, n), t);
      && u.sp == m.sp && u.mem == t.mem
      && (forall p :: Saved(arch, ps, n, p) ==> u.regs(p) == m.regs(p))
      && (forall p :: !Saved(arch, ps, n, p) ==> u.regs(p) == t.regs(p))
    decreases n
  {
    hide Step, SaveAt, LoadAt, Placed, Saved;
    if n == 0 {
      NoneSaved(arch, ps);
    } else {
      var v := Run(Saves(arch, ps, n - 1), m);
      SavesMove(arch, ps, n - 1, m);
      LastSave(arch, ps, n, m);
      SavesOne(arch, ps, n - 1, v);
      LoadsOne(arch, ps, n - 1, v, t);
      var t' := Step(LoadAt(arch, ps, n - 1), t);
      RestoresSaved(arch, ps, n - 1, m, t');
      forall p ensures Saved(arch, ps, n, p) <==> Saved(arch, ps, n - 1, p) || Placed(arch, ps, n - 1, p) {
        SavedOneMore(arch, ps, n, p);
      }
      assert ([LoadAt(arch, ps, n - 1)] + Loads(arch, ps, n - 1))[1..] == Loads(arch, ps, n - 1);
    }
  }

  lemma NoneSaved(arch: Arch, ps: seq<int>)
    ensures forall p :: !Saved(arch, ps, 0, p)
  {
  }

  /** All instructions together save all places. */
  lemma AllSaved(arch: Arch, ps: seq<int>, p: int)
    requires p != XZR
    ensures Saved(arch, ps, Count(arch, ps), p) <==> p in ps
  {
    if p in ps {
      var k :| 0 <= k < |ps| && ps[k] == p;
      assert Placed(arch, ps, if arch == X64 then k else k / 2, p);
    }
  }

  // ---------- the save area and the local cells ----------

  lemma {:induction false} AllPlaced(arch: Arch, rs: seq<Reg>)
    requires S5 in rs ==> arch != X64
    ensures Places(arch, rs) == seq(|rs|, k requires 0 <= k < |rs| => Phys(arch, rs[k]))
  {
    hide Phys;
    if rs != [] {
      AllPlaced(arch, rs[..|rs| - 1]);
    }
  }

  function Nth(rs: seq<Reg>, k: nat): Reg {
    if k < |rs| then rs[k] else V0
  }

  lemma AtMostTwo(arch: Arch, ops: seq<Op>, plan: Plan)
    requires ValidPlan(arch, ops, plan)
    ensures |plan.ext| <= 2 && (S5 in plan.ext ==> arch == Arm64)
    ensures forall k :: 0 <= k < |plan.ext| ==> plan.ext[k].S4? || plan.ext[k].S5?
  {
    var a, b, c := Nth(plan.ext, 0), Nth(plan.ext, 1), Nth(plan.ext, 2);
    assert |plan.ext| >= 3 ==> a != b && b != c && a != c;
  }

  /** The list a replayed prologue saves. */
  function SaveList(arch: Arch, ops: seq<Op>, plan: Plan): seq<Reg>
    requires WellFormed(ops)
  {
    Rewrite(arch, plan, ops[0], 0).saved
  }

  /** It is even, has at most the six places the area has, and S5 on arm64 only: every register of it has a place. */
  lemma SaveAreaFits(arch: Arch, ops: seq<Op>, plan: Plan)
    requires WellFormed(ops) && ValidPlan(arch, ops, plan)
    ensures
      var rs := SaveList(arch, ops, plan);
      && |rs| % 2 == 0 && 8 * |rs| <= CALLEE_SAVED_AREA && (S5 in rs ==> arch == Arm64)
      && Places(arch, rs) == seq(|rs|, k requires 0 <= k < |rs| => Phys(arch, rs[k]))
      && Bytes(arch, Count(arch, Places(arch, rs))) == 8 * |rs|
  {
    hide ValidPlan, Phys, Places;
    AtMostTwo(arch, ops, plan);
    AllPlaced(arch, SaveList(arch, ops, plan));
  }

  /** The body's stores to local cells, one behind the other. */
  function Stores(mem: int -> int, ws: seq<(nat, Quad)>): int -> int {
    if ws == [] then mem else Write(Stores(mem, ws[..|ws| - 1]), CellAt(ws[|ws| - 1].0), ws[|ws| - 1].1)
  }

  /** What the k-th cell holds after them. */
  function Stored(mem: int -> int, ws: seq<(nat, Quad)>, k: nat): Quad {
    if ws == [] then Read(mem, CellAt(k))
    else if ws[|ws| - 1].0 == k then ws[|ws| - 1].1
    else Stored(mem, ws[..|ws| - 1], k)
  }

  lemma {:induction false} StoresHold(mem: int -> int, ws: seq<(nat, Quad)>, k: nat)
    ensures Read(Stores(mem, ws), CellAt(k)) == Stored(mem, ws, k)
    ensures Agree(Stores(mem, ws), mem, -CALLEE_SAVED_AREA, 0)
  {
    if ws != [] {
      StoresHold(mem, ws[..|ws| - 1], k);
    }
  }

  /** The whole frame: between a replayed prologue and its epilogue the body may store to its local cells and use the
      registers as it likes.  Every cell keeps what was stored to it last, and every register of the save list comes
      back, the stack pointer included. */
  lemma FrameIsSafe(arch: Arch, ops: seq<Op>, plan: Plan, m: M, ws: seq<(nat, Quad)>, regs: int -> Quad)
    requires WellFormed(ops) && ValidPlan(arch, ops, plan) && m.sp == 0
    ensures
      var rs := SaveList(arch, ops, plan);
      var ps := Places(arch, rs);
      var n := Count(arch, ps);
      var entered := Run(Saves(arch, ps, n), m);
      var body := M(regs, entered.sp, Stores(entered.mem, ws));
      var left := Run(Loads(arch, ps, n), body);
      && -CALLEE_SAVED_AREA <= entered.sp && left.sp == 0
      && (forall r :: r in rs ==> left.regs(Phys(arch, r)) == m.regs(Phys(arch, r)))
      && (forall p :: p != XZR && p !in ps ==> left.regs(p) == regs(p))
      && forall k: nat :: Read(left.mem, CellAt(k)) == Stored(entered.mem, ws, k)
  {
    hide ValidPlan, WellFormed, Saves, Loads, Run, Stores, Stored, Places, Count, Saved, Read, Phys, Bytes;
    var rs := SaveList(arch, ops, plan);
    var ps := Places(arch, rs);
    var n := Count(arch, ps);
    SaveAreaFits(arch, ops, plan);
    SavesMove(arch, ps, n, m);
    var entered := Run(Saves(arch, ps, n), m);
    forall k: nat ensures Read(Stores(entered.mem, ws), CellAt(k)) == Stored(entered.mem, ws, k) {
      StoresHold(entered.mem, ws, k);
    }
    StoresHold(entered.mem, ws, 0);
    RestoresSaved(arch, ps, n, m, M(regs, entered.sp, Stores(entered.mem, ws)));
    forall p | p != XZR ensures Saved(arch, ps, n, p) <==> p in ps { AllSaved(arch, ps, p); }
    forall r | r in rs
      ensures Phys(arch, r) in ps && Phys(arch, r) != XZR
    {
      var k :| 0 <= k < |rs| && rs[k] == r;
      assert ps[k] == Phys(arch, r);
      NoZero(arch, r);
    }
  }

  lemma NoZero(arch: Arch, r: Reg)
    ensures Phys(arch, r) != XZR
  {
  }
}
