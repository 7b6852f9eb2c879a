/** What the recorder's analysis may decide about one function body, and what is replayed under that decision.
    `ValidPlan` is the interface between the allocator (module Recorder) and its correctness (module Promotion). */
module Plans {
  import opened VRegs
  import opened Machine

  /** Frame slot `off` lives in `reg` during positions first..last. */
  datatype Prom = Prom(off: int, reg: Reg, first: int, last: int)
  /** The push at `push` and the pop at `pop` go through `reg` instead of the stack. */
  datatype Pair = Pair(push: int, pop: int, reg: Reg)
  /** `ext` lists the S4/S5 that prologue and epilogue must save in addition. */
  datatype Plan = Plan(proms: seq<Prom>, ext: seq<Reg>, pairs: seq<Pair>)

  /** The register `r` stands in one of the op's three recorded operand cells. */
  predicate Mentions(op: Op, r: Reg) {
    match op
    case Load(d, b, _) => d == r || b == r
    case Store(b, _, s) => b == r || s == r
    case Push(x) => x == r
    case Pop(x) => x == r
    case Call(_, a) => a == R(r)
    case Syscall(_, a) => a == R(r)
    case JmpIndirect(x) => x == r
    case Compute(_, d, b, c) => d == r || b == R(r) || c == R(r)
    case Effect(_, a, b, c) => a == R(r) || b == R(r) || c == R(r)
    case _ => false
  }

  predicate Unused(ops: seq<Op>, r: Reg) {
    forall i {:trigger Mentions(ops[i], r)} :: 0 <= i < |ops| ==> !Mentions(ops[i], r)
  }

  predicate Accesses(op: Op, off: int) {
    (op.Load? && op.base == FP && op.off == off) || (op.Store? && op.base == FP && op.off == off)
  }

  predicate HasCall(ops: seq<Op>) {
    exists i {:trigger ops[i].Call?} :: 0 <= i < |ops| && ops[i].Call?
  }

  predicate HasIndirect(ops: seq<Op>) {
    exists i {:trigger ops[i].JmpIndirect?} :: 0 <= i < |ops| && ops[i].JmpIndirect?
  }

  /** Ops that end a straight-line region. */
  predicate Control(op: Op) {
    op.Label? || op.Prologue? || op.Epilogue? || op.Ret? || op.JmpIndirect? || op.Jump?
  }

  /** Ops across which V5-V7 are not trusted. */
  predicate ClobbersBorrowed(op: Op) {
    op.Call? || op.Syscall? || op.PrepareCall?
  }

  /** A jump at j to a label already seen at t. */
  predicate BackEdge(ops: seq<Op>, t: int, j: int) {
    0 <= t < j < |ops| && ops[j].Jump? && ops[t] == Label(ops[j].target)
  }

  /** Pushes minus pops strictly between positions p and hi. */
  function Nest(ops: seq<Op>, p: int, hi: int): int
    requires 0 <= p < hi <= |ops|
    decreases hi
  {
    if hi == p + 1 then 0
    else Nest(ops, p, hi - 1) + (if ops[hi - 1].Push? then 1 else if ops[hi - 1].Pop? then -1 else 0)
  }

  /** The list every user function's prologue and epilogue are given. */
  const CALLEE_SAVED := [S0, S1, S2, S3]

  /** Assumptions about a record that the recorder does not check itself. */
  predicate WellFormed(ops: seq<Op>) {
    && |ops| > 0 && ops[0].Prologue?
    && ops[0].saved == CALLEE_SAVED
    && (forall i :: 0 < i < |ops| ==> !ops[i].Prologue?)
    && (forall i :: 0 <= i < |ops| && ops[i].Epilogue? ==> ops[i].saved == ops[0].saved)
    && (forall i, j :: 0 <= i < j < |ops| && ops[i].Label? ==> ops[i] != ops[j])
    && (forall i, k :: 0 <= i < |ops| && ops[i].PrepareCall? && 0 <= k < |ops[i].args| && ops[i].args[k].R?
          ==> !IsSaved(ops[i].args[k].reg))
  }

  /** A callee may not depend on a saved register that this function never names, nor on arm64's V5-V7. */
  predicate ViewFits(env: Env, ops: seq<Op>) {
    forall k :: 0 <= k < |env.view| ==>
      && (IsSaved(env.view[k]) ==> !Unused(ops, env.view[k]))
      && (env.arch == Arm64 ==> !IsBorrowed(env.view[k]))
  }

  predicate Apart(s1: int, e1: int, s2: int, e2: int) {
    e1 < s2 || e2 < s1
  }

  /** A saved register the allocator may use: untouched by the body, preserved by its calls, saved by its prologue. */
  predicate Usable(arch: Arch, ops: seq<Op>, ext: seq<Reg>, r: Reg) {
    && IsSaved(r) && Unused(ops, r)
    && (r.S4? || r.S5? ==> r in ext)
    && (r.S5? ==> arch == Arm64 && !HasCall(ops))
  }

  /** An interval no run that leaves it can enter again. */
  ghost predicate Closed(ops: seq<Op>, first: int, last: int) {
    && (forall t, j :: BackEdge(ops, t, j) && first <= j && t <= last ==> first <= t && j <= last)
    && (HasIndirect(ops) ==> first == 0 && last == |ops| - 1)
  }

  ghost predicate ValidProm(arch: Arch, ops: seq<Op>, ext: seq<Reg>, pr: Prom) {
    && Usable(arch, ops, ext, pr.reg) && pr.first <= pr.last
    && (forall i {:trigger Accesses(ops[i], pr.off)} :: 0 <= i < |ops| && Accesses(ops[i], pr.off) ==>
         pr.first <= i <= pr.last)
    && Closed(ops, pr.first, pr.last)
  }

  predicate ValidPair(arch: Arch, ops: seq<Op>, ext: seq<Reg>, pq: Pair) {
    && 0 <= pq.push && pq.push + 1 < pq.pop < |ops|
    && ops[pq.push].Push? && ops[pq.pop].Pop?
    && (forall i {:trigger Control(ops[i])} {:trigger Mentions(ops[i], pq.reg)} ::
          pq.push < i < pq.pop ==> !Control(ops[i]) && !Mentions(ops[i], pq.reg))
    && (forall i :: pq.push < i <= pq.pop ==> Nest(ops, pq.push, i) >= 0)
    && Nest(ops, pq.push, pq.pop) == 0
    && !HasIndirect(ops)
    && if IsBorrowed(pq.reg) then
         arch == Arm64 && forall i {:trigger ClobbersBorrowed(ops[i])} :: pq.push < i < pq.pop ==>
           !ClobbersBorrowed(ops[i])
       else Usable(arch, ops, ext, pq.reg)
  }

  ghost predicate ValidPlan(arch: Arch, ops: seq<Op>, plan: Plan) {
    && (forall k :: 0 <= k < |plan.proms| ==> ValidProm(arch, ops, plan.ext, plan.proms[k]))
    && (forall k :: 0 <= k < |plan.pairs| ==> ValidPair(arch, ops, plan.ext, plan.pairs[k]))
    && (forall k :: 0 <= k < |plan.ext| ==>
         (plan.ext[k].S4? || plan.ext[k].S5?) && Usable(arch, ops, plan.ext, plan.ext[k]))
    && (forall k, m :: 0 <= k < m < |plan.ext| ==> plan.ext[k] != plan.ext[m])
    && (forall k, m :: 0 <= k < m < |plan.proms| ==>
          plan.proms[k].off != plan.proms[m].off
          && (plan.proms[k].reg == plan.proms[m].reg ==>
                Apart(plan.proms[k].first, plan.proms[k].last, plan.proms[m].first, plan.proms[m].last)))
    && (forall k, m :: 0 <= k < m < |plan.pairs| ==>
          && plan.pairs[k].push != plan.pairs[m].push && plan.pairs[k].pop != plan.pairs[m].pop
          && (plan.pairs[k].reg == plan.pairs[m].reg ==>
                Apart(plan.pairs[k].push, plan.pairs[k].pop, plan.pairs[m].push, plan.pairs[m].pop)))
    && (forall k, m :: 0 <= k < |plan.proms| && 0 <= m < |plan.pairs| && plan.proms[k].reg == plan.pairs[m].reg ==>
          Apart(plan.proms[k].first, plan.proms[k].last, plan.pairs[m].push, plan.pairs[m].pop))
  }

  // ---------- the replay ----------

  /** Index of the promotion of `off`, or |proms|. */
  function FindProm(proms: seq<Prom>, off: int): (k: nat)
    ensures k <= |proms|
    ensures k < |proms| ==> proms[k].off == off
    ensures forall i :: 0 <= i < k ==> proms[i].off != off
  {
    if proms == [] then 0 else if proms[0].off == off then 0
    else
      var k := FindProm(proms[1..], off);
      assert forall i :: 1 <= i < 1 + k ==> proms[i] == proms[1..][i - 1];
      1 + k
  }

  /** Index of the pair that has an end at position i, or |pairs|. */
  function FindPair(pairs: seq<Pair>, i: int): (k: nat)
    ensures k <= |pairs|
    ensures k < |pairs| ==> pairs[k].push == i || pairs[k].pop == i
    ensures forall j :: 0 <= j < k ==> pairs[j].push != i && pairs[j].pop != i
  {
    if pairs == [] then 0 else if pairs[0].push == i || pairs[0].pop == i then 0
    else
      var k := FindPair(pairs[1..], i);
      assert forall j :: 1 <= j < 1 + k ==> pairs[j] == pairs[1..][j - 1];
      1 + k
  }

  /** The extra registers, and one more that keeps the list even: V5 on x64, where V0 is RET, and V0 elsewhere. */
  function PadReg(arch: Arch): Reg {
    if arch == X64 then V5 else V0
  }

  function Extended(arch: Arch, rs: seq<Reg>, ext: seq<Reg>): seq<Reg> {
    var all := rs + ext;
    if |all| % 2 == 1 then all + [PadReg(arch)] else all
  }

  /** What position i of the record is replayed as. */
  function Rewrite(arch: Arch, plan: Plan, op: Op, i: int): Op {
    var q := FindPair(plan.pairs, i);
    if op.Push? && q < |plan.pairs| then
      if op.reg != plan.pairs[q].reg then Mov(plan.pairs[q].reg, op.reg) else Skip
    else if op.Pop? && q < |plan.pairs| then
      if op.reg != plan.pairs[q].reg then Mov(op.reg, plan.pairs[q].reg) else Skip
    else if op.Load? && op.base == FP && FindProm(plan.proms, op.off) < |plan.proms| then
      var r := plan.proms[FindProm(plan.proms, op.off)].reg;
      if op.dest != r then Mov(op.dest, r) else Skip
    else if op.Store? && op.base == FP && FindProm(plan.proms, op.off) < |plan.proms| then
      Mov(plan.proms[FindProm(plan.proms, op.off)].reg, op.src)
    else if op.Prologue? && plan.ext != [] then Prologue(op.size, Extended(arch, op.saved, plan.ext))
    else if op.Epilogue? && plan.ext != [] then Epilogue(Extended(arch, op.saved, plan.ext), op.size)
    else op
  }

  /** The replay, one entry per recorded op; an op that is dropped leaves a Skip behind (module Compaction
      removes it). */
  function Replayed(arch: Arch, plan: Plan, ops: seq<Op>): (out: seq<Op>)
    ensures |out| == |ops|
    ensures forall i :: 0 <= i < |ops| ==> out[i] == Rewrite(arch, plan, ops[i], i)
  {
    seq(|ops|, i requires 0 <= i < |ops| => Rewrite(arch, plan, ops[i], i))
  }
}
