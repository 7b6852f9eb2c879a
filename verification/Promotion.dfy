/** The replay under any valid plan does what the record does: a lockstep simulation over whole runs. */
module Promotion {
  import opened VRegs
  import opened Machine
  import opened Plans

  /** What is known about the recorded run: promoted slots not stored yet, borrowed registers whose recorded
      value the replay has overwritten, and for each stack entry the position of the push that made it. */
  datatype Ghost = Ghost(unset: set<int>, dirty: set<Reg>, origin: seq<int>)

  predicate Promoted(plan: Plan, off: int) {
    FindProm(plan.proms, off) < |plan.proms|
  }

  predicate Virtual(plan: Plan, i: int) {
    FindPair(plan.pairs, i) < |plan.pairs|
  }

  function PairReg(plan: Plan, i: int): Reg
    requires Virtual(plan, i)
  {
    plan.pairs[FindPair(plan.pairs, i)].reg
  }

  function Start(plan: Plan): Ghost {
    Ghost(set k | 0 <= k < |plan.proms| :: plan.proms[k].off, {}, [])
  }

  /** A virtual push of r overwrites a borrowed register, unless it is r itself. */
  function Borrows(plan: Plan, pc: nat, r: Reg, dirty: set<Reg>): set<Reg>
    requires Virtual(plan, pc)
  {
    if IsBorrowed(PairReg(plan, pc)) && PairReg(plan, pc) != r then dirty + {PairReg(plan, pc)} else dirty
  }

  /** Bookkeeping for the op at `pc`, which has just been found not to halt. */
  function Track(plan: Plan, ops: seq<Op>, pc: nat, g: Ghost): Ghost
    requires pc < |ops|
  {
    match ops[pc]
    case Load(d, _, _) => g.(dirty := g.dirty - {d})
    case Store(base, off, _) => if base == FP then g.(unset := g.unset - {off}) else g
    case Push(r) =>
      Ghost(g.unset, if Virtual(plan, pc) then Borrows(plan, pc, r, g.dirty) else g.dirty, g.origin + [pc])
    case Pop(r) => Ghost(g.unset, g.dirty - {r}, if g.origin == [] then [] else g.origin[..|g.origin| - 1])
    case Call(_, _) => g.(dirty := {})
    case Compute(_, d, _, _) => g.(dirty := g.dirty - {d})
    case _ => g
  }

  predicate Clean(g: Ghost, o: Opd) {
    o.R? ==> o.reg !in g.dirty
  }

  /** The op at `pc` reads no promoted slot before its first store and no borrowed register that is dead. */
  predicate Disciplined(ops: seq<Op>, pc: nat, g: Ghost)
    requires pc < |ops|
  {
    match ops[pc]
    case Load(_, base, off) => base !in g.dirty && (base == FP ==> off !in g.unset)
    case Store(base, _, src) => base !in g.dirty && src !in g.dirty
    case Push(r) => r !in g.dirty
    case Call(_, a) => Clean(g, a)
    case Syscall(_, a) => Clean(g, a)
    case PrepareCall(args) => forall k :: 0 <= k < |args| ==> Clean(g, args[k])
    case JmpIndirect(r) => r !in g.dirty
    case Compute(_, _, b, c) => Clean(g, b) && Clean(g, c)
    case Effect(_, a, b, c) => Clean(g, a) && Clean(g, b) && Clean(g, c)
    case _ => true
  }

  /** The first n steps of the recorded run are all disciplined. */
  predicate DisciplinedRun(env: Env, plan: Plan, ops: seq<Op>, s: State, g: Ghost, n: nat)
    decreases n
  {
    n == 0 || Halted(ops, s) ||
    (Disciplined(ops, s.pc, g) && DisciplinedRun(env, plan, ops, Step(env, ops, s), Track(plan, ops, s.pc, g), n - 1))
  }

  function TrackRun(env: Env, plan: Plan, ops: seq<Op>, s: State, g: Ghost, n: nat): Ghost
    decreases n
  {
    if n == 0 || Halted(ops, s) then g
    else TrackRun(env, plan, ops, Step(env, ops, s), Track(plan, ops, s.pc, g), n - 1)
  }

  // ---------- the simulation relation ----------

  ghost predicate Pooled(plan: Plan, r: Reg) {
    IsSaved(r) &&
    ((exists k :: 0 <= k < |plan.proms| && plan.proms[k].reg == r) ||
     (exists k :: 0 <= k < |plan.pairs| && plan.pairs[k].reg == r))
  }

  ghost predicate Hidden(env: Env, plan: Plan, dirty: set<Reg>, p: int) {
    exists r :: (Pooled(plan, r) || r in dirty) && Phys(env.arch, r) == p
  }

  /** Outside the pool and the dirty registers the two register files are equal. */
  ghost predicate Agree(env: Env, plan: Plan, dirty: set<Reg>, x: int -> Word, y: int -> Word) {
    forall p :: !Hidden(env, plan, dirty, p) ==> x(p) == y(p)
  }

  ghost predicate DirtyFits(env: Env, dirty: set<Reg>) {
    forall r :: r in dirty ==> env.arch == Arm64 && IsBorrowed(r)
  }

  /** Unpromoted slots are equal; a promoted slot that has been stored lives in its register while the run is
      inside its interval. */
  ghost predicate SlotsFit(env: Env, plan: Plan, pc: nat, x: int -> Word, y: int -> Word, unset: set<int>,
      regs: int -> Word) {
    && (forall off :: !Promoted(plan, off) ==> x(off) == y(off))
    && (forall k :: 0 <= k < |plan.proms| ==> SlotFits(env, plan.proms[k], pc, x, unset, regs))
  }

  predicate SlotFits(env: Env, pr: Prom, pc: nat, x: int -> Word, unset: set<int>, regs: int -> Word) {
    pr.off in unset || (pr.first <= pc && (pc <= pr.last ==> Get(env, regs, pr.reg) == x(pr.off)))
  }

  /** The recorded stack without the entries whose push is virtual. */
  function Kept(plan: Plan, vals: seq<Word>, origin: seq<int>): seq<Word>
    requires |vals| == |origin|
  {
    if vals == [] then []
    else
      var n := |vals| - 1;
      Kept(plan, vals[..n], origin[..n]) + (if Virtual(plan, origin[n]) then [] else [vals[n]])
  }

  predicate Active(pq: Pair, pc: int) {
    pq.push < pc <= pq.pop
  }

  /** A virtual entry with value v belongs to an active pair, and its value is in the pair's register. */
  predicate EntryFits(env: Env, plan: Plan, pc: nat, from: int, v: Word, regs: int -> Word) {
    Virtual(plan, from) ==>
      var pq := plan.pairs[FindPair(plan.pairs, from)];
      from == pq.push && Active(pq, pc) && Get(env, regs, pq.reg) == v
  }

  /** The entry of an active pair lies exactly as deep as the static count says. */
  predicate PairFits(ops: seq<Op>, pq: Pair, pc: nat, origin: seq<int>) {
    Active(pq, pc) && 0 <= pq.push && pq.pop < |ops| ==>
      var d := Nest(ops, pq.push, pc);
      0 <= d < |origin| && origin[|origin| - 1 - d] == pq.push
  }

  predicate Once(plan: Plan, origin: seq<int>) {
    forall k, m :: 0 <= k < m < |origin| && Virtual(plan, origin[k]) ==> origin[k] != origin[m]
  }

  ghost predicate StackFits(env: Env, plan: Plan, ops: seq<Op>, pc: nat, x: seq<Word>, y: seq<Word>, origin: seq<int>,
      regs: int -> Word) {
    && |origin| == |x|
    && y == Kept(plan, x, origin)
    && (forall k :: 0 <= k < |origin| ==> EntryFits(env, plan, pc, origin[k], x[k], regs))
    && (forall q :: 0 <= q < |plan.pairs| ==> PairFits(ops, plan.pairs[q], pc, origin))
    && Once(plan, origin)
  }

  /** `vs` holds the values the registers `rs` had on entry. */
  predicate Holds(env: Env, entry: int -> Word, rs: seq<Reg>, vs: seq<Word>) {
    |vs| == |rs| && forall k :: 0 <= k < |rs| ==> vs[k] == Get(env, entry, rs[k])
  }

  predicate Spare(ops: seq<Op>, r: Reg) {
    IsSaved(r) && Unused(ops, r) && !(r.S5? && HasCall(ops))
  }

  /** Spare saved registers have the same value in both register files. */
  ghost predicate SpareSame(env: Env, ops: seq<Op>, x: int -> Word, y: int -> Word) {
    forall r :: Spare(ops, r) ==> Get(env, x, r) == Get(env, y, r)
  }

  ghost predicate Inside(env: Env, plan: Plan, ops: seq<Op>, entry: int -> Word, a: State, g: Ghost, b: State)
    requires |ops| > 0 && ops[0].Prologue?
  {
    && a.pc == b.pc && a.pc > 0 && a.world == b.world
    && DirtyFits(env, g.dirty)
    && Agree(env, plan, g.dirty, a.regs, b.regs)
    && SlotsFit(env, plan, a.pc, a.slots, b.slots, g.unset, b.regs)
    && StackFits(env, plan, ops, a.pc, a.stack, b.stack, g.origin, b.regs)
    && SpareSame(env, ops, a.regs, entry)
    && Holds(env, entry, ops[0].saved, a.saved)
    && Holds(env, entry, Rewrite(env.arch, plan, ops[0], 0).saved, b.saved)
  }

  /** Both runs have returned: every register except dead borrowed ones and the pad is equal, and every register of
      the recorded save list and every saved register the body never names has the value it had on entry. */
  ghost predicate Home(env: Env, plan: Plan, ops: seq<Op>, entry: int -> Word, a: State, g: Ghost, b: State)
    requires |ops| > 0 && ops[0].Prologue?
  {
    && a.world == b.world && DirtyFits(env, g.dirty)
    && (forall off :: !Promoted(plan, off) ==> a.slots(off) == b.slots(off))
    && (forall p :: Exposed(env, plan, g.dirty, p) ==> a.regs(p) == b.regs(p))
    && (forall r :: r in ops[0].saved || Spare(ops, r) ==>
          Get(env, a.regs, r) == Get(env, entry, r) && Get(env, b.regs, r) == Get(env, entry, r))
  }

  /** Neither a dead borrowed register nor the pad of an extended save list. */
  ghost predicate Exposed(env: Env, plan: Plan, dirty: set<Reg>, p: int) {
    && (forall r :: r in dirty ==> Phys(env.arch, r) != p)
    && (plan.ext != [] ==> p != Phys(env.arch, PadReg(env.arch)))
  }

  /** Accesses the machine does not model stop both programs at the same position. */
  ghost predicate Sim(env: Env, plan: Plan, ops: seq<Op>, entry: int -> Word, a: State, g: Ghost, b: State)
    requires |ops| > 0 && ops[0].Prologue?
  {
    && a.status == b.status && a.pc == b.pc
    && (a.status == Returned ==> Home(env, plan, ops, entry, a, g, b))
    && (a.status == Running || a.status == Left ==> Inside(env, plan, ops, entry, a, g, b))
  }

  // ---------- alignment of the two programs ----------

  lemma FindPromIs(proms: seq<Prom>, k: int)
    requires 0 <= k < |proms| && forall i, j :: 0 <= i < j < |proms| ==> proms[i].off != proms[j].off
    ensures FindProm(proms, proms[k].off) == k
  {
  }

  lemma FindPairIs(arch: Arch, ops: seq<Op>, plan: Plan, k: int)
    requires ValidPlan(arch, ops, plan) && 0 <= k < |plan.pairs|
    ensures FindPair(plan.pairs, plan.pairs[k].push) == k
    ensures FindPair(plan.pairs, plan.pairs[k].pop) == k
  {
    forall j | 0 <= j < |plan.pairs|
      ensures plan.pairs[j].push != plan.pairs[k].pop && plan.pairs[j].pop != plan.pairs[k].push
    {
      assert ValidPair(arch, ops, plan.ext, plan.pairs[j]) && ValidPair(arch, ops, plan.ext, plan.pairs[k]);
    }
  }

  /** Labels keep their positions, so every jump lands at the same position in both programs. */
  lemma LabelsSurvive(arch: Arch, plan: Plan, op: Op, i: int, name: string)
    ensures Rewrite(arch, plan, op, i) == Label(name) <==> op == Label(name)
  {
  }

  lemma SameLabels(arch: Arch, plan: Plan, ops: seq<Op>, name: string)
    ensures FindLabel(Replayed(arch, plan, ops), name) == FindLabel(ops, name)
  {
    var out := Replayed(arch, plan, ops);
    hide Rewrite, Replayed, FindLabel;
    forall t ensures IsLabel(out, t, name) == IsLabel(ops, t, name) {
      if 0 <= t < |ops| { LabelsSurvive(arch, plan, ops[t], t, name); }
    }
  }

  // ---------- where control may go ----------

  /** Moves the machine can make from position pc without halting. */
  predicate Moves(ops: seq<Op>, pc: int, to: int)
    requires 0 <= pc < |ops|
  {
    || to == pc + 1
    || (0 <= to < |ops| && ops[pc].Jump? && ops[to] == Label(ops[pc].target))
    || (0 <= to < |ops| && ops[pc].JmpIndirect? && ops[to].Label?)
  }

  /** No run that leaves a closed interval enters it again. */
  lemma NeverBack(ops: seq<Op>, first: int, last: int, pc: int, to: int)
    requires Closed(ops, first, last) && first <= last && 0 <= pc < |ops| && Moves(ops, pc, to)
    requires first <= pc
    ensures first <= to && (to <= last ==> pc <= last)
  {
    if to != pc + 1 && ops[pc].Jump? && to < pc {
      assert BackEdge(ops, to, pc);
    }
  }

  lemma ControlIsOutside(arch: Arch, ops: seq<Op>, ext: seq<Reg>, pq: Pair, pc: int)
    requires ValidPair(arch, ops, ext, pq) && 0 <= pc < |ops| && Control(ops[pc])
    ensures !Active(pq, pc)
  {
  }

  /** Control can neither leave nor enter a rewritten region except by falling through. */
  lemma RegionIsStraight(arch: Arch, ops: seq<Op>, ext: seq<Reg>, pq: Pair, pc: int, to: int)
    requires ValidPair(arch, ops, ext, pq) && 0 <= pc < |ops| && Moves(ops, pc, to)
    requires to != pc + 1
    ensures !Active(pq, pc) && !Active(pq, to)
  {
    assert Control(ops[pc]) && Control(ops[to]);
  }

  // ---------- registers ----------

  lemma Visible(env: Env, plan: Plan, dirty: set<Reg>, x: int -> Word, y: int -> Word, r: Reg)
    requires Agree(env, plan, dirty, x, y) && DirtyFits(env, dirty)
    requires !Pooled(plan, r) && r !in dirty
    ensures Get(env, x, r) == Get(env, y, r)
  {
    if q :| (Pooled(plan, q) || q in dirty) && Phys(env.arch, q) == Phys(env.arch, r) {
      UnaliasedIsAlone(env.arch, q, r);
    }
  }

  lemma PooledIsUsable(arch: Arch, ops: seq<Op>, plan: Plan, r: Reg)
    requires ValidPlan(arch, ops, plan) && Pooled(plan, r)
    ensures Usable(arch, ops, plan.ext, r) && Spare(ops, r)
  {
    if k :| 0 <= k < |plan.proms| && plan.proms[k].reg == r {
      assert ValidProm(arch, ops, plan.ext, plan.proms[k]);
    } else {
      var k :| 0 <= k < |plan.pairs| && plan.pairs[k].reg == r;
      assert ValidPair(arch, ops, plan.ext, plan.pairs[k]);
    }
  }

  /** A register some op of the record names is never in the pool. */
  lemma NamedIsFree(arch: Arch, ops: seq<Op>, plan: Plan, i: int, r: Reg)
    requires ValidPlan(arch, ops, plan) && 0 <= i < |ops|
    requires Mentions(ops[i], r) || !IsSaved(r)
    ensures !Pooled(plan, r)
  {
    if Pooled(plan, r) {
      PooledIsUsable(arch, ops, plan, r);
      assert false;
    }
  }

  lemma SameVal(env: Env, ops: seq<Op>, plan: Plan, g: Ghost, x: int -> Word, y: int -> Word, i: int, o: Opd)
    requires ValidPlan(env.arch, ops, plan) && 0 <= i < |ops|
    requires Agree(env, plan, g.dirty, x, y) && DirtyFits(env, g.dirty)
    requires Clean(g, o) && (o.R? ==> Mentions(ops[i], o.reg) || !IsSaved(o.reg))
    ensures Val(env, x, o) == Val(env, y, o)
  {
    if o.R? {
      NamedIsFree(env.arch, ops, plan, i, o.reg);
      Visible(env, plan, g.dirty, x, y, o.reg);
    }
  }

  /** Writing the same value to the same free register keeps agreement, and makes that register clean. */
  lemma SetAgrees(env: Env, plan: Plan, dirty: set<Reg>, x: int -> Word, y: int -> Word, r: Reg, v: Word)
    requires Agree(env, plan, dirty, x, y)
    ensures Agree(env, plan, dirty - {r}, Set(env, x, r, v), Set(env, y, r, v))
  {
    forall p | !Hidden(env, plan, dirty - {r}, p)
      ensures Set(env, x, r, v)(p) == Set(env, y, r, v)(p)
    {
      if p != Phys(env.arch, r) {
        assert !Hidden(env, plan, dirty, p);
      }
    }
  }

  // ---------- one step ----------

  /** Every register the plan relies on at pc keeps its value from y to z in the replay. */
  ghost predicate KeepsPlan(env: Env, plan: Plan, pc: int, y: int -> Word, z: int -> Word) {
    && (forall r :: Pooled(plan, r) ==> Get(env, z, r) == Get(env, y, r))
    && KeepsPairs(env, plan, pc, y, z)
  }

  predicate KeepsPairs(env: Env, plan: Plan, pc: int, y: int -> Word, z: int -> Word) {
    forall q :: 0 <= q < |plan.pairs| && plan.pairs[q].push < pc < plan.pairs[q].pop ==>
      Get(env, z, plan.pairs[q].reg) == Get(env, y, plan.pairs[q].reg)
  }

  /** A slot the step does not touch still fits. */
  lemma SlotStays(env: Env, ops: seq<Op>, ext: seq<Reg>, pr: Prom, pc: nat, to: nat,
                  x: int -> Word, x': int -> Word, unset: set<int>, unset': set<int>, y: int -> Word, z: int -> Word)
    requires ValidProm(env.arch, ops, ext, pr) && SlotFits(env, pr, pc, x, unset, y)
    requires pc < |ops| && Moves(ops, pc, to)
    requires x'(pr.off) == x(pr.off) && (pr.off in unset ==> pr.off in unset')
    requires Get(env, z, pr.reg) == Get(env, y, pr.reg)
    ensures SlotFits(env, pr, to, x', unset', z)
  {
    if pr.off !in unset' {
      NeverBack(ops, pr.first, pr.last, pc, to);
    }
  }

  lemma EntryStays(env: Env, plan: Plan, ops: seq<Op>, pc: nat, to: nat, from: int, v: Word, y: int -> Word,
      z: int -> Word)
    requires Virtual(plan, from) ==> ValidPair(env.arch, ops, plan.ext, plan.pairs[FindPair(plan.pairs, from)])
    requires EntryFits(env, plan, pc, from, v, y)
    requires pc < |ops| && Moves(ops, pc, to) && !ops[pc].Pop?
    requires KeepsPairs(env, plan, pc, y, z)
    ensures EntryFits(env, plan, to, from, v, z)
  {
    if Virtual(plan, from) {
      var pq := plan.pairs[FindPair(plan.pairs, from)];
      if to != pc + 1 {
        RegionIsStraight(env.arch, ops, plan.ext, pq, pc, to);
      }
    }
  }

  lemma PairStays(arch: Arch, ops: seq<Op>, ext: seq<Reg>, pq: Pair, pc: nat, to: nat, origin: seq<int>)
    requires ValidPair(arch, ops, ext, pq) && PairFits(ops, pq, pc, origin)
    requires pc < |ops| && Moves(ops, pc, to) && !ops[pc].Push? && !ops[pc].Pop?
    ensures PairFits(ops, pq, to, origin)
  {
    if to != pc + 1 {
      RegionIsStraight(arch, ops, ext, pq, pc, to);
    }
  }

  /** A step that leaves the stack alone keeps the stack relation. */
  lemma StackStays(env: Env, plan: Plan, ops: seq<Op>, pc: nat, to: nat, x: seq<Word>, y: seq<Word>, origin: seq<int>,
                   regs: int -> Word, regs': int -> Word)
    requires forall q :: 0 <= q < |plan.pairs| ==> ValidPair(env.arch, ops, plan.ext, plan.pairs[q])
    requires StackFits(env, plan, ops, pc, x, y, origin, regs)
    requires pc < |ops| && Moves(ops, pc, to) && !ops[pc].Push? && !ops[pc].Pop?
    requires KeepsPairs(env, plan, pc, regs, regs')
    ensures StackFits(env, plan, ops, to, x, y, origin, regs')
  {
    forall k | 0 <= k < |origin|
      ensures EntryFits(env, plan, to, origin[k], x[k], regs')
    {
      EntryStays(env, plan, ops, pc, to, origin[k], x[k], regs, regs');
    }
    forall q | 0 <= q < |plan.pairs|
      ensures PairFits(ops, plan.pairs[q], to, origin)
    {
      PairStays(env.arch, ops, plan.ext, plan.pairs[q], pc, to, origin);
    }
  }

  /** The slot relation survives a step that touches no promoted slot. */
  lemma SlotsStay(env: Env, plan: Plan, ops: seq<Op>, pc: nat, to: nat, x: int -> Word, x': int -> Word,
      y': int -> Word,
                  unset: set<int>, unset': set<int>, regs: int -> Word, regs': int -> Word)
    requires ValidPlan(env.arch, ops, plan)
    requires forall k :: 0 <= k < |plan.proms| ==> SlotFits(env, plan.proms[k], pc, x, unset, regs)
    requires pc < |ops| && Moves(ops, pc, to)
    requires forall off :: !Promoted(plan, off) ==> x'(off) == y'(off)
    requires forall off :: Promoted(plan, off) ==> x'(off) == x(off) && (off in unset ==> off in unset')
    requires KeepsPlan(env, plan, pc, regs, regs')
    ensures SlotsFit(env, plan, to, x', y', unset', regs')
  {
    forall k | 0 <= k < |plan.proms|
      ensures SlotFits(env, plan.proms[k], to, x', unset', regs')
    {
      FindPromIs(plan.proms, k);
      assert ValidProm(env.arch, ops, plan.ext, plan.proms[k]) && Pooled(plan, plan.proms[k].reg);
      SlotStays(env, ops, plan.ext, plan.proms[k], pc, to, x, x', unset, unset', regs, regs');
    }
  }

  /** Both programs are about to execute position a.pc of a disciplined recorded run. */
  ghost predicate Ready(env: Env, plan: Plan, ops: seq<Op>, entry: int -> Word, a: State, g: Ghost, b: State) {
    && WellFormed(ops) && ValidPlan(env.arch, ops, plan) && ViewFits(env, ops)
    && a.status == Running && b.status == Running && a.pc < |ops|
    && Inside(env, plan, ops, entry, a, g, b)
    && Disciplined(ops, a.pc, g)
  }

  ghost predicate Stepped(env: Env, plan: Plan, ops: seq<Op>, entry: int -> Word, a: State, g: Ghost, b: State)
    requires |ops| > 0 && ops[0].Prologue?
    requires a.status == Running && b.status == Running && a.pc < |ops| && b.pc < |ops|
  {
    Sim(env, plan, ops, entry, Step(env, ops, a), Track(plan, ops, a.pc, g),
        Step(env, Replayed(env.arch, plan, ops), b))
  }

  lemma Conclude(env: Env, plan: Plan, ops: seq<Op>, entry: int -> Word, a: State, g: Ghost, b: State, a': State,
      g': Ghost, b': State)
    requires |ops| > 0 && ops[0].Prologue? && a.status == Running && b.status == Running && a.pc < |ops| && b.pc < |ops|
    requires Step(env, ops, a) == a' && Track(plan, ops, a.pc, g) == g'
    requires Step(env, Replayed(env.arch, plan, ops), b) == b'
    requires a'.status == Running && b'.status == Running && Inside(env, plan, ops, entry, a', g', b')
    ensures Stepped(env, plan, ops, entry, a, g, b)
  {
  }

  /** A step that changes registers and the world but neither stack nor slots. */
  lemma PlainStep(env: Env, plan: Plan, ops: seq<Op>, entry: int -> Word, a: State, g: Ghost, b: State, to: nat,
                  x: int -> Word, y: int -> Word, w: World, dirty: set<Reg>)
    requires Ready(env, plan, ops, entry, a, g, b) && !ops[a.pc].Push? && !ops[a.pc].Pop?
    requires Moves(ops, a.pc, to) && to > 0
    requires DirtyFits(env, dirty) && Agree(env, plan, dirty, x, y)
    requires KeepsPlan(env, plan, a.pc, b.regs, y) && SpareSame(env, ops, x, entry)
    ensures Inside(env, plan, ops, entry, a.(pc := to, regs := x, world := w), g.(dirty := dirty),
      b.(pc := to, regs := y, world := w))
  {
    SlotsStay(env, plan, ops, a.pc, to, a.slots, a.slots, b.slots, g.unset, g.unset, b.regs, y);
    StackStays(env, plan, ops, a.pc, to, a.stack, b.stack, g.origin, b.regs, y);
  }

  /** Writing a register the current op names disturbs neither the plan nor the spare registers. */
  lemma SetKeeps(env: Env, plan: Plan, ops: seq<Op>, pc: nat, x: int -> Word, r: Reg, v: Word)
    requires ValidPlan(env.arch, ops, plan) && pc < |ops| && Mentions(ops[pc], r)
    ensures KeepsPlan(env, plan, pc, x, Set(env, x, r, v)) && SpareSame(env, ops, Set(env, x, r, v), x)
  {
    forall q | Spare(ops, q)
      ensures Get(env, Set(env, x, r, v), q) == Get(env, x, q)
    {
      if Phys(env.arch, q) == Phys(env.arch, r) { UnaliasedIsAlone(env.arch, q, r); }
    }
    forall q | Pooled(plan, q)
      ensures Get(env, Set(env, x, r, v), q) == Get(env, x, q)
    {
      PooledIsUsable(env.arch, ops, plan, q);
    }
    forall q | 0 <= q < |plan.pairs| && plan.pairs[q].push < pc < plan.pairs[q].pop
      ensures Get(env, Set(env, x, r, v), plan.pairs[q].reg) == Get(env, x, plan.pairs[q].reg)
    {
      assert ValidPair(env.arch, ops, plan.ext, plan.pairs[q]);
      if Phys(env.arch, plan.pairs[q].reg) == Phys(env.arch, r) { UnaliasedIsAlone(env.arch, plan.pairs[q].reg, r); }
    }
  }

  /** Both programs write v to a register the op names, and w to the world. */
  lemma WriteStep(env: Env, plan: Plan, ops: seq<Op>, entry: int -> Word, a: State, g: Ghost, b: State, d: Reg,
      v: Word, w: World)
    requires Ready(env, plan, ops, entry, a, g, b) && Mentions(ops[a.pc], d) && !ops[a.pc].Push? && !ops[a.pc].Pop?
    ensures Inside(env, plan, ops, entry, a.(pc := a.pc + 1, regs := Set(env, a.regs, d, v), world := w),
      g.(dirty := g.dirty - {d}),
                   b.(pc := a.pc + 1, regs := Set(env, b.regs, d, v), world := w))
  {
    hide StackFits, SlotsFit, Agree, Holds;
    SetAgrees(env, plan, g.dirty, a.regs, b.regs, d, v);
    SetKeeps(env, plan, ops, a.pc, a.regs, d, v);
    SetKeeps(env, plan, ops, a.pc, b.regs, d, v);
    PlainStep(env, plan, ops, entry, a, g, b, a.pc + 1, Set(env, a.regs, d, v), Set(env, b.regs, d, v), w,
      g.dirty - {d});
  }

  lemma StepCompute(env: Env, plan: Plan, ops: seq<Op>, entry: int -> Word, a: State, g: Ghost, b: State)
    requires Ready(env, plan, ops, entry, a, g, b) && ops[a.pc].Compute?
    ensures Stepped(env, plan, ops, entry, a, g, b)
  {
    hide StackFits, SlotsFit, Agree, SpareSame, Holds;
    var op := ops[a.pc];
    SameVal(env, ops, plan, g, a.regs, b.regs, a.pc, op.b);
    SameVal(env, ops, plan, g, a.regs, b.regs, a.pc, op.c);
    var x, y := Val(env, a.regs, op.b), Val(env, a.regs, op.c);
    var v := if op.code == RC_MOV then x else env.sem.value(op.code, x, y, a.world);
    var w := if op.code == RC_MOV then a.world else env.sem.after(op.code, x, y, a.world);
    ShapeCompute(env, ops, a, x, y);
    ShapeCompute(env, Replayed(env.arch, plan, ops), b, x, y);
    WriteStep(env, plan, ops, entry, a, g, b, op.dest, v, w);
  }

  lemma ShapeCompute(env: Env, prog: seq<Op>, s: State, x: Word, y: Word)
    requires s.status == Running && s.pc < |prog| && prog[s.pc].Compute?
    requires Val(env, s.regs, prog[s.pc].b) == x && Val(env, s.regs, prog[s.pc].c) == y
    ensures
      var op := prog[s.pc];
      Step(env, prog, s) == s.(pc := s.pc + 1,
        regs := Set(env, s.regs, op.dest, if op.code == RC_MOV then x else env.sem.value(op.code, x, y, s.world)),
        world := if op.code == RC_MOV then s.world else env.sem.after(op.code, x, y, s.world))
  {
  }

  lemma StepEffect(env: Env, plan: Plan, ops: seq<Op>, entry: int -> Word, a: State, g: Ghost, b: State)
    requires Ready(env, plan, ops, entry, a, g, b)
    requires (ops[a.pc].Effect? || ops[a.pc].Label? || ops[a.pc].Nop? || ops[a.pc].Skip?)
    ensures Stepped(env, plan, ops, entry, a, g, b)
  {
    hide StackFits, SlotsFit, Agree, SpareSame, Holds;
    var op := ops[a.pc];
    var x, y, z := Num(0), Num(0), Num(0);
    if op.Effect? {
      SameVal(env, ops, plan, g, a.regs, b.regs, a.pc, op.a);
      SameVal(env, ops, plan, g, a.regs, b.regs, a.pc, op.b);
      SameVal(env, ops, plan, g, a.regs, b.regs, a.pc, op.c);
      x, y, z := Val(env, a.regs, op.a), Val(env, a.regs, op.b), Val(env, a.regs, op.c);
    }
    assert Rewrite(env.arch, plan, op, a.pc) == op;
    ShapeEffect(env, ops, a, x, y, z);
    ShapeEffect(env, Replayed(env.arch, plan, ops), b, x, y, z);
    PlainStep(env, plan, ops, entry, a, g, b, a.pc + 1, a.regs, b.regs,
              if op.Effect? then env.sem.effect(op.code, x, y, z, a.world) else a.world, g.dirty);
  }

  lemma ShapeEffect(env: Env, prog: seq<Op>, s: State, x: Word, y: Word, z: Word)
    requires s.status == Running && s.pc < |prog|
    requires (prog[s.pc].Effect? || prog[s.pc].Label? || prog[s.pc].Nop? || prog[s.pc].Skip?)
    requires prog[s.pc].Effect? ==>
      Val(env, s.regs, prog[s.pc].a) == x && Val(env, s.regs, prog[s.pc].b) == y && Val(env, s.regs, prog[s.pc].c) == z
    ensures Step(env, prog, s) == s.(pc := s.pc + 1, world :=
      if prog[s.pc].Effect? then env.sem.effect(prog[s.pc].code, x, y, z, s.world) else s.world)
  {
  }

  lemma StepLoad(env: Env, plan: Plan, ops: seq<Op>, entry: int -> Word, a: State, g: Ghost, b: State)
    requires Ready(env, plan, ops, entry, a, g, b) && ops[a.pc].Load?
    requires ops[a.pc].base != FP || !Promoted(plan, ops[a.pc].off)
    ensures Stepped(env, plan, ops, entry, a, g, b)
  {
    hide StackFits, Agree, SpareSame, Holds;
    var op := ops[a.pc];
    ShapeLoad(env, ops, a);
    assert Rewrite(env.arch, plan, op, a.pc) == op;
    ShapeLoad(env, Replayed(env.arch, plan, ops), b);
    if op.base != SP {
      NamedIsFree(env.arch, ops, plan, a.pc, op.base);
      Visible(env, plan, g.dirty, a.regs, b.regs, op.base);
      WriteStep(env, plan, ops, entry, a, g, b, op.dest, Loaded(env, op, a), a.world);
    }
  }

  /** A promoted load is replayed as a move out of the slot's register. */
  lemma StepPromotedLoad(env: Env, plan: Plan, ops: seq<Op>, entry: int -> Word, a: State, g: Ghost, b: State)
    requires Ready(env, plan, ops, entry, a, g, b) && ops[a.pc].Load?
    requires ops[a.pc].base == FP && Promoted(plan, ops[a.pc].off)
    ensures Stepped(env, plan, ops, entry, a, g, b)
  {
    hide StackFits, Agree, SpareSame, Holds;
    var op := ops[a.pc];
    ShapeLoad(env, ops, a);
    var pr := plan.proms[FindProm(plan.proms, op.off)];
    assert ValidProm(env.arch, ops, plan.ext, pr) && Accesses(op, pr.off) && Mentions(op, op.dest);
    assert SlotFits(env, pr, a.pc, a.slots, g.unset, b.regs);
    assert Rewrite(env.arch, plan, op, a.pc) == Mov(op.dest, pr.reg);
    ShapeCompute(env, Replayed(env.arch, plan, ops), b, a.slots(op.off), Num(0));
    WriteStep(env, plan, ops, entry, a, g, b, op.dest, a.slots(op.off), a.world);
  }

  function Loaded(env: Env, op: Op, s: State): Word
    requires op.Load?
  {
    if op.base == FP then s.slots(op.off) else env.sem.heapLoad(Get(env, s.regs, op.base), op.off, s.world)
  }

  lemma ShapeLoad(env: Env, prog: seq<Op>, s: State)
    requires s.status == Running && s.pc < |prog| && prog[s.pc].Load?
    ensures Step(env, prog, s) ==
      if prog[s.pc].base == SP then s.(status := Faulted)
      else s.(pc := s.pc + 1, regs := Set(env, s.regs, prog[s.pc].dest, Loaded(env, prog[s.pc], s)))
  {
  }

  lemma StepStore(env: Env, plan: Plan, ops: seq<Op>, entry: int -> Word, a: State, g: Ghost, b: State)
    requires Ready(env, plan, ops, entry, a, g, b) && ops[a.pc].Store?
    requires ops[a.pc].base != FP || !Promoted(plan, ops[a.pc].off)
    ensures Stepped(env, plan, ops, entry, a, g, b)
  {
    hide StackFits, SlotsFit, Agree, SpareSame, Holds;
    var op := ops[a.pc];
    NamedIsFree(env.arch, ops, plan, a.pc, op.src);
    Visible(env, plan, g.dirty, a.regs, b.regs, op.src);
    var v := Get(env, a.regs, op.src);
    ShapeStore(env, ops, a);
    assert Rewrite(env.arch, plan, op, a.pc) == op;
    ShapeStore(env, Replayed(env.arch, plan, ops), b);
    if op.base == FP {
      SlotStore(env, plan, ops, entry, a, g, b, v, Step(env, ops, a).slots,
        Step(env, Replayed(env.arch, plan, ops), b).slots);
    } else if op.base != SP {
      NamedIsFree(env.arch, ops, plan, a.pc, op.base);
      Visible(env, plan, g.dirty, a.regs, b.regs, op.base);
      PlainStep(env, plan, ops, entry, a, g, b, a.pc + 1, a.regs, b.regs,
                env.sem.heapStore(Get(env, a.regs, op.base), op.off, v, a.world), g.dirty);
    }
  }

  /** A promoted store is replayed as a move into the slot's register. */
  lemma StepPromotedStore(env: Env, plan: Plan, ops: seq<Op>, entry: int -> Word, a: State, g: Ghost, b: State)
    requires Ready(env, plan, ops, entry, a, g, b) && ops[a.pc].Store?
    requires ops[a.pc].base == FP && Promoted(plan, ops[a.pc].off)
    ensures Stepped(env, plan, ops, entry, a, g, b)
  {
    hide StackFits, SlotsFit, Agree, SpareSame, Holds;
    var op := ops[a.pc];
    NamedIsFree(env.arch, ops, plan, a.pc, op.src);
    Visible(env, plan, g.dirty, a.regs, b.regs, op.src);
    var v := Get(env, a.regs, op.src);
    ShapeStore(env, ops, a);
    assert Rewrite(env.arch, plan, op, a.pc) == Mov(plan.proms[FindProm(plan.proms, op.off)].reg, op.src);
    ShapeCompute(env, Replayed(env.arch, plan, ops), b, v, Num(0));
    PromotedStore(env, plan, ops, entry, a, g, b, FindProm(plan.proms, op.off), v, Step(env, ops, a).slots);
  }

  lemma ShapeStore(env: Env, prog: seq<Op>, s: State)
    requires s.status == Running && s.pc < |prog| && prog[s.pc].Store?
    ensures
      var op := prog[s.pc];
      var v := Get(env, s.regs, op.src);
      Step(env, prog, s) ==
      if op.base == SP then s.(status := Faulted)
      else if op.base == FP then s.(pc := s.pc + 1, slots := Step(env, prog, s).slots)
      else s.(pc := s.pc + 1, world := env.sem.heapStore(Get(env, s.regs, op.base), op.off, v, s.world))
    ensures prog[s.pc].base == FP ==>
      forall o :: Step(env, prog, s).slots(o) == if o == prog[s.pc].off then Get(env, s.regs, prog[s.pc].src)
        else s.slots(o)
  {
  }

  /** A store to a slot that stays in memory. */
  lemma SlotStore(env: Env, plan: Plan, ops: seq<Op>, entry: int -> Word, a: State, g: Ghost, b: State, v: Word,
                  x: int -> Word, y: int -> Word)
    requires Ready(env, plan, ops, entry, a, g, b) && ops[a.pc].Store?
    requires ops[a.pc].base == FP && !Promoted(plan, ops[a.pc].off)
    requires forall o :: x(o) == if o == ops[a.pc].off then v else a.slots(o)
    requires forall o :: y(o) == if o == ops[a.pc].off then v else b.slots(o)
    ensures Inside(env, plan, ops, entry, a.(pc := a.pc + 1, slots := x), g.(unset := g.unset - {ops[a.pc].off}),
                   b.(pc := a.pc + 1, slots := y))
  {
    SlotsStay(env, plan, ops, a.pc, a.pc + 1, a.slots, x, y, g.unset, g.unset - {ops[a.pc].off}, b.regs, b.regs);
    StackStays(env, plan, ops, a.pc, a.pc + 1, a.stack, b.stack, g.origin, b.regs, b.regs);
  }

  /** After a promoted store the slot fits its register, and every other slot and active pair is as before: no other
      interval that shares the register contains this position. */
  lemma PromotedStore(env: Env, plan: Plan, ops: seq<Op>, entry: int -> Word, a: State, g: Ghost, b: State, m: nat,
      v: Word,
                      x: int -> Word)
    requires Ready(env, plan, ops, entry, a, g, b) && ops[a.pc].Store? && m < |plan.proms|
    requires ops[a.pc].base == FP && ops[a.pc].off == plan.proms[m].off
    requires forall o :: x(o) == if o == ops[a.pc].off then v else a.slots(o)
    ensures Inside(env, plan, ops, entry, a.(pc := a.pc + 1, slots := x), g.(unset := g.unset - {ops[a.pc].off}),
                   b.(pc := a.pc + 1, regs := Set(env, b.regs, plan.proms[m].reg, v), world := b.world))
  {
    var pr := plan.proms[m];
    var y := Set(env, b.regs, pr.reg, v);
    assert ValidProm(env.arch, ops, plan.ext, pr) && Accesses(ops[a.pc], pr.off) && Pooled(plan, pr.reg);
    assert Agree(env, plan, g.dirty, a.regs, y);
    forall k | 0 <= k < |plan.proms|
      ensures SlotFits(env, plan.proms[k], a.pc + 1, x, g.unset - {pr.off}, y)
    {
      assert ValidProm(env.arch, ops, plan.ext, plan.proms[k]);
      if k != m { OtherSlot(env, plan, ops, a, g, b, m, k, v, x); }
    }
    forall off | !Promoted(plan, off)
      ensures x(off) == b.slots(off)
    {
      FindPromIs(plan.proms, m);
    }
    OtherPairs(env, plan, ops, a.pc, m, v, b.regs);
    StackStays(env, plan, ops, a.pc, a.pc + 1, a.stack, b.stack, g.origin, b.regs, y);
  }

  lemma OtherSlot(env: Env, plan: Plan, ops: seq<Op>, a: State, g: Ghost, b: State, m: nat, k: nat, v: Word,
      x: int -> Word)
    requires ValidPlan(env.arch, ops, plan) && a.pc < |ops| && ops[a.pc].Store?
    requires m < |plan.proms| && k < |plan.proms| && k != m
    requires ops[a.pc].base == FP && ops[a.pc].off == plan.proms[m].off
    requires SlotFits(env, plan.proms[k], a.pc, a.slots, g.unset, b.regs)
    requires forall o :: x(o) == if o == ops[a.pc].off then v else a.slots(o)
    ensures SlotFits(env, plan.proms[k], a.pc + 1, x, g.unset - {plan.proms[m].off},
      Set(env, b.regs, plan.proms[m].reg, v))
  {
    var pr, po := plan.proms[m], plan.proms[k];
    assert ValidProm(env.arch, ops, plan.ext, pr) && ValidProm(env.arch, ops, plan.ext, po)
      && Accesses(ops[a.pc], pr.off);
    if Phys(env.arch, po.reg) == Phys(env.arch, pr.reg) {
      UnaliasedIsAlone(env.arch, po.reg, pr.reg);
    }
  }

  /** Writing a promoted slot's register inside its interval leaves the register of every active pair alone. */
  lemma OtherPairs(env: Env, plan: Plan, ops: seq<Op>, pc: nat, m: nat, v: Word, y: int -> Word)
    requires ValidPlan(env.arch, ops, plan) && m < |plan.proms| && plan.proms[m].first <= pc <= plan.proms[m].last
    ensures KeepsPairs(env, plan, pc, y, Set(env, y, plan.proms[m].reg, v))
  {
    assert ValidProm(env.arch, ops, plan.ext, plan.proms[m]);
    forall q | 0 <= q < |plan.pairs| && plan.pairs[q].push < pc < plan.pairs[q].pop
      ensures Get(env, Set(env, y, plan.proms[m].reg, v), plan.pairs[q].reg) == Get(env, y, plan.pairs[q].reg)
    {
      if Phys(env.arch, plan.pairs[q].reg) == Phys(env.arch, plan.proms[m].reg) {
        UnaliasedIsAlone(env.arch, plan.proms[m].reg, plan.pairs[q].reg);
      }
    }
  }

  // -- calls --

  lemma StepCall(env: Env, plan: Plan, ops: seq<Op>, entry: int -> Word, a: State, g: Ghost, b: State)
    requires Ready(env, plan, ops, entry, a, g, b) && ops[a.pc].Call?
    ensures Stepped(env, plan, ops, entry, a, g, b)
  {
    hide StackFits, SlotsFit, Agree, Holds;
    var op := ops[a.pc];
    assert Rewrite(env.arch, plan, op, a.pc) == op;
    SameVal(env, ops, plan, g, a.regs, b.regs, a.pc, op.arg);
    SameView(env, plan, ops, g, a.regs, b.regs);
    var v, seen := Val(env, a.regs, op.arg), Values(env, a.regs, env.view);
    ShapeCall(env, ops, a, v, seen);
    ShapeCall(env, Replayed(env.arch, plan, ops), b, v, seen);
    var out := env.sem.callRegs(op.code, v, seen, a.world);
    CallAgrees(env, plan, ops, g, a.pc, a.regs, b.regs, out);
    PlainStep(env, plan, ops, entry, a, g, b, a.pc + 1, AfterCall(env, a.regs, out), AfterCall(env, b.regs, out),
              env.sem.callWorld(op.code, v, seen, a.world), {});
  }

  lemma ShapeCall(env: Env, prog: seq<Op>, s: State, v: Word, seen: seq<Word>)
    requires s.status == Running && s.pc < |prog| && prog[s.pc].Call?
    requires Val(env, s.regs, prog[s.pc].arg) == v && Values(env, s.regs, env.view) == seen
    ensures Step(env, prog, s) == s.(pc := s.pc + 1,
      regs := AfterCall(env, s.regs, env.sem.callRegs(prog[s.pc].code, v, seen, s.world)),
      world := env.sem.callWorld(prog[s.pc].code, v, seen, s.world))
  {
  }

  /** The callee sees the same registers in both runs. */
  lemma SameView(env: Env, plan: Plan, ops: seq<Op>, g: Ghost, x: int -> Word, y: int -> Word)
    requires ValidPlan(env.arch, ops, plan) && ViewFits(env, ops)
    requires Agree(env, plan, g.dirty, x, y) && DirtyFits(env, g.dirty)
    ensures Values(env, x, env.view) == Values(env, y, env.view)
  {
    forall k | 0 <= k < |env.view|
      ensures Get(env, x, env.view[k]) == Get(env, y, env.view[k])
    {
      if Pooled(plan, env.view[k]) { PooledIsUsable(env.arch, ops, plan, env.view[k]); }
      Visible(env, plan, g.dirty, x, y, env.view[k]);
    }
  }

  /** A call leaves the pool, every active pair and every spare register alone, and overwrites all that was dirty. */
  lemma CallAgrees(env: Env, plan: Plan, ops: seq<Op>, g: Ghost, pc: nat, x: int -> Word, y: int -> Word,
      out: int -> Word)
    requires ValidPlan(env.arch, ops, plan) && pc < |ops| && ops[pc].Call?
    requires Agree(env, plan, g.dirty, x, y) && DirtyFits(env, g.dirty)
    ensures Agree(env, plan, {}, AfterCall(env, x, out), AfterCall(env, y, out))
    ensures KeepsPlan(env, plan, pc, y, AfterCall(env, y, out)) && SpareSame(env, ops, AfterCall(env, x, out), x)
  {
    assert HasCall(ops);
    forall p | KeptByCalls(env.arch, p) && !Hidden(env, plan, {}, p)
      ensures x(p) == y(p)
    {
      assert !Hidden(env, plan, g.dirty, p);
    }
    forall r | Pooled(plan, r)
      ensures KeptByCalls(env.arch, Phys(env.arch, r))
    {
      PooledIsUsable(env.arch, ops, plan, r);
    }
    forall q | 0 <= q < |plan.pairs| && plan.pairs[q].push < pc < plan.pairs[q].pop
      ensures KeptByCalls(env.arch, Phys(env.arch, plan.pairs[q].reg))
    {
      assert ValidPair(env.arch, ops, plan.ext, plan.pairs[q]) && ClobbersBorrowed(ops[pc]);
    }
  }

  lemma StepSyscall(env: Env, plan: Plan, ops: seq<Op>, entry: int -> Word, a: State, g: Ghost, b: State)
    requires Ready(env, plan, ops, entry, a, g, b) && ops[a.pc].Syscall?
    ensures Stepped(env, plan, ops, entry, a, g, b)
  {
    hide StackFits, SlotsFit, Agree, Holds;
    var op := ops[a.pc];
    assert Rewrite(env.arch, plan, op, a.pc) == op;
    SameVal(env, ops, plan, g, a.regs, b.regs, a.pc, op.arg);
    var v, seen := Val(env, a.regs, op.arg), Values(env, a.regs, SYS_REGS);
    SameSysView(env, plan, g, a.regs, b.regs);
    ShapeSyscall(env, ops, a, v, seen);
    ShapeSyscall(env, Replayed(env.arch, plan, ops), b, v, seen);
    var out := env.sem.sysRegs(op.code, v, seen, a.world);
    SysAgrees(env, plan, ops, g, a.pc, a.regs, b.regs, out);
    PlainStep(env, plan, ops, entry, a, g, b, a.pc + 1, AfterSys(env, a.regs, out), AfterSys(env, b.regs, out),
              env.sem.sysWorld(op.code, v, seen, a.world), g.dirty);
  }

  lemma ShapeSyscall(env: Env, prog: seq<Op>, s: State, v: Word, seen: seq<Word>)
    requires s.status == Running && s.pc < |prog| && prog[s.pc].Syscall?
    requires Val(env, s.regs, prog[s.pc].arg) == v && Values(env, s.regs, SYS_REGS) == seen
    ensures Step(env, prog, s) == s.(pc := s.pc + 1,
      regs := AfterSys(env, s.regs, env.sem.sysRegs(prog[s.pc].code, v, seen, s.world)),
      world := env.sem.sysWorld(prog[s.pc].code, v, seen, s.world))
  {
  }

  lemma SameSysView(env: Env, plan: Plan, g: Ghost, x: int -> Word, y: int -> Word)
    requires Agree(env, plan, g.dirty, x, y) && DirtyFits(env, g.dirty)
    ensures Values(env, x, SYS_REGS) == Values(env, y, SYS_REGS)
  {
    forall k | 0 <= k < |SYS_REGS|
      ensures Get(env, x, SYS_REGS[k]) == Get(env, y, SYS_REGS[k])
    {
      assert !IsSaved(SYS_REGS[k]) && !IsBorrowed(SYS_REGS[k]);
      Visible(env, plan, g.dirty, x, y, SYS_REGS[k]);
    }
  }

  lemma SysSpares(arch: Arch, r: Reg)
    requires IsSaved(r)
    ensures !WrittenBySys(arch, Phys(arch, r))
  {
  }

  lemma SysAgrees(env: Env, plan: Plan, ops: seq<Op>, g: Ghost, pc: nat, x: int -> Word, y: int -> Word,
      out: int -> Word)
    requires ValidPlan(env.arch, ops, plan) && pc < |ops| && ops[pc].Syscall?
    requires Agree(env, plan, g.dirty, x, y)
    ensures Agree(env, plan, g.dirty, AfterSys(env, x, out), AfterSys(env, y, out))
    ensures KeepsPlan(env, plan, pc, y, AfterSys(env, y, out)) && SpareSame(env, ops, AfterSys(env, x, out), x)
  {
    forall r | IsSaved(r)
      ensures Get(env, AfterSys(env, y, out), r) == Get(env, y, r)
      ensures Get(env, AfterSys(env, x, out), r) == Get(env, x, r)
    {
      SysSpares(env.arch, r);
    }
    forall q | 0 <= q < |plan.pairs| && plan.pairs[q].push < pc < plan.pairs[q].pop
      ensures IsSaved(plan.pairs[q].reg)
    {
      assert ValidPair(env.arch, ops, plan.ext, plan.pairs[q]) && ClobbersBorrowed(ops[pc]);
    }
  }

  lemma StepPrepareCall(env: Env, plan: Plan, ops: seq<Op>, entry: int -> Word, a: State, g: Ghost, b: State)
    requires Ready(env, plan, ops, entry, a, g, b) && ops[a.pc].PrepareCall?
    ensures Stepped(env, plan, ops, entry, a, g, b)
  {
    hide StackFits, SlotsFit, Agree, Holds;
    var op := ops[a.pc];
    assert Rewrite(env.arch, plan, op, a.pc) == op;
    PreparedAgrees(env, plan, ops, g, a.pc, a.regs, b.regs, op.args, 0);
    PlainStep(env, plan, ops, entry, a, g, b, a.pc + 1, Prepared(env, a.regs, op.args, 0),
      Prepared(env, b.regs, op.args, 0),
              a.world, g.dirty);
  }

  lemma {:induction false} PreparedAgrees(env: Env, plan: Plan, ops: seq<Op>, g: Ghost, pc: nat,
                                          x: int -> Word, y: int -> Word, args: seq<Opd>, i: nat)
    requires ValidPlan(env.arch, ops, plan) && WellFormed(ops) && pc < |ops| && ops[pc] == PrepareCall(args)
    requires Agree(env, plan, g.dirty, x, y) && DirtyFits(env, g.dirty)
    requires forall k :: 0 <= k < |args| ==> Clean(g, args[k])
    ensures Agree(env, plan, g.dirty, Prepared(env, x, args, i), Prepared(env, y, args, i))
    ensures KeepsPlan(env, plan, pc, y, Prepared(env, y, args, i)) && SpareSame(env, ops, Prepared(env, x, args, i), x)
    decreases |args| - i
  {
    if i < |args| && i < |CallRegs(env)| {
      SameVal(env, ops, plan, g, x, y, pc, args[i]);
      var n, v := CallRegs(env)[i], Val(env, x, args[i]);
      ArgKeeps(env, plan, ops, pc, x, i, v);
      ArgKeeps(env, plan, ops, pc, y, i, v);
      PreparedAgrees(env, plan, ops, g, pc, Put(x, n, v), Put(y, n, v), args, i + 1);
    }
  }

  lemma ArgKeeps(env: Env, plan: Plan, ops: seq<Op>, pc: nat, x: int -> Word, i: nat, v: Word)
    requires ValidPlan(env.arch, ops, plan) && pc < |ops| && ops[pc].PrepareCall? && i < |CallRegs(env)|
    ensures KeepsPlan(env, plan, pc, x, Put(x, CallRegs(env)[i], v))
    ensures SpareSame(env, ops, Put(x, CallRegs(env)[i], v), x)
  {
    forall q | IsSaved(q)
      ensures Get(env, Put(x, CallRegs(env)[i], v), q) == Get(env, x, q)
    {
      assert Phys(env.arch, q) != CallRegs(env)[i];
    }
    forall q | 0 <= q < |plan.pairs| && plan.pairs[q].push < pc < plan.pairs[q].pop
      ensures IsSaved(plan.pairs[q].reg)
    {
      assert ValidPair(env.arch, ops, plan.ext, plan.pairs[q]) && ClobbersBorrowed(ops[pc]);
    }
  }

  // -- control --

  lemma StepJump(env: Env, plan: Plan, ops: seq<Op>, entry: int -> Word, a: State, g: Ghost, b: State)
    requires Ready(env, plan, ops, entry, a, g, b) && ops[a.pc].Jump?
    ensures Stepped(env, plan, ops, entry, a, g, b)
  {
    hide StackFits, SlotsFit, Agree, SpareSame, Holds;
    var op := ops[a.pc];
    assert Rewrite(env.arch, plan, op, a.pc) == op;
    SameLabels(env.arch, plan, ops, op.target);
    ShapeJump(env, ops, a);
    ShapeJump(env, Replayed(env.arch, plan, ops), b);
    var t := FindLabel(ops, op.target);
    var to := if op.code == RC_JMP || env.sem.taken(op.code, a.world) then t else a.pc + 1;
    if to == |ops| && to == t {
      assert Inside(env, plan, ops, entry, a.(status := Left), g, b.(status := Left));
    }
    if to < |ops| || to == a.pc + 1 {
      PlainStep(env, plan, ops, entry, a, g, b, to, a.regs, b.regs, a.world, g.dirty);
    }
  }

  lemma ShapeJump(env: Env, prog: seq<Op>, s: State)
    requires s.status == Running && s.pc < |prog| && prog[s.pc].Jump?
    ensures
      var op := prog[s.pc];
      Step(env, prog, s) ==
      if op.code == RC_JMP || env.sem.taken(op.code, s.world) then
        if FindLabel(prog, op.target) < |prog| then s.(pc := FindLabel(prog, op.target)) else s.(status := Left)
      else s.(pc := s.pc + 1)
  {
  }

  lemma StepIndirect(env: Env, plan: Plan, ops: seq<Op>, entry: int -> Word, a: State, g: Ghost, b: State)
    requires Ready(env, plan, ops, entry, a, g, b) && ops[a.pc].JmpIndirect?
    ensures Stepped(env, plan, ops, entry, a, g, b)
  {
    hide StackFits, SlotsFit, Agree, SpareSame, Holds;
    var op := ops[a.pc];
    assert Rewrite(env.arch, plan, op, a.pc) == op;
    NamedIsFree(env.arch, ops, plan, a.pc, op.reg);
    Visible(env, plan, g.dirty, a.regs, b.regs, op.reg);
    var name := env.sem.landing(Get(env, a.regs, op.reg));
    SameLabels(env.arch, plan, ops, name);
    ShapeIndirect(env, ops, a, name);
    ShapeIndirect(env, Replayed(env.arch, plan, ops), b, name);
    var t := FindLabel(ops, name);
    if t < |ops| {
      PlainStep(env, plan, ops, entry, a, g, b, t, a.regs, b.regs, a.world, g.dirty);
    } else {
      assert Inside(env, plan, ops, entry, a.(status := Left), g, b.(status := Left));
    }
  }

  lemma ShapeIndirect(env: Env, prog: seq<Op>, s: State, name: string)
    requires s.status == Running && s.pc < |prog| && prog[s.pc].JmpIndirect?
    requires env.sem.landing(Get(env, s.regs, prog[s.pc].reg)) == name
    ensures Step(env, prog, s) == if FindLabel(prog, name) < |prog| then s.(pc := FindLabel(prog, name))
      else s.(status := Left)
  {
  }

  lemma StepRet(env: Env, plan: Plan, ops: seq<Op>, entry: int -> Word, a: State, g: Ghost, b: State)
    requires Ready(env, plan, ops, entry, a, g, b) && ops[a.pc].Ret?
    ensures Stepped(env, plan, ops, entry, a, g, b)
  {
    hide StackFits, SlotsFit, Agree, SpareSame, Holds;
    assert Rewrite(env.arch, plan, ops[a.pc], a.pc) == ops[a.pc];
    assert Inside(env, plan, ops, entry, a.(status := Left), g, b.(status := Left));
  }

  // -- pushes and pops --

  lemma ShapePush(env: Env, prog: seq<Op>, s: State)
    requires s.status == Running && s.pc < |prog| && prog[s.pc].Push?
    ensures Step(env, prog, s) == s.(pc := s.pc + 1, stack := s.stack + [Get(env, s.regs, prog[s.pc].reg)])
  {
  }

  lemma ShapePop(env: Env, prog: seq<Op>, s: State)
    requires s.status == Running && s.pc < |prog| && prog[s.pc].Pop?
    ensures Step(env, prog, s) ==
      if s.stack == [] then s.(status := Faulted)
      else s.(pc := s.pc + 1, regs := Set(env, s.regs, prog[s.pc].reg, s.stack[|s.stack| - 1]),
        stack := s.stack[..|s.stack| - 1])
  {
  }

  lemma ShapeSkip(env: Env, prog: seq<Op>, s: State)
    requires s.status == Running && s.pc < |prog| && prog[s.pc].Skip?
    ensures Step(env, prog, s) == s.(pc := s.pc + 1)
  {
  }

  lemma KeptPush(plan: Plan, x: seq<Word>, origin: seq<int>, v: Word, p: int)
    requires |x| == |origin|
    ensures Kept(plan, x + [v], origin + [p]) == Kept(plan, x, origin) + (if Virtual(plan, p) then [] else [v])
  {
    assert (x + [v])[..|x|] == x && (origin + [p])[..|x|] == origin;
  }

  lemma PushPair(arch: Arch, ops: seq<Op>, plan: Plan, pq: Pair, pc: nat, origin: seq<int>)
    requires ValidPair(arch, ops, plan.ext, pq) && PairFits(ops, pq, pc, origin) && pc < |ops| && ops[pc].Push?
    ensures PairFits(ops, pq, pc + 1, origin + [pc])
  {
    if Active(pq, pc) {
      var d := Nest(ops, pq.push, pc);
      assert (origin + [pc])[|origin| - 1 - d] == origin[|origin| - 1 - d];
    }
  }

  lemma PushEntry(env: Env, plan: Plan, ops: seq<Op>, pc: nat, from: int, v: Word, regs: int -> Word,
      regs': int -> Word)
    requires Virtual(plan, from) ==> ValidPair(env.arch, ops, plan.ext, plan.pairs[FindPair(plan.pairs, from)])
    requires pc < |ops| && ops[pc].Push? && EntryFits(env, plan, pc, from, v, regs)
    requires KeepsPairs(env, plan, pc, regs, regs')
    ensures EntryFits(env, plan, pc + 1, from, v, regs')
    ensures Virtual(plan, from) ==> from != pc
  {
  }

  /** Pushing: entries and pairs keep their places below the new entry. */
  lemma PushFits(env: Env, plan: Plan, ops: seq<Op>, pc: nat, x: seq<Word>, y: seq<Word>, origin: seq<int>,
                 regs: int -> Word, regs': int -> Word, v: Word)
    requires forall q :: 0 <= q < |plan.pairs| ==> ValidPair(env.arch, ops, plan.ext, plan.pairs[q])
    requires pc < |ops| && ops[pc].Push?
    requires StackFits(env, plan, ops, pc, x, y, origin, regs) && KeepsPairs(env, plan, pc, regs, regs')
    requires EntryFits(env, plan, pc + 1, pc, v, regs')
    ensures StackFits(env, plan, ops, pc + 1, x + [v], y + (if Virtual(plan, pc) then [] else [v]), origin + [pc],
      regs')
  {
    KeptPush(plan, x, origin, v, pc);
    var o', x' := origin + [pc], x + [v];
    forall k | 0 <= k < |o'|
      ensures EntryFits(env, plan, pc + 1, o'[k], x'[k], regs')
      ensures k < |origin| && Virtual(plan, o'[k]) ==> o'[k] != pc
    {
      if k < |origin| {
        PushEntry(env, plan, ops, pc, origin[k], x[k], regs, regs');
      }
    }
    forall q | 0 <= q < |plan.pairs|
      ensures PairFits(ops, plan.pairs[q], pc + 1, o')
    {
      PushPair(env.arch, ops, plan, plan.pairs[q], pc, origin);
    }
    forall k, m | 0 <= k < m < |o'| && Virtual(plan, o'[k])
      ensures o'[k] != o'[m]
    {
      if m < |origin| { assert origin[k] != origin[m]; }
    }
  }

  /** A push, seen abstractly: stack and origin grow, and the replay's stack grows unless the push is virtual. */
  lemma PushBoth(env: Env, plan: Plan, ops: seq<Op>, entry: int -> Word, a: State, g: Ghost, b: State, v: Word,
                 y: int -> Word, dirty: set<Reg>)
    requires Ready(env, plan, ops, entry, a, g, b) && ops[a.pc].Push?
    requires EntryFits(env, plan, a.pc + 1, a.pc, v, y) && KeepsPairs(env, plan, a.pc, b.regs, y)
    requires Agree(env, plan, dirty, a.regs, y) && DirtyFits(env, dirty)
    requires forall k :: 0 <= k < |plan.proms| ==> SlotFits(env, plan.proms[k], a.pc + 1, a.slots, g.unset, y)
    ensures Inside(env, plan, ops, entry, a.(pc := a.pc + 1, stack := a.stack + [v]),
      Ghost(g.unset, dirty, g.origin + [a.pc]),
                   b.(pc := a.pc + 1, regs := y, stack := b.stack + (if Virtual(plan, a.pc) then [] else [v])))
  {
    PushFits(env, plan, ops, a.pc, a.stack, b.stack, g.origin, b.regs, y, v);
  }

  lemma StepPush(env: Env, plan: Plan, ops: seq<Op>, entry: int -> Word, a: State, g: Ghost, b: State)
    requires Ready(env, plan, ops, entry, a, g, b) && ops[a.pc].Push? && !Virtual(plan, a.pc)
    ensures Stepped(env, plan, ops, entry, a, g, b)
  {
    hide StackFits, Agree, SpareSame, Holds;
    var r := ops[a.pc].reg;
    assert Rewrite(env.arch, plan, ops[a.pc], a.pc) == ops[a.pc];
    NamedIsFree(env.arch, ops, plan, a.pc, r);
    Visible(env, plan, g.dirty, a.regs, b.regs, r);
    ShapePush(env, ops, a);
    ShapePush(env, Replayed(env.arch, plan, ops), b);
    SlotsStay(env, plan, ops, a.pc, a.pc + 1, a.slots, a.slots, b.slots, g.unset, g.unset, b.regs, b.regs);
    PushBoth(env, plan, ops, entry, a, g, b, Get(env, a.regs, r), b.regs, g.dirty);
  }

  /** A virtual push becomes a move into the pair's register (or nothing, when it already is that register). */
  lemma StepVirtualPush(env: Env, plan: Plan, ops: seq<Op>, entry: int -> Word, a: State, g: Ghost, b: State)
    requires Ready(env, plan, ops, entry, a, g, b) && ops[a.pc].Push? && Virtual(plan, a.pc)
    ensures Stepped(env, plan, ops, entry, a, g, b)
  {
    hide StackFits, SlotsFit, Agree, SpareSame, Holds, ValidPlan, ViewFits;
    var r, to := ops[a.pc].reg, PairReg(plan, a.pc);
    NamedIsFree(env.arch, ops, plan, a.pc, r);
    Visible(env, plan, g.dirty, a.regs, b.regs, r);
    var v := Get(env, a.regs, r);
    ShapePush(env, ops, a);
    var y := if r == to then b.regs else Set(env, b.regs, to, v);
    VirtualPush(env, plan, ops, entry, a, g, b, v, y);
    if r == to {
      assert Rewrite(env.arch, plan, ops[a.pc], a.pc) == Skip;
      ShapeSkip(env, Replayed(env.arch, plan, ops), b);
    } else {
      assert Rewrite(env.arch, plan, ops[a.pc], a.pc) == Mov(to, r);
      ShapeCompute(env, Replayed(env.arch, plan, ops), b, v, Num(0));
    }
    Conclude(env, plan, ops, entry, a, g, b, a.(pc := a.pc + 1, stack := a.stack + [v]), Track(plan, ops, a.pc, g),
             b.(pc := a.pc + 1, regs := y));
  }

  /** The pair's register is free at the push: no interval or active pair that uses it contains this position. */
  lemma VirtualPush(env: Env, plan: Plan, ops: seq<Op>, entry: int -> Word, a: State, g: Ghost, b: State, v: Word,
      y: int -> Word)
    requires Ready(env, plan, ops, entry, a, g, b) && ops[a.pc].Push? && Virtual(plan, a.pc)
    requires v == Get(env, a.regs, ops[a.pc].reg) == Get(env, b.regs, ops[a.pc].reg)
    requires y == (if ops[a.pc].reg == PairReg(plan, a.pc) then b.regs else Set(env, b.regs, PairReg(plan, a.pc), v))
    ensures Inside(env, plan, ops, entry, a.(pc := a.pc + 1, stack := a.stack + [v]),
                   Ghost(g.unset, Borrows(plan, a.pc, ops[a.pc].reg, g.dirty), g.origin + [a.pc]),
                     b.(pc := a.pc + 1, regs := y))
  {
    hide StackFits, Agree, SpareSame, Holds;
    var q := FindPair(plan.pairs, a.pc);
    var pq := plan.pairs[q];
    assert ValidPair(env.arch, ops, plan.ext, pq);
    assert Get(env, y, pq.reg) == v;
    BorrowAgrees(env, plan, ops, a.pc, g.dirty, a.regs, b.regs, y);
    FreeAtPush(env, plan, ops, a.pc, q, v, b.regs, y, a.slots, g.unset);
    PushBoth(env, plan, ops, entry, a, g, b, v, y, Borrows(plan, a.pc, ops[a.pc].reg, g.dirty));
    assert b.stack + [] == b.stack;
  }

  lemma BorrowAgrees(env: Env, plan: Plan, ops: seq<Op>, pc: nat, dirty: set<Reg>, x: int -> Word, y: int -> Word,
      z: int -> Word)
    requires ValidPlan(env.arch, ops, plan) && pc < |ops| && ops[pc].Push? && Virtual(plan, pc)
    requires Agree(env, plan, dirty, x, y) && DirtyFits(env, dirty)
    requires forall p :: p != Phys(env.arch, PairReg(plan, pc)) ==> z(p) == y(p)
    requires ops[pc].reg == PairReg(plan, pc) ==> z == y
    ensures
      var dirty' := Borrows(plan, pc, ops[pc].reg, dirty);
      Agree(env, plan, dirty', x, z) && DirtyFits(env, dirty')
  {
    var r, dirty' := PairReg(plan, pc), Borrows(plan, pc, ops[pc].reg, dirty);
    assert ValidPair(env.arch, ops, plan.ext, plan.pairs[FindPair(plan.pairs, pc)]);
    assert Pooled(plan, r) || r in dirty' || r == ops[pc].reg;
    forall p | !Hidden(env, plan, dirty', p)
      ensures x(p) == z(p)
    {
      assert !Hidden(env, plan, dirty, p);
    }
  }

  lemma FreeAtPush(env: Env, plan: Plan, ops: seq<Op>, pc: nat, q: nat, v: Word, x: int -> Word, y: int -> Word,
                   slots: int -> Word, unset: set<int>)
    requires ValidPlan(env.arch, ops, plan) && pc < |ops| && ops[pc].Push? && q < |plan.pairs|
    requires plan.pairs[q].push == pc
    requires forall p :: p != Phys(env.arch, plan.pairs[q].reg) ==> y(p) == x(p)
    requires forall k :: 0 <= k < |plan.proms| ==> SlotFits(env, plan.proms[k], pc, slots, unset, x)
    ensures KeepsPairs(env, plan, pc, x, y)
    ensures forall k :: 0 <= k < |plan.proms| ==> SlotFits(env, plan.proms[k], pc + 1, slots, unset, y)
  {
    var pq := plan.pairs[q];
    assert ValidPair(env.arch, ops, plan.ext, pq);
    forall m | 0 <= m < |plan.pairs| && plan.pairs[m].push < pc < plan.pairs[m].pop
      ensures Get(env, y, plan.pairs[m].reg) == Get(env, x, plan.pairs[m].reg)
    {
      if Phys(env.arch, pq.reg) ==
        Phys(env.arch, plan.pairs[m].reg) { UnaliasedIsAlone(env.arch, pq.reg, plan.pairs[m].reg); }
    }
    forall k | 0 <= k < |plan.proms|
      ensures SlotFits(env, plan.proms[k], pc + 1, slots, unset, y)
    {
      assert ValidProm(env.arch, ops, plan.ext, plan.proms[k]);
      if Phys(env.arch, pq.reg) ==
        Phys(env.arch, plan.proms[k].reg) { UnaliasedIsAlone(env.arch, pq.reg, plan.proms[k].reg); }
    }
  }

  /** The static matching is the dynamic one: the top of the stack at a pop is virtual exactly when the pop is, and then
      it is the entry its own push made. */
  lemma TopMatches(env: Env, plan: Plan, ops: seq<Op>, pc: nat, x: seq<Word>, y: seq<Word>, origin: seq<int>,
      regs: int -> Word)
    requires ValidPlan(env.arch, ops, plan) && pc < |ops| && ops[pc].Pop?
    requires StackFits(env, plan, ops, pc, x, y, origin, regs)
    ensures Virtual(plan, pc) ==>
      origin != [] && plan.pairs[FindPair(plan.pairs, pc)].push == origin[|origin| - 1]
      && Virtual(plan, origin[|origin| - 1]) && FindPair(plan.pairs, origin[|origin| - 1]) == FindPair(plan.pairs, pc)
    ensures origin != [] && Virtual(plan, origin[|origin| - 1]) ==> Virtual(plan, pc)
  {
    if Virtual(plan, pc) {
      var q := FindPair(plan.pairs, pc);
      assert ValidPair(env.arch, ops, plan.ext, plan.pairs[q]) && PairFits(ops, plan.pairs[q], pc, origin);
      FindPairIs(env.arch, ops, plan, q);
    }
    if origin != [] && Virtual(plan, origin[|origin| - 1]) {
      var top := |origin| - 1;
      var q := FindPair(plan.pairs, origin[top]);
      assert EntryFits(env, plan, pc, origin[top], x[top], regs);
      assert ValidPair(env.arch, ops, plan.ext, plan.pairs[q]) && PairFits(ops, plan.pairs[q], pc, origin);
      assert Nest(ops, plan.pairs[q].push, pc) == 0;
      assert Nest(ops, plan.pairs[q].push, pc + 1) == -1;
    }
  }

  lemma PopPair(arch: Arch, ops: seq<Op>, ext: seq<Reg>, pq: Pair, pc: nat, origin: seq<int>)
    requires ValidPair(arch, ops, ext, pq) && PairFits(ops, pq, pc, origin) && pc < |ops| && ops[pc].Pop?
    requires origin != []
    ensures PairFits(ops, pq, pc + 1, origin[..|origin| - 1])
  {
  }

  lemma PopEntry(env: Env, plan: Plan, ops: seq<Op>, pc: nat, from: int, v: Word, regs: int -> Word, regs': int -> Word)
    requires Virtual(plan, from) ==> plan.pairs[FindPair(plan.pairs, from)].pop != pc
    requires EntryFits(env, plan, pc, from, v, regs) && KeepsPairs(env, plan, pc, regs, regs')
    ensures EntryFits(env, plan, pc + 1, from, v, regs')
  {
  }

  /** Popping: entries and pairs keep their places below the entry removed. */
  lemma PopFits(env: Env, plan: Plan, ops: seq<Op>, pc: nat, x: seq<Word>, y: seq<Word>, origin: seq<int>,
                regs: int -> Word, regs': int -> Word)
    requires ValidPlan(env.arch, ops, plan) && pc < |ops| && ops[pc].Pop? && x != []
    requires StackFits(env, plan, ops, pc, x, y, origin, regs) && KeepsPairs(env, plan, pc, regs, regs')
    ensures
      var n := |x| - 1;
      StackFits(env, plan, ops, pc + 1, x[..n], Kept(plan, x[..n], origin[..n]), origin[..n], regs')
  {
    var n := |x| - 1;
    forall k | 0 <= k < n
      ensures EntryFits(env, plan, pc + 1, origin[k], x[k], regs')
    {
      NotThePopped(env, plan, ops, pc, x, y, origin, regs, k);
      PopEntry(env, plan, ops, pc, origin[k], x[k], regs, regs');
    }
    forall q | 0 <= q < |plan.pairs|
      ensures PairFits(ops, plan.pairs[q], pc + 1, origin[..n])
    {
      PopPair(env.arch, ops, plan.ext, plan.pairs[q], pc, origin);
    }
  }

  /** Only the top entry can belong to the pair that ends here. */
  lemma NotThePopped(env: Env, plan: Plan, ops: seq<Op>, pc: nat, x: seq<Word>, y: seq<Word>, origin: seq<int>,
                     regs: int -> Word, k: int)
    requires ValidPlan(env.arch, ops, plan) && pc < |ops| && ops[pc].Pop? && 0 <= k < |x| - 1
    requires StackFits(env, plan, ops, pc, x, y, origin, regs)
    ensures Virtual(plan, origin[k]) ==> plan.pairs[FindPair(plan.pairs, origin[k])].pop != pc
  {
    TopMatches(env, plan, ops, pc, x, y, origin, regs);
    if Virtual(plan, origin[k]) {
      assert EntryFits(env, plan, pc, origin[k], x[k], regs);
      FindPairIs(env.arch, ops, plan, FindPair(plan.pairs, origin[k]));
      assert origin[k] != origin[|origin| - 1];
    }
  }

  lemma KeptPop(plan: Plan, x: seq<Word>, origin: seq<int>)
    requires |x| == |origin| && x != [] && !Virtual(plan, origin[|x| - 1])
    ensures
      var y, n := Kept(plan, x, origin), |x| - 1;
      y != [] && y[|y| - 1] == x[n] && y[..|y| - 1] == Kept(plan, x[..n], origin[..n])
  {
  }

  lemma StepPop(env: Env, plan: Plan, ops: seq<Op>, entry: int -> Word, a: State, g: Ghost, b: State)
    requires Ready(env, plan, ops, entry, a, g, b) && ops[a.pc].Pop? && !Virtual(plan, a.pc)
    ensures Stepped(env, plan, ops, entry, a, g, b)
  {
    hide StackFits, SlotsFit, Agree, SpareSame, Holds, ValidPlan, ViewFits, Kept, Get, Set;
    var out := Replayed(env.arch, plan, ops);
    assert a.pc == b.pc && out[b.pc] == ops[a.pc];
    assert StackFits(env, plan, ops, a.pc, a.stack, b.stack, g.origin, b.regs) && ValidPlan(env.arch, ops, plan);
    RealTop(env, plan, ops, a.pc, a.stack, b.stack, g.origin, b.regs);
    ShapePop(env, ops, a);
    ShapePop(env, out, b);
    assert a.status == Running && b.status == Running && |ops| > 0 && ops[0].Prologue?;
    if a.stack != [] {
      PopWrites(env, plan, ops, entry, a, g, b);
      hide *;
      var n, r := |a.stack| - 1, ops[a.pc].reg;
      Conclude(env, plan, ops, entry, a, g, b,
               a.(pc := a.pc + 1, regs := Set(env, a.regs, r, a.stack[n]), stack := a.stack[..n]),
                 Track(plan, ops, a.pc, g),
               b.(pc := a.pc + 1, regs := Set(env, b.regs, r, a.stack[n]),
                 stack := Kept(plan, a.stack[..n], g.origin[..n])));
    } else {
      BothFault(env, plan, ops, entry, a, g, b);
    }
  }

  lemma BothFault(env: Env, plan: Plan, ops: seq<Op>, entry: int -> Word, a: State, g: Ghost, b: State)
    requires |ops| > 0 && ops[0].Prologue? && a.status == Running && b.status == Running && a.pc == b.pc < |ops|
    requires Step(env, ops, a) == a.(status := Faulted)
    requires Step(env, Replayed(env.arch, plan, ops), b) == b.(status := Faulted)
    ensures Stepped(env, plan, ops, entry, a, g, b)
  {
    hide Step, Inside, Home;
  }

  /** At a pop that is not virtual the two stacks have the same top, if any. */
  lemma RealTop(env: Env, plan: Plan, ops: seq<Op>, pc: nat, x: seq<Word>, y: seq<Word>, origin: seq<int>,
      regs: int -> Word)
    requires ValidPlan(env.arch, ops, plan) && pc < |ops| && ops[pc].Pop? && !Virtual(plan, pc)
    requires StackFits(env, plan, ops, pc, x, y, origin, regs)
    ensures |x| == |origin| && (x == [] <==> y == [])
    ensures x != [] ==>
      y[|y| - 1] == x[|x| - 1] && y[..|y| - 1] == Kept(plan, x[..|x| - 1], origin[..|x| - 1])
  {
    TopMatches(env, plan, ops, pc, x, y, origin, regs);
    if x != [] { KeptPop(plan, x, origin); }
  }

  /** At a virtual pop the recorded top is in the pair's register and the replay's stack already lacks it. */
  lemma VirtualTop(env: Env, plan: Plan, ops: seq<Op>, pc: nat, x: seq<Word>, y: seq<Word>, origin: seq<int>,
      regs: int -> Word)
    requires ValidPlan(env.arch, ops, plan) && pc < |ops| && ops[pc].Pop? && Virtual(plan, pc)
    requires StackFits(env, plan, ops, pc, x, y, origin, regs)
    ensures |x| == |origin| && x != [] && Get(env, regs, PairReg(plan, pc)) == x[|x| - 1]
    ensures y == Kept(plan, x[..|x| - 1], origin[..|x| - 1])
  {
    TopMatches(env, plan, ops, pc, x, y, origin, regs);
    assert EntryFits(env, plan, pc, origin[|x| - 1], x[|x| - 1], regs);
  }

  /** A virtual pop becomes a move out of the pair's register. */
  lemma StepVirtualPop(env: Env, plan: Plan, ops: seq<Op>, entry: int -> Word, a: State, g: Ghost, b: State)
    requires Ready(env, plan, ops, entry, a, g, b) && ops[a.pc].Pop? && Virtual(plan, a.pc)
    ensures Stepped(env, plan, ops, entry, a, g, b)
  {
    hide StackFits, SlotsFit, Agree, SpareSame, Holds, ValidPlan, ViewFits;
    var r, from := ops[a.pc].reg, PairReg(plan, a.pc);
    ShapePop(env, ops, a);
    VirtualTop(env, plan, ops, a.pc, a.stack, b.stack, g.origin, b.regs);
    var n := |a.stack| - 1;
    var y := if r == from then b.regs else Set(env, b.regs, r, a.stack[n]);
    if r == from {
      assert Rewrite(env.arch, plan, ops[a.pc], a.pc) == Skip;
      ShapeSkip(env, Replayed(env.arch, plan, ops), b);
    } else {
      assert Rewrite(env.arch, plan, ops[a.pc], a.pc) == Mov(r, from);
      ShapeCompute(env, Replayed(env.arch, plan, ops), b, a.stack[n], Num(0));
    }
    VirtualPopWrites(env, plan, ops, entry, a, g, b, y);
    Conclude(env, plan, ops, entry, a, g, b,
             a.(pc := a.pc + 1, regs := Set(env, a.regs, r, a.stack[n]), stack := a.stack[..n]),
               Track(plan, ops, a.pc, g),
             b.(pc := a.pc + 1, regs := y));
  }

  lemma VirtualPopWrites(env: Env, plan: Plan, ops: seq<Op>, entry: int -> Word, a: State, g: Ghost, b: State,
      y: int -> Word)
    requires Ready(env, plan, ops, entry, a, g, b) && ops[a.pc].Pop? && a.stack != []
    requires forall p :: y(p) == Set(env, b.regs, ops[a.pc].reg, a.stack[|a.stack| - 1])(p)
    requires b.stack == Kept(plan, a.stack[..|a.stack| - 1], g.origin[..|a.stack| - 1])
    ensures
      var n, r := |a.stack| - 1, ops[a.pc].reg;
      Inside(env, plan, ops, entry, a.(pc := a.pc + 1, regs := Set(env, a.regs, r, a.stack[n]), stack := a.stack[..n]),
             Track(plan, ops, a.pc, g), b.(pc := a.pc + 1, regs := y))
  {
    var n, r := |a.stack| - 1, ops[a.pc].reg;
    PopWrites(env, plan, ops, entry, a, g, b);
    SameFile(env, plan, ops, entry, a.(pc := a.pc + 1, regs := Set(env, a.regs, r, a.stack[n]), stack := a.stack[..n]),
             Track(plan, ops, a.pc, g), b.(pc := a.pc + 1, regs := Set(env, b.regs, r, a.stack[n])), y);
  }

  lemma PopWrites(env: Env, plan: Plan, ops: seq<Op>, entry: int -> Word, a: State, g: Ghost, b: State)
    requires Ready(env, plan, ops, entry, a, g, b) && ops[a.pc].Pop? && a.stack != []
    ensures
      var n, r := |a.stack| - 1, ops[a.pc].reg;
      Inside(env, plan, ops, entry, a.(pc := a.pc + 1, regs := Set(env, a.regs, r, a.stack[n]), stack := a.stack[..n]),
             Track(plan, ops, a.pc, g),
             b.(pc := a.pc + 1, regs := Set(env, b.regs, r, a.stack[n]),
               stack := Kept(plan, a.stack[..n], g.origin[..n])))
  {
    var n, r := |a.stack| - 1, ops[a.pc].reg;
    PopRegs(env, plan, ops, entry, a, g, b);
    PopPlaces(env, plan, ops, entry, a, g, b);
    InsideIs(env, plan, ops, entry, a, g, b);
    assert Track(plan, ops, a.pc, g) == Ghost(g.unset, g.dirty - {r}, g.origin[..n]);
    hide *;
    InsideOf(env, plan, ops, entry, a.(pc := a.pc + 1, regs := Set(env, a.regs, r, a.stack[n]), stack := a.stack[..n]),
             Ghost(g.unset, g.dirty - {r}, g.origin[..n]),
             b.(pc := a.pc + 1, regs := Set(env, b.regs, r, a.stack[n]),
               stack := Kept(plan, a.stack[..n], g.origin[..n])));
  }

  lemma InsideIs(env: Env, plan: Plan, ops: seq<Op>, entry: int -> Word, a: State, g: Ghost, b: State)
    requires Ready(env, plan, ops, entry, a, g, b)
    ensures |ops| > 0 && ops[0].Prologue? && a.pc == b.pc && a.pc > 0 && a.world == b.world
    ensures Holds(env, entry, ops[0].saved, a.saved)
    ensures Holds(env, entry, Rewrite(env.arch, plan, ops[0], 0).saved, b.saved)
  {
  }

  lemma InsideOf(env: Env, plan: Plan, ops: seq<Op>, entry: int -> Word, a: State, g: Ghost, b: State)
    requires |ops| > 0 && ops[0].Prologue? && a.pc == b.pc && a.pc > 0 && a.world == b.world
    requires DirtyFits(env, g.dirty) && Agree(env, plan, g.dirty, a.regs, b.regs)
    requires SlotsFit(env, plan, a.pc, a.slots, b.slots, g.unset, b.regs)
    requires StackFits(env, plan, ops, a.pc, a.stack, b.stack, g.origin, b.regs)
    requires SpareSame(env, ops, a.regs, entry)
    requires Holds(env, entry, ops[0].saved, a.saved)
    requires Holds(env, entry, Rewrite(env.arch, plan, ops[0], 0).saved, b.saved)
    ensures Inside(env, plan, ops, entry, a, g, b)
  {
  }

  lemma PopRegs(env: Env, plan: Plan, ops: seq<Op>, entry: int -> Word, a: State, g: Ghost, b: State)
    requires Ready(env, plan, ops, entry, a, g, b) && ops[a.pc].Pop? && a.stack != []
    ensures
      var v, r := a.stack[|a.stack| - 1], ops[a.pc].reg;
      Agree(env, plan, g.dirty - {r}, Set(env, a.regs, r, v), Set(env, b.regs, r, v)) && DirtyFits(env, g.dirty - {r})
      && SpareSame(env, ops, Set(env, a.regs, r, v), entry)
  {
    var v, r := a.stack[|a.stack| - 1], ops[a.pc].reg;
    SetAgrees(env, plan, g.dirty, a.regs, b.regs, r, v);
    SetKeeps(env, plan, ops, a.pc, a.regs, r, v);
    hide Phys, StackFits, SlotsFit, Set, Agree, Holds;
  }

  lemma PopPlaces(env: Env, plan: Plan, ops: seq<Op>, entry: int -> Word, a: State, g: Ghost, b: State)
    requires Ready(env, plan, ops, entry, a, g, b) && ops[a.pc].Pop? && a.stack != []
    ensures |g.origin| == |a.stack|
    ensures
      var n, r := |a.stack| - 1, ops[a.pc].reg;
      var y := Set(env, b.regs, r, a.stack[n]);
      StackFits(env, plan, ops, a.pc + 1, a.stack[..n], Kept(plan, a.stack[..n], g.origin[..n]), g.origin[..n], y)
      && SlotsFit(env, plan, a.pc + 1, a.slots, b.slots, g.unset, y)
  {
    var n, r := |a.stack| - 1, ops[a.pc].reg;
    SetKeeps(env, plan, ops, a.pc, b.regs, r, a.stack[n]);
    var y := Set(env, b.regs, r, a.stack[n]);
    PopKeepsSlots(env, plan, ops, entry, a, g, b, y);
    hide Phys, Set, Agree, Holds, SlotsFit, Disciplined, ViewFits, WellFormed, ValidPlan, PairFits, EntryFits;
    PopFits(env, plan, ops, a.pc, a.stack, b.stack, g.origin, b.regs, y);
  }

  lemma PopKeepsSlots(env: Env, plan: Plan, ops: seq<Op>, entry: int -> Word, a: State, g: Ghost, b: State,
      y: int -> Word)
    requires Ready(env, plan, ops, entry, a, g, b) && ops[a.pc].Pop? && KeepsPlan(env, plan, a.pc, b.regs, y)
    ensures SlotsFit(env, plan, a.pc + 1, a.slots, b.slots, g.unset, y)
  {
    hide Phys, Agree, Holds, StackFits, Disciplined, ViewFits;
    SlotsStay(env, plan, ops, a.pc, a.pc + 1, a.slots, a.slots, b.slots, g.unset, g.unset, b.regs, y);
  }

  /** The relation only looks registers up, so a pointwise equal register file does as well. */
  lemma SameFile(env: Env, plan: Plan, ops: seq<Op>, entry: int -> Word, a: State, g: Ghost, b: State, y: int -> Word)
    requires |ops| > 0 && ops[0].Prologue? && Inside(env, plan, ops, entry, a, g, b)
    requires forall p :: y(p) == b.regs(p)
    ensures Inside(env, plan, ops, entry, a, g, b.(regs := y))
  {
    forall k | 0 <= k < |plan.proms|
      ensures SlotFits(env, plan.proms[k], a.pc, a.slots, g.unset, y)
    {
      assert SlotFits(env, plan.proms[k], a.pc, a.slots, g.unset, b.regs);
    }
    forall k | 0 <= k < |g.origin|
      ensures EntryFits(env, plan, a.pc, g.origin[k], a.stack[k], y)
    {
      assert EntryFits(env, plan, a.pc, g.origin[k], a.stack[k], b.regs);
    }
  }

  // -- entry and exit --

  /** Restoring a save area that holds entry values puts exactly the entry values back, in whatever order and with
      whatever aliasing among the listed registers. */
  lemma {:induction false} RestoredIsEntry(env: Env, entry: int -> Word, regs: int -> Word, rs: seq<Reg>,
      vs: seq<Word>, p: int)
    requires Holds(env, entry, rs, vs)
    ensures (exists k :: 0 <= k < |rs| && Phys(env.arch, rs[k]) == p) ==> Restored(env, regs, rs, vs)(p) == entry(p)
    ensures (forall k :: 0 <= k < |rs| ==> Phys(env.arch, rs[k]) != p) ==> Restored(env, regs, rs, vs)(p) == regs(p)
  {
    if rs != [] {
      var n := |rs| - 1;
      var regs' := Set(env, regs, rs[n], vs[n]);
      RestoredIsEntry(env, entry, regs', rs[..n], vs[..n], p);
      if k :| 0 <= k < |rs| && Phys(env.arch, rs[k]) == p {
        if k < n { assert rs[..n][k] == rs[k]; }
      }
      if Phys(env.arch, rs[n]) == p && forall k :: 0 <= k < n ==> Phys(env.arch, rs[..n][k]) != p {
        assert regs'(p) == vs[n];
      }
    }
  }

  /** Every register of the recorded list is in the replayed one, and whatever else is there is extra or the pad. */
  lemma ExtendedHas(arch: Arch, rs: seq<Reg>, ext: seq<Reg>)
    ensures forall r :: r in rs || r in ext ==> r in Extended(arch, rs, ext)
    ensures forall r :: r in Extended(arch, rs, ext) ==> r in rs || r in ext || r == PadReg(arch)
  {
  }

  /** No virtual entry is on the stack at an op that ends straight-line regions. */
  lemma NoneActive(env: Env, plan: Plan, ops: seq<Op>, pc: nat, x: seq<Word>, y: seq<Word>, origin: seq<int>,
      regs: int -> Word)
    requires ValidPlan(env.arch, ops, plan) && pc < |ops| && Control(ops[pc])
    requires StackFits(env, plan, ops, pc, x, y, origin, regs)
    ensures x == y
  {
    forall k | 0 <= k < |origin|
      ensures !Virtual(plan, origin[k])
    {
      assert EntryFits(env, plan, pc, origin[k], x[k], regs);
      if Virtual(plan, origin[k]) {
        ControlIsOutside(env.arch, ops, plan.ext, plan.pairs[FindPair(plan.pairs, origin[k])], pc);
      }
    }
    KeptAll(plan, x, origin);
  }

  lemma {:induction false} KeptAll(plan: Plan, x: seq<Word>, origin: seq<int>)
    requires |x| == |origin| && forall k :: 0 <= k < |origin| ==> !Virtual(plan, origin[k])
    ensures Kept(plan, x, origin) == x
  {
    if x != [] {
      KeptAll(plan, x[..|x| - 1], origin[..|x| - 1]);
    }
  }

  lemma StepEpilogue(env: Env, plan: Plan, ops: seq<Op>, entry: int -> Word, a: State, g: Ghost, b: State)
    requires Ready(env, plan, ops, entry, a, g, b) && ops[a.pc].Epilogue?
    ensures Stepped(env, plan, ops, entry, a, g, b)
  {
    hide StackFits, Agree, SpareSame, Restored;
    var rs, out := ops[0].saved, Replayed(env.arch, plan, ops);
    NoneActive(env, plan, ops, a.pc, a.stack, b.stack, g.origin, b.regs);
    assert ops[a.pc].saved == rs;
    assert out[b.pc].Epilogue? && out[b.pc].saved == Rewrite(env.arch, plan, ops[0], 0).saved;
    ShapeEpilogue(env, ops, a);
    ShapeEpilogue(env, out, b);
    if a.stack == [] {
      var x, y := Restored(env, a.regs, rs, a.saved), Restored(env, b.regs, out[b.pc].saved, b.saved);
      forall p | Exposed(env, plan, g.dirty, p)
        ensures x(p) == y(p)
      {
        ExitValue(env, plan, ops, entry, a, g, b, p);
      }
      forall r | r in rs || Spare(ops, r)
        ensures Get(env, x, r) == Get(env, entry, r) && Get(env, y, r) == Get(env, entry, r)
      {
        ExitEntry(env, plan, ops, entry, a, g, b, r);
      }
    }
  }

  lemma ShapeEpilogue(env: Env, prog: seq<Op>, s: State)
    requires s.status == Running && s.pc < |prog| && prog[s.pc].Epilogue?
    ensures Step(env, prog, s) ==
      if s.stack != [] || |s.saved| != |prog[s.pc].saved| then s.(status := Faulted)
      else s.(status := Returned, regs := Restored(env, s.regs, prog[s.pc].saved, s.saved))
  {
  }

  lemma ExitEntry(env: Env, plan: Plan, ops: seq<Op>, entry: int -> Word, a: State, g: Ghost, b: State, r: Reg)
    requires WellFormed(ops) && ValidPlan(env.arch, ops, plan) && Inside(env, plan, ops, entry, a, g, b)
    requires r in ops[0].saved || Spare(ops, r)
    ensures Get(env, Restored(env, a.regs, ops[0].saved, a.saved), r) == Get(env, entry, r)
    ensures Get(env, Restored(env, b.regs, Rewrite(env.arch, plan, ops[0], 0).saved, b.saved), r) == Get(env, entry, r)
  {
    hide Restored, SlotsFit, StackFits;
    var rs, rs' := ops[0].saved, Rewrite(env.arch, plan, ops[0], 0).saved;
    var p := Phys(env.arch, r);
    ExtendedHas(env.arch, rs, plan.ext);
    RestoredIsEntry(env, entry, a.regs, rs, a.saved, p);
    RestoredIsEntry(env, entry, b.regs, rs', b.saved, p);
    if Pooled(plan, r) {
      PooledIsUsable(env.arch, ops, plan, r);
    }
    if r in rs {
      assert r in rs';
    } else if r !in rs' && forall k :: 0 <= k < |rs'| ==> Phys(env.arch, rs'[k]) != p {
      Visible(env, plan, g.dirty, a.regs, b.regs, r);
    }
  }

  lemma ExitValue(env: Env, plan: Plan, ops: seq<Op>, entry: int -> Word, a: State, g: Ghost, b: State, p: int)
    requires WellFormed(ops) && ValidPlan(env.arch, ops, plan) && Inside(env, plan, ops, entry, a, g, b)
    requires Exposed(env, plan, g.dirty, p)
    ensures Restored(env, a.regs, ops[0].saved, a.saved)(p)
         == Restored(env, b.regs, Rewrite(env.arch, plan, ops[0], 0).saved, b.saved)(p)
  {
    hide Phys, Restored, Extended, SlotsFit, StackFits;
    var rs, rs' := ops[0].saved, Rewrite(env.arch, plan, ops[0], 0).saved;
    ExtendedHas(env.arch, rs, plan.ext);
    RestoredIsEntry(env, entry, a.regs, rs, a.saved, p);
    RestoredIsEntry(env, entry, b.regs, rs', b.saved, p);
    forall r | Pooled(plan, r) ensures r in rs' {
      PooledIsUsable(env.arch, ops, plan, r);
    }
    if k :| 0 <= k < |rs'| && Phys(env.arch, rs'[k]) == p {
      ExitEntry(env, plan, ops, entry, a, g, b, rs'[k]);
    } else {
      forall k | 0 <= k < |rs| ensures Phys(env.arch, rs[k]) != p { assert rs[k] in rs'; }
    }
  }

  /** The prologue, from equal states. */
  lemma StepPrologue(env: Env, plan: Plan, ops: seq<Op>, s: State)
    requires WellFormed(ops) && ValidPlan(env.arch, ops, plan) && s.status == Running && s.pc == 0
    ensures Sim(env, plan, ops, s.regs, Step(env, ops, s), Start(plan), Step(env, Replayed(env.arch, plan, ops), s))
  {
    var rs, rs' := ops[0].saved, Rewrite(env.arch, plan, ops[0], 0).saved;
    var out := Replayed(env.arch, plan, ops);
    assert ops[0].Prologue? && out[0].Prologue? && out[0].saved == rs';
    ShapePrologue(env, ops, s);
    ShapePrologue(env, out, s);
    StartFits(env, plan, ops, s.regs, s.slots);
    HoldsValues(env, s.regs, rs);
    HoldsValues(env, s.regs, rs');
    hide Step, Rewrite, Replayed, WellFormed, ValidPlan, Values, Holds, SlotsFit, StackFits, Agree, SpareSame,
      DirtyFits, Phys, Inside;
    var a, b := s.(pc := 1, saved := Values(env, s.regs, rs), stack := []),
      s.(pc := 1, saved := Values(env, s.regs, rs'), stack := []);
    InsideOf(env, plan, ops, s.regs, a, Start(plan), b);
  }

  lemma ShapePrologue(env: Env, prog: seq<Op>, s: State)
    requires s.status == Running && s.pc < |prog| && prog[s.pc].Prologue?
    ensures Step(env, prog, s) == s.(pc := s.pc + 1, saved := Values(env, s.regs, prog[s.pc].saved), stack := [])
  {
  }

  lemma HoldsValues(env: Env, regs: int -> Word, rs: seq<Reg>)
    ensures Holds(env, regs, rs, Values(env, regs, rs))
  {
  }

  lemma StartFits(env: Env, plan: Plan, ops: seq<Op>, regs: int -> Word, slots: int -> Word)
    requires WellFormed(ops) && ValidPlan(env.arch, ops, plan)
    ensures var g := Start(plan);
      && DirtyFits(env, g.dirty) && Agree(env, plan, g.dirty, regs, regs)
      && SlotsFit(env, plan, 1, slots, slots, g.unset, regs)
      && StackFits(env, plan, ops, 1, [], [], g.origin, regs) && SpareSame(env, ops, regs, regs)
  {
    hide Phys;
    forall q | 0 <= q < |plan.pairs|
      ensures PairFits(ops, plan.pairs[q], 1, [])
    {
      assert ValidPair(env.arch, ops, plan.ext, plan.pairs[q]);
    }
  }

  // ---------- whole runs ----------

  lemma StepSimulates(env: Env, plan: Plan, ops: seq<Op>, entry: int -> Word, a: State, g: Ghost, b: State)
    requires Ready(env, plan, ops, entry, a, g, b)
    ensures Stepped(env, plan, ops, entry, a, g, b)
  {
    match ops[a.pc]
    case Load(_, base, off) =>
      if base == FP && Promoted(plan, off) { StepPromotedLoad(env, plan, ops, entry, a, g, b); }
      else { StepLoad(env, plan, ops, entry, a, g, b); }
    case Store(base, off, _) =>
      if base == FP && Promoted(plan, off) { StepPromotedStore(env, plan, ops, entry, a, g, b); }
      else { StepStore(env, plan, ops, entry, a, g, b); }
    case Label(_) => StepEffect(env, plan, ops, entry, a, g, b);
    case Jump(_, _) => StepJump(env, plan, ops, entry, a, g, b);
    case Push(_) =>
      if Virtual(plan, a.pc) { StepVirtualPush(env, plan, ops, entry, a, g, b); }
      else { StepPush(env, plan, ops, entry, a, g, b); }
    case Pop(_) =>
      if Virtual(plan, a.pc) { StepVirtualPop(env, plan, ops, entry, a, g, b); }
      else { StepPop(env, plan, ops, entry, a, g, b); }
    case Call(_, _) => StepCall(env, plan, ops, entry, a, g, b);
    case Syscall(_, _) => StepSyscall(env, plan, ops, entry, a, g, b);
    case PrepareCall(_) => StepPrepareCall(env, plan, ops, entry, a, g, b);
    case JmpIndirect(_) => StepIndirect(env, plan, ops, entry, a, g, b);
    case Prologue(_, _) => assert false;
    case Epilogue(_, _) => StepEpilogue(env, plan, ops, entry, a, g, b);
    case Ret => StepRet(env, plan, ops, entry, a, g, b);
    case Compute(_, _, _, _) => StepCompute(env, plan, ops, entry, a, g, b);
    case Effect(_, _, _, _) => StepEffect(env, plan, ops, entry, a, g, b);
    case Nop => StepEffect(env, plan, ops, entry, a, g, b);
    case Skip => StepEffect(env, plan, ops, entry, a, g, b);
  }

  /** The simulation relation with everything it takes for granted. */
  ghost predicate Related(env: Env, plan: Plan, ops: seq<Op>, entry: int -> Word, a: State, g: Ghost, b: State) {
    WellFormed(ops) && ValidPlan(env.arch, ops, plan) && ViewFits(env, ops) && Sim(env, plan, ops, entry, a, g, b)
  }

  lemma RelatedStep(env: Env, plan: Plan, ops: seq<Op>, entry: int -> Word, a: State, g: Ghost, b: State)
    requires Related(env, plan, ops, entry, a, g, b)
    ensures a.status == b.status && a.pc == b.pc
    ensures !Halted(ops, a) && Disciplined(ops, a.pc, g) ==>
      Related(env, plan, ops, entry, Step(env, ops, a), Track(plan, ops, a.pc, g),
        Step(env, Replayed(env.arch, plan, ops), b))
  {
    if !Halted(ops, a) && Disciplined(ops, a.pc, g) {
      StepSimulates(env, plan, ops, entry, a, g, b);
    }
  }

  ghost function Rel(env: Env, plan: Plan, ops: seq<Op>, entry: int -> Word): (State, Ghost, State) -> bool {
    (a, g, b) => Related(env, plan, ops, entry, a, g, b)
  }

  /** Lockstep induction for any relation that one disciplined step preserves. */
  lemma {:induction false} Lockstep(env: Env, plan: Plan, ops: seq<Op>, out: seq<Op>,
      rel: (State, Ghost, State) -> bool,
                                    a: State, g: Ghost, b: State, n: nat)
    requires |out| == |ops|
    requires forall x, h, y :: rel(x, h, y) ==> x.status == y.status && x.pc == y.pc
    requires forall x, h, y :: rel(x, h, y) && !Halted(ops, x) && Disciplined(ops, x.pc, h) ==>
      rel(Step(env, ops, x), Track(plan, ops, x.pc, h), Step(env, out, y))
    requires rel(a, g, b) && DisciplinedRun(env, plan, ops, a, g, n)
    ensures rel(Run(env, ops, a, n), TrackRun(env, plan, ops, a, g, n), Run(env, out, b, n))
    decreases n
  {
    hide Step, Track, Disciplined;
    if n > 0 && !Halted(ops, a) {
      Lockstep(env, plan, ops, out, rel, Step(env, ops, a), Track(plan, ops, a.pc, g), Step(env, out, b), n - 1);
    }
  }

  lemma RelSteps(env: Env, plan: Plan, ops: seq<Op>, entry: int -> Word)
    ensures forall x, h, y :: Rel(env, plan, ops, entry)(x, h, y) ==> x.status == y.status && x.pc == y.pc
    ensures forall x, h, y :: Rel(env, plan, ops, entry)(x, h, y) && !Halted(ops, x) && Disciplined(ops, x.pc, h) ==>
      Rel(env, plan, ops, entry)(Step(env, ops, x), Track(plan, ops, x.pc, h),
        Step(env, Replayed(env.arch, plan, ops), y))
  {
    forall x, h, y | Rel(env, plan, ops, entry)(x, h, y)
      ensures x.status == y.status && x.pc == y.pc
      ensures !Halted(ops, x) && Disciplined(ops, x.pc, h) ==>
        Rel(env, plan, ops, entry)(Step(env, ops, x), Track(plan, ops, x.pc, h),
          Step(env, Replayed(env.arch, plan, ops), y))
    {
      RelatedStep(env, plan, ops, entry, x, h, y);
    }
  }

  lemma RunSimulates(env: Env, plan: Plan, ops: seq<Op>, entry: int -> Word, a: State, g: Ghost, b: State, n: nat)
    requires Rel(env, plan, ops, entry)(a, g, b) && DisciplinedRun(env, plan, ops, a, g, n)
    ensures Rel(env, plan, ops, entry)(Run(env, ops, a, n), TrackRun(env, plan, ops, a, g, n),
                                       Run(env, Replayed(env.arch, plan, ops), b, n))
  {
    RelSteps(env, plan, ops, entry);
    Lockstep(env, plan, ops, Replayed(env.arch, plan, ops), Rel(env, plan, ops, entry), a, g, b, n);
  }

  /** Main theorem.  For every record, every valid plan, every meaning of the ops and every initial state: after any
      number of disciplined steps the replay is at the same position with the same status, and related to the record by
      `Sim`. */
  lemma ReplaySimulates(env: Env, plan: Plan, ops: seq<Op>, s: State, n: nat)
    requires WellFormed(ops) && ValidPlan(env.arch, ops, plan) && ViewFits(env, ops)
    requires s.status == Running && s.pc == 0
    requires n > 0 && DisciplinedRun(env, plan, ops, s, Start(plan), n)
    ensures Sim(env, plan, ops, s.regs, Run(env, ops, s, n), TrackRun(env, plan, ops, s, Start(plan), n),
                Run(env, Replayed(env.arch, plan, ops), s, n))
  {
    hide *;
    AfterPrologue(env, plan, ops, s, n);
    var a, b := Step(env, ops, s), Step(env, Replayed(env.arch, plan, ops), s);
    RunSimulates(env, plan, ops, s.regs, a, Start(plan), b, n - 1);
    Unrel(env, plan, ops, s.regs, Run(env, ops, s, n), TrackRun(env, plan, ops, s, Start(plan), n),
          Run(env, Replayed(env.arch, plan, ops), s, n));
  }

  lemma AfterPrologue(env: Env, plan: Plan, ops: seq<Op>, s: State, n: nat)
    requires WellFormed(ops) && ValidPlan(env.arch, ops, plan) && ViewFits(env, ops)
    requires s.status == Running && s.pc == 0 && n > 0
    ensures Replayed(env.arch, plan, ops) != []
    ensures Rel(env, plan, ops, s.regs)(Step(env, ops, s), Start(plan), Step(env, Replayed(env.arch, plan, ops), s))
    ensures Run(env, ops, s, n) == Run(env, ops, Step(env, ops, s), n - 1)
    ensures Run(env, Replayed(env.arch, plan, ops), s, n) ==
      Run(env, Replayed(env.arch, plan, ops), Step(env, Replayed(env.arch, plan, ops), s), n - 1)
    ensures TrackRun(env, plan, ops, s, Start(plan), n) ==
      TrackRun(env, plan, ops, Step(env, ops, s), Start(plan), n - 1)
    ensures DisciplinedRun(env, plan, ops, s, Start(plan), n) ==>
      DisciplinedRun(env, plan, ops, Step(env, ops, s), Start(plan), n - 1)
  {
    StepPrologue(env, plan, ops, s);
    Unroll(env, plan, ops, s, n);
  }

  lemma Unroll(env: Env, plan: Plan, ops: seq<Op>, s: State, n: nat)
    requires |ops| > 0 && ops[0].Prologue? && s.status == Running && s.pc == 0 && n > 0
    ensures Run(env, ops, s, n) == Run(env, ops, Step(env, ops, s), n - 1)
    ensures Run(env, Replayed(env.arch, plan, ops), s, n) ==
      Run(env, Replayed(env.arch, plan, ops), Step(env, Replayed(env.arch, plan, ops), s), n - 1)
    ensures TrackRun(env, plan, ops, s, Start(plan), n) ==
      TrackRun(env, plan, ops, Step(env, ops, s), Start(plan), n - 1)
    ensures DisciplinedRun(env, plan, ops, s, Start(plan), n) ==>
      DisciplinedRun(env, plan, ops, Step(env, ops, s), Start(plan), n - 1)
  {
  }

  lemma Unrel(env: Env, plan: Plan, ops: seq<Op>, entry: int -> Word, a: State, g: Ghost, b: State)
    requires Rel(env, plan, ops, entry)(a, g, b)
    ensures |ops| > 0 && ops[0].Prologue? && Sim(env, plan, ops, entry, a, g, b)
  {
  }

  lemma HomeMeans(env: Env, plan: Plan, ops: seq<Op>, entry: int -> Word, a: State, g: Ghost, b: State)
    requires WellFormed(ops) && Sim(env, plan, ops, entry, a, g, b) && a.status == Returned
    ensures a.world == b.world && Get(env, a.regs, RET) == Get(env, b.regs, RET)
    ensures forall r :: r in {S0, S1, S2, S3} || Spare(ops, r) ==>
      Get(env, a.regs, r) == Get(env, b.regs, r) == Get(env, entry, r)
  {
    forall r | r in g.dirty
      ensures Phys(env.arch, r) != Phys(env.arch, RET)
    {
      if Phys(env.arch, r) == Phys(env.arch, RET) { UnaliasedIsAlone(env.arch, r, RET); }
    }
    assert Exposed(env, plan, g.dirty, Phys(env.arch, RET));
  }

  /** What a caller observes: the replayed function returns exactly when the recorded one does, with the same result and
      the same effects, and it hands back S0-S3 and every saved register it never named. */
  lemma CallerSeesNoDifference(env: Env, plan: Plan, ops: seq<Op>, s: State, n: nat)
    requires WellFormed(ops) && ValidPlan(env.arch, ops, plan) && ViewFits(env, ops)
    requires s.status == Running && s.pc == 0 && n > 0
    requires DisciplinedRun(env, plan, ops, s, Start(plan), n)
    ensures
      var a, b := Run(env, ops, s, n), Run(env, Replayed(env.arch, plan, ops), s, n);
      && a.status == b.status && a.pc == b.pc
      && (a.status == Returned ==>
            && a.world == b.world && Get(env, a.regs, RET) == Get(env, b.regs, RET)
            && (forall r :: r in {S0, S1, S2, S3} || Spare(ops, r) ==>
                  Get(env, a.regs, r) == Get(env, b.regs, r) == Get(env, s.regs, r)))
  {
    hide Run, TrackRun, DisciplinedRun, Inside, Home, ValidPlan;
    ReplaySimulates(env, plan, ops, s, n);
    var a, g, b := Run(env, ops, s, n), TrackRun(env, plan, ops, s, Start(plan), n),
      Run(env, Replayed(env.arch, plan, ops), s, n);
    if a.status == Returned {
      HomeMeans(env, plan, ops, s.regs, a, g, b);
    }
  }
}
