/** A register borrowed for a pair has to be dead: a check of the record that guarantees it for every run, and what
    happens when it is not. */
module Liveness {
  import Basics
  import opened VRegs
  import opened Machine
  import opened Plans
  import opened Promotion
  import opened Recorder
  import opened Exactness

  // ---------- a check before the run ----------

  /** g speaks of no more slots and registers than f. */
  predicate Below(g: Ghost, f: Ghost) {
    g.dirty <= f.dirty && g.unset <= f.unset
  }

  /** Control may go from pc to `to`. */
  predicate Follows(ops: seq<Op>, pc: int, to: int)
    requires 0 <= pc < |ops|
  {
    && Moves(ops, pc, to) && !ops[pc].Epilogue? && !ops[pc].Ret?
    && (ops[pc].Jump? && ops[pc].code == RC_JMP ==> 0 <= to < |ops| && ops[to] == Label(ops[pc].target))
    && (ops[pc].JmpIndirect? ==> 0 <= to < |ops| && ops[to].Label?)
  }

  /** at[pc] lists the promoted slots that may not have been stored yet and the borrowed registers that may be dead when
      control is at pc: a solution of the data flow equations under which no op reads any of them. */
  predicate FlowFits(plan: Plan, ops: seq<Op>, at: seq<Ghost>) {
    && |at| == |ops| && ops != [] && Below(Start(plan), at[0])
    && (forall pc, to :: 0 <= pc < |ops| && 0 <= to < |ops| && Follows(ops, pc, to) ==>
          Below(Track(plan, ops, pc, at[pc]), at[to]))
    && (forall pc :: 0 <= pc < |ops| ==> Disciplined(ops, pc, at[pc]))
  }

  lemma LessIsDisciplined(ops: seq<Op>, pc: nat, g: Ghost, f: Ghost)
    requires pc < |ops| && Below(g, f) && Disciplined(ops, pc, f)
    ensures Disciplined(ops, pc, g)
  {
    if ops[pc].PrepareCall? {
      forall k | 0 <= k < |ops[pc].args| ensures Clean(g, ops[pc].args[k]) { assert Clean(f, ops[pc].args[k]); }
    }
  }

  lemma TrackBelow(plan: Plan, ops: seq<Op>, pc: nat, g: Ghost, f: Ghost)
    requires pc < |ops| && Below(g, f)
    ensures Below(Track(plan, ops, pc, g), Track(plan, ops, pc, f))
  {
  }

  lemma StepFollows(env: Env, ops: seq<Op>, s: State)
    requires s.status == Running && s.pc < |ops|
    ensures var t := Step(env, ops, s);
      t.status == Running && t.pc < |ops| ==> Follows(ops, s.pc, t.pc)
  {
    hide Set, Get, Restored, Values, AfterCall, AfterSys, Prepared, Val;
    match ops[s.pc]
    case Jump(_, _) =>
    case JmpIndirect(_) =>
    case _ =>
  }

  /** The check covers every run. */
  lemma {:induction false} FlowDisciplines(env: Env, plan: Plan, ops: seq<Op>, at: seq<Ghost>, s: State, g: Ghost,
      n: nat)
    requires FlowFits(plan, ops, at) && s.status == Running && (s.pc < |ops| ==> Below(g, at[s.pc]))
    ensures DisciplinedRun(env, plan, ops, s, g, n)
    decreases n
  {
    hide Step, Track, Disciplined, Below, Follows;
    if n > 0 && !Halted(ops, s) {
      LessIsDisciplined(ops, s.pc, g, at[s.pc]);
      TrackBelow(plan, ops, s.pc, g, at[s.pc]);
      StepFollows(env, ops, s);
      var t, h := Step(env, ops, s), Track(plan, ops, s.pc, g);
      if t.status == Running {
        if t.pc < |ops| { BelowBelow(h, Track(plan, ops, s.pc, at[s.pc]), at[t.pc]); }
        FlowDisciplines(env, plan, ops, at, t, h, n - 1);
      }
    }
  }

  lemma BelowBelow(g: Ghost, f: Ghost, e: Ghost)
    requires Below(g, f) && Below(f, e)
    ensures Below(g, e)
  {
  }

  // ---------- what it is good for ----------

  /** A caller-saved register that carries a pair. */
  predicate Lent(plan: Plan, r: Reg) {
    IsBorrowed(r) && exists k :: 0 <= k < |plan.pairs| && plan.pairs[k].reg == r
  }

  ghost predicate OnlyLent(plan: Plan, g: Ghost) {
    forall r :: r in g.dirty ==> Lent(plan, r)
  }

  lemma TrackLends(plan: Plan, ops: seq<Op>, pc: nat, g: Ghost)
    requires pc < |ops| && OnlyLent(plan, g)
    ensures OnlyLent(plan, Track(plan, ops, pc, g))
  {
  }

  lemma {:induction false} RunLends(env: Env, plan: Plan, ops: seq<Op>, s: State, g: Ghost, n: nat)
    requires OnlyLent(plan, g)
    ensures OnlyLent(plan, TrackRun(env, plan, ops, s, g, n))
    decreases n
  {
    hide Step, Track, OnlyLent;
    if n > 0 && !Halted(ops, s) {
      TrackLends(plan, ops, s.pc, g);
      RunLends(env, plan, ops, Step(env, ops, s), Track(plan, ops, s.pc, g), n - 1);
    }
  }

  /** Record and replay are at the same place with the same effects; while they run they agree on every register the
      plan does not use, and when they have returned, on the result and on what the caller gets back. */
  ghost predicate Alike(env: Env, plan: Plan, ops: seq<Op>, entry: int -> Word, a: State, b: State) {
    && a.status == b.status && a.pc == b.pc && (a.status != Faulted ==> a.world == b.world)
    && (a.status == Running ==>
          forall r :: !Pooled(plan, r) && !Lent(plan, r) ==> Get(env, a.regs, r) == Get(env, b.regs, r))
    && (a.status == Returned ==> Get(env, a.regs, RET) == Get(env, b.regs, RET))
    && (a.status == Returned ==>
          forall r :: r in CALLEE_SAVED || Spare(ops, r) ==> Get(env, b.regs, r) == Get(env, entry, r))
  }

  lemma SimIsAlike(env: Env, plan: Plan, ops: seq<Op>, entry: int -> Word, a: State, g: Ghost, b: State)
    requires WellFormed(ops) && Sim(env, plan, ops, entry, a, g, b) && OnlyLent(plan, g)
    ensures Alike(env, plan, ops, entry, a, b)
  {
    if a.status == Returned { HomeMeans(env, plan, ops, entry, a, g, b); }
    if a.status == Running {
      forall r | !Pooled(plan, r) && !Lent(plan, r)
        ensures Get(env, a.regs, r) == Get(env, b.regs, r)
      {
        Visible(env, plan, g.dirty, a.regs, b.regs, r);
      }
    }
  }

  /** A plan that passes the check, borrowed registers included, is faithful: for every meaning of the ops, every
      initial state and any number of steps. */
  lemma FlowIsFaithful(env: Env, plan: Plan, ops: seq<Op>, at: seq<Ghost>, s: State, n: nat)
    requires WellFormed(ops) && ValidPlan(env.arch, ops, plan) && ViewFits(env, ops)
    requires FlowFits(plan, ops, at) && Begins(s)
    ensures Alike(env, plan, ops, s.regs, Run(env, ops, s, n), Run(env, Replayed(env.arch, plan, ops), s, n))
  {
    hide Run, TrackRun, ValidPlan, WellFormed, ViewFits, DisciplinedRun, Alike, Sim;
    if n == 0 {
      StartsAlike(env, plan, ops, s);
    } else {
      FlowDisciplines(env, plan, ops, at, s, Start(plan), n);
      ReplaySimulates(env, plan, ops, s, n);
      RunLends(env, plan, ops, s, Start(plan), n);
      SimIsAlike(env, plan, ops, s.regs, Run(env, ops, s, n), TrackRun(env, plan, ops, s, Start(plan), n),
        Run(env, Replayed(env.arch, plan, ops), s, n));
    }
  }

  lemma StartsAlike(env: Env, plan: Plan, ops: seq<Op>, s: State)
    requires Begins(s)
    ensures Alike(env, plan, ops, s.regs, Run(env, ops, s, 0), Run(env, Replayed(env.arch, plan, ops), s, 0))
  {
  }

  function LentRegs(plan: Plan): set<Reg> {
    set r | r in {V5, V6, V7} && Lent(plan, r)
  }

  /** In particular the check passes if no slot is promoted and no op of the record reads a borrowed register at all. */
  lemma UnreadFits(plan: Plan, ops: seq<Op>)
    requires ops != [] && plan.proms == []
    requires forall pc :: 0 <= pc < |ops| ==> Disciplined(ops, pc, Ghost({}, LentRegs(plan), []))
    ensures FlowFits(plan, ops, seq(|ops|, pc => Ghost({}, LentRegs(plan), [])))
  {
    var g := Ghost({}, LentRegs(plan), []);
    hide Disciplined, Follows;
    forall pc | 0 <= pc < |ops|
      ensures Below(Track(plan, ops, pc, g), g)
    {
      if ops[pc].Push? && Virtual(plan, pc) {
        assert Borrows(plan, pc, ops[pc].reg, g.dirty) <= LentRegs(plan);
      }
    }
  }

  // ---------- a record that fails it ----------

  /** V7 is written, V0 makes a round trip through the stack, and V7 becomes the result. */
  function Across(op: Op): seq<Op> {
    [Prologue(0, CALLEE_SAVED), op, Push(V0), Nop, Pop(V1), Mov(RET, V7), Epilogue(CALLEE_SAVED, 0)]
  }

  /** What it is replayed as. */
  function Overwritten(op: Op): seq<Op> {
    [Prologue(0, CALLEE_SAVED), op, Mov(V7, V0), Nop, Mov(V1, V7), Mov(RET, V7), Epilogue(CALLEE_SAVED, 0)]
  }

  const FIVE := Compute(4, V7, Imm(5), Opd.None)
  const THROUGH_V7 := Plan([], [], [Pair(2, 4, V7)])

  /** The op writes V7 and names nothing else that matters here. */
  predicate WritesV7(op: Op) {
    op == FIVE || op == Mov(V7, V0)
  }

  lemma PromsComeFromSlots(slots: seq<Slot>, pool: seq<Reg>, plan: Plan, from: seq<int>, into: seq<int>)
    requires Allocated(slots, pool, plan.proms, from, into) && ExtFits(plan.proms, plan.ext)
    ensures plan.proms != [] ==> slots != []
    ensures plan.ext != [] ==> plan.proms != []
  {
    if plan.proms != [] { assert 0 <= from[0] < |slots|; }
    if plan.ext != [] { assert Extra(plan.ext[0]); }
  }

  lemma SlotsComeFromAccesses(ops: seq<Op>, raw: seq<Slot>)
    requires SlotsExact(ops, |ops|, raw) && raw != []
    ensures exists i :: 0 <= i < |ops| && TouchesFrame(ops[i])
  {
    assert SlotExact(ops, |ops|, raw[0]);
    assert TouchesFrame(ops[raw[0].first]);
  }

  lemma NoSlots(ops: seq<Op>, plan: Plan, raw: seq<Slot>, slots: seq<Slot>, used: set<Reg>, edges: seq<Edge>,
      from: seq<int>, into: seq<int>)
    requires Analysis(Arm64, ops, plan, raw, slots, used, edges, from, into)
    requires forall i :: 0 <= i < |ops| ==> !TouchesFrame(ops[i])
    ensures plan.proms == [] && plan.ext == []
  {
    hide SlotsExact, Allocated, ExtFits, Served, PairsOf, TouchesFrame;
    if raw != [] { SlotsComeFromAccesses(ops, raw); }
    PromsComeFromSlots(slots, Pool(Arm64, used, HasCall(ops)), plan, from, into);
  }

  lemma V7IsFree(op: Op, used: set<Reg>, ext: seq<Reg>)
    requires WritesV7(op)
    ensures Recorder.PairReg(Arm64, Across(op), used, ext, [], 2, 4) == Basics.Some(V7)
  {
    var ops := Across(op);
    assert Straight(ops, 2, 4) && !CallsBetween(ops, 2, 4);
    var cands := Candidates(Arm64, used, ext, false);
    assert cands[0] == V7 && FreeAcross(ops, [], 2, 4, V7);
  }

  lemma OnePair(op: Op, used: set<Reg>)
    requires WritesV7(op)
    ensures PairsOf(Arm64, Across(op), used, [], []) == [Pair(2, 4, V7)]
  {
    hide Recorder.PairReg;
    var ops := Across(op);
    V7IsFree(op, used, []);
    assert Claims([], []) == [];
    assert MatchUpTo(Arm64, ops, used, [], [], 2) == Match([], []) by {
      assert MatchUpTo(Arm64, ops, used, [], [], 0) == Match([], []);
    }
    assert MatchUpTo(Arm64, ops, used, [], [], 4) == Match([2], []) by {
      assert MatchUpTo(Arm64, ops, used, [], [], 3) == Match([2], []);
    }
    assert MatchUpTo(Arm64, ops, used, [], [], 5) == Match([], [Pair(2, 4, V7)]);
    assert MatchUpTo(Arm64, ops, used, [], [], 6) == Match([], [Pair(2, 4, V7)]);
    assert MatchUpTo(Arm64, ops, used, [], [], 7) == Match([], [Pair(2, 4, V7)]);
  }

  /** The analysis sends the pair through V7, and nothing else is possible. */
  lemma AnalysisTakesV7(op: Op, plan: Plan)
    requires WritesV7(op) && Analysed(Arm64, Across(op), plan)
    ensures plan == THROUGH_V7
  {
    hide Analysis, PairsOf, HasIndirect;
    var raw, slots, used, edges, from, into :| Analysis(Arm64, Across(op), plan, raw, slots, used, edges, from, into);
    NoSlots(Across(op), plan, raw, slots, used, edges, from, into);
    OnePair(op, used);
    PairsAre(Across(op), plan, raw, slots, used, edges, from, into);
    assert !HasIndirect(Across(op)) by { NotIndirect(op); }
  }

  lemma NotIndirect(op: Op)
    requires WritesV7(op)
    ensures !HasIndirect(Across(op)) && !SomeBails(Across(op)) && WellFormed(Across(op))
  {
    hide Phys;
  }

  lemma PairsAre(ops: seq<Op>, plan: Plan, raw: seq<Slot>, slots: seq<Slot>, used: set<Reg>, edges: seq<Edge>,
      from: seq<int>, into: seq<int>)
    requires Analysis(Arm64, ops, plan, raw, slots, used, edges, from, into)
    ensures plan.pairs == if HasIndirect(ops) then [] else PairsOf(Arm64, ops, used, plan.ext, plan.proms)
  {
    hide PairsOf, HasIndirect;
  }

  lemma RunStep(env: Env, prog: seq<Op>, s: State, n: nat)
    requires n > 0 && !Halted(prog, s)
    ensures Run(env, prog, s, n) == Run(env, prog, Step(env, prog, s), n - 1)
  {
  }

  /** Five steps in the middle, between a prologue and an epilogue that save S0-S3. */
  lemma FrameAround(env: Env, prog: seq<Op>, s: State, t: State)
    requires |prog| == 7 && prog[0] == Prologue(0, CALLEE_SAVED) && prog[6] == Epilogue(CALLEE_SAVED, 0)
    requires Begins(s) && t == Run(env, prog, Step(env, prog, s), 5)
    requires t.status == Running && t.pc == 6 && t.stack == [] && t.saved == Values(env, s.regs, CALLEE_SAVED)
    ensures
      var u := Run(env, prog, s, 7);
      u.status == Returned && Get(env, u.regs, RET) == Get(env, t.regs, RET) && u.world == t.world
  {
    hide Run, Step, Restored;
    RunStep(env, prog, s, 6);
    RunExtends(env, prog, s, 6);
    ShapeEpilogue(env, prog, t);
    RestoredIsEntry(env, s.regs, t.regs, CALLEE_SAVED, t.saved, Phys(env.arch, RET));
  }

  /** Push, nop and pop leave V7 alone. */
  lemma RoundTrip(env: Env, op: Op, s: State) returns (s3: State, s4: State, t: State)
    requires env.arch == Arm64 && s.status == Running && s.pc == 2 && s.stack == [] && WritesV7(op)
    ensures s3 == Step(env, Across(op), s) && s3.status == Running && s3.pc == 3
    ensures s4 == Step(env, Across(op), s3) && s4.status == Running && s4.pc == 4
    ensures t == Step(env, Across(op), s4) && t.status == Running && t.pc == 5
    ensures t.stack == [] && t.saved == s.saved && t.world == s.world && Get(env, t.regs, V7) == Get(env, s.regs, V7)
  {
    hide Get;
    s3 := Step(env, Across(op), s);
    assert s3 == s.(pc := 3, stack := [Get(env, s.regs, V0)]);
    s4 := Step(env, Across(op), s3);
    assert s4 == s3.(pc := 4);
    t := Step(env, Across(op), s4);
    assert t == s4.(pc := 5, stack := [], regs := Set(env, s4.regs, V1, Get(env, s.regs, V0)));
    SetKeeps(env, s4.regs, V1, Get(env, s.regs, V0), V7);
  }

  lemma SetKeeps(env: Env, regs: int -> Word, d: Reg, v: Word, r: Reg)
    requires Phys(env.arch, d) != Phys(env.arch, r)
    ensures Get(env, Set(env, regs, d, v), r) == Get(env, regs, r)
  {
  }

  lemma RecordedMiddle(env: Env, op: Op, s: State, t: State)
    requires env.arch == Arm64 && s.status == Running && s.pc == 1 && s.stack == [] && WritesV7(op)
    requires t == Run(env, Across(op), s, 5)
    ensures t.status == Running && t.pc == 6 && t.stack == [] && t.saved == s.saved
    ensures t.world == Step(env, Across(op), s).world
    ensures Get(env, t.regs, RET) == Get(env, Step(env, Across(op), s).regs, V7)
  {
    hide Run;
    var prog := Across(op);
    var s1 := Step(env, prog, s);
    assert s1.pc == 2 && s1.stack == [] && s1.status == Running && s1.saved == s.saved;
    RunStep(env, prog, s, 5);
    RunRest(env, op, s1, t);
  }

  lemma RunRest(env: Env, op: Op, s: State, t: State)
    requires env.arch == Arm64 && s.status == Running && s.pc == 2 && s.stack == [] && WritesV7(op)
    requires t == Run(env, Across(op), s, 4)
    ensures t.status == Running && t.pc == 6 && t.stack == [] && t.saved == s.saved && t.world == s.world
    ensures Get(env, t.regs, RET) == Get(env, s.regs, V7)
  {
    hide Run, Step;
    var prog := Across(op);
    var s3, s4, s5 := RoundTrip(env, op, s);
    RunStep(env, prog, s, 4);
    RunStep(env, prog, s3, 3);
    RunStep(env, prog, s4, 2);
    RunStep(env, prog, s5, 1);
    NoSteps(env, prog, Step(env, prog, s5));
    Moves7(env, prog, s5);
  }

  /** The last op but one of both programs. */
  lemma Moves7(env: Env, prog: seq<Op>, s: State)
    requires s.status == Running && s.pc == 5 < |prog| && prog[5] == Mov(RET, V7)
    ensures Step(env, prog, s) == s.(pc := 6, regs := Set(env, s.regs, RET, Get(env, s.regs, V7)))
    ensures Get(env, Step(env, prog, s).regs, RET) == Get(env, s.regs, V7)
  {
  }

  lemma NoSteps(env: Env, prog: seq<Op>, s: State)
    ensures Run(env, prog, s, 0) == s
  {
  }

  lemma ReplayedMiddle(env: Env, op: Op, s: State, t: State)
    requires env.arch == Arm64 && s.status == Running && s.pc == 1 && s.stack == [] && WritesV7(op)
    requires t == Run(env, Overwritten(op), s, 5)
    ensures t.status == Running && t.pc == 6 && t.stack == [] && t.saved == s.saved
    ensures t.world == Step(env, Overwritten(op), s).world && Get(env, t.regs, RET) == Get(env, s.regs, V0)
  {
    hide Run;
    var prog := Overwritten(op);
    var s1 := Step(env, prog, s);
    var s2 := Step(env, prog, s1);
    var s3 := Step(env, prog, s2);
    var s4 := Step(env, prog, s3);
    var s5 := Step(env, prog, s4);
    var v := Get(env, s.regs, V0);
    assert s1.pc == 2 && Get(env, s1.regs, V0) == v;
    assert s2.pc == 3 && Get(env, s2.regs, V7) == v;
    assert s3.pc == 4 && Get(env, s3.regs, V7) == v;
    assert s4.pc == 5 && Get(env, s4.regs, V7) == v;
    RunStep(env, prog, s, 5);
    RunStep(env, prog, s1, 4);
    RunStep(env, prog, s2, 3);
    RunStep(env, prog, s3, 2);
    RunStep(env, prog, s4, 1);
    NoSteps(env, prog, s5);
  }

  lemma ReplayIs(op: Op)
    requires WritesV7(op)
    ensures Replayed(Arm64, THROUGH_V7, Across(op)) == Overwritten(op)
  {
    assert FindPair(THROUGH_V7.pairs, 2) == 0 == FindPair(THROUGH_V7.pairs, 4);
  }

  /** The record returns what its second op puts into V7, and neither changes the world beyond that op. */
  function SecondOp(env: Env, op: Op, s: State): State
    requires Begins(s) && WritesV7(op)
  {
    Step(env, Across(op), Step(env, Across(op), s))
  }

  lemma SecondOpIs(env: Env, op: Op, s: State)
    requires env.arch == Arm64 && Begins(s) && WritesV7(op)
    ensures
      var v := Get(env, SecondOp(env, op, s).regs, V7);
      v == if op == FIVE then env.sem.value(4, Num(5), Num(0), s.world) else Get(env, s.regs, V0)
    ensures Step(env, Overwritten(op), Step(env, Overwritten(op), s)).world == SecondOp(env, op, s).world
  {
  }

  /** Recorded, the function returns what the op has put into V7; replayed, it returns V0. */
  lemma BothResults(env: Env, op: Op, s: State)
    requires env.arch == Arm64 && Begins(s) && WritesV7(op)
    ensures
      var a, b := Run(env, Across(op), s, 7), Run(env, Replayed(Arm64, THROUGH_V7, Across(op)), s, 7);
      && a.status == Returned == b.status && a.world == b.world && Get(env, b.regs, RET) == Get(env, s.regs, V0)
      && Get(env, a.regs, RET) == if op == FIVE then env.sem.value(4, Num(5), Num(0), s.world) else Get(env, s.regs, V0)
  {
    hide Run, Replayed;
    ReplayIs(op);
    SecondOpIs(env, op, s);
    var a1, b1 := Step(env, Across(op), s), Step(env, Overwritten(op), s);
    RecordedMiddle(env, op, a1, Run(env, Across(op), a1, 5));
    ReplayedMiddle(env, op, b1, Run(env, Overwritten(op), b1, 5));
    FrameAround(env, Across(op), s, Run(env, Across(op), a1, 5));
    FrameAround(env, Overwritten(op), s, Run(env, Overwritten(op), b1, 5));
  }

  /** The plan the analysis makes for this record returns V0 instead of 5: the region rule looks for uses of V7 between
      push and pop only, not after them. */
  lemma LiveRegisterIsLost(env: Env, plan: Plan, s: State)
    requires env.arch == Arm64 && Begins(s) && Get(env, s.regs, V0) != Num(5)
    requires forall w :: env.sem.value(4, Num(5), Num(0), w) == Num(5)
    requires Analysed(Arm64, Across(FIVE), plan)
    ensures
      var a, b := Run(env, Across(FIVE), s, 7), Run(env, Replayed(Arm64, plan, Across(FIVE)), s, 7);
      a.status == Returned == b.status && Get(env, a.regs, RET) == Num(5)
        && Get(env, b.regs, RET) == Get(env, s.regs, V0) != Num(5)
  {
    hide Run, Replayed, Across, Get, Analysed;
    AnalysisTakesV7(FIVE, plan);
    BothResults(env, FIVE, s);
  }

  /** Discipline is not necessary: where V7 happens to hold V0 already, reading it is against the rule, and harmless. */
  lemma DisciplineIsNotNeeded(env: Env, plan: Plan, s: State)
    requires env.arch == Arm64 && Begins(s) && Analysed(Arm64, Across(Mov(V7, V0)), plan)
    ensures !DisciplinedRun(env, plan, Across(Mov(V7, V0)), s, Start(plan), 7)
    ensures
      var a, b := Run(env, Across(Mov(V7, V0)), s, 7), Run(env, Replayed(Arm64, plan, Across(Mov(V7, V0))), s, 7);
      a.status == Returned == b.status && a.world == b.world && Get(env, a.regs, RET) == Get(env, b.regs, RET)
  {
    hide Run, DisciplinedRun, Replayed, Across, Get, Analysed;
    AnalysisTakesV7(Mov(V7, V0), plan);
    BothResults(env, Mov(V7, V0), s);
    Undisciplined(env, s);
  }

  lemma Undisciplined(env: Env, s: State)
    requires env.arch == Arm64 && Begins(s)
    ensures !DisciplinedRun(env, THROUGH_V7, Across(Mov(V7, V0)), s, Start(THROUGH_V7), 7)
  {
    hide Step, Get, Set, Phys;
    var prog := Across(Mov(V7, V0));
    var s1, s2 := TwoSteps(env, s);
    var s3, s4, s5 := RoundTrip(env, Mov(V7, V0), s2);
    var g2 := Ghost({}, {}, []);
    assert Start(THROUGH_V7) == g2;
    var g3 := Track(THROUGH_V7, prog, 2, g2);
    assert FindPair(THROUGH_V7.pairs, 2) == 0;
    assert V7 in g3.dirty && g3.origin == [2];
    var g5 := Track(THROUGH_V7, prog, 4, Track(THROUGH_V7, prog, 3, g3));
    assert V7 in g5.dirty && !Disciplined(prog, 5, g5);
    assert !DisciplinedRun(env, THROUGH_V7, prog, s5, g5, 2);
    assert !DisciplinedRun(env, THROUGH_V7, prog, s3, g3, 4);
    assert !DisciplinedRun(env, THROUGH_V7, prog, s2, g2, 5);
  }

  lemma TwoSteps(env: Env, s: State) returns (t: State, u: State)
    requires Begins(s)
    ensures t == Step(env, Across(Mov(V7, V0)), s) && t.status == Running && t.pc == 1
    ensures u == Step(env, Across(Mov(V7, V0)), t) && u.status == Running && u.pc == 2 && u.stack == []
    ensures
      var g := Track(THROUGH_V7, Across(Mov(V7, V0)), 0, Start(THROUGH_V7));
      Track(THROUGH_V7, Across(Mov(V7, V0)), 1, g) == Start(THROUGH_V7)
  {
    t := Step(env, Across(Mov(V7, V0)), s);
    u := Step(env, Across(Mov(V7, V0)), t);
  }
}
