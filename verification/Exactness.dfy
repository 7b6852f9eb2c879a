/** Store-before-load is not only enough for slot promotion, it is exactly what it needs. */
module Exactness {
  import opened VRegs
  import opened Machine
  import opened Plans
  import opened Promotion

  predicate Begins(s: State) {
    s.status == Running && s.pc == 0
  }

  /** Every run of the record stores each promoted slot before it loads it. */
  ghost predicate StoresFirst(env: Env, plan: Plan, ops: seq<Op>) {
    forall s, n: nat :: Begins(s) ==> DisciplinedRun(env, plan, ops, s, Start(plan), n)
  }

  /** The two programs are at the same place with the same effects, and agree on every register outside the pool. */
  ghost predicate Same(env: Env, plan: Plan, a: State, b: State) {
    && a.status == b.status && a.pc == b.pc
    && (a.status != Faulted ==> a.world == b.world)
    && (a.status == Running ==> forall r :: !Pooled(plan, r) ==> Get(env, a.regs, r) == Get(env, b.regs, r))
  }

  ghost predicate Faithful(env: Env, plan: Plan, ops: seq<Op>) {
    forall s, n: nat :: Begins(s) ==>
      Same(env, plan, Run(env, ops, s, n), Run(env, Replayed(env.arch, plan, ops), s, n))
  }

  // ---------- neither program notices a slot nobody has stored ----------

  /** t is s up to the contents of the slot `off`, which is w in t. */
  ghost predicate Twin(off: int, w: Word, s: State, t: State) {
    && t == s.(slots := t.slots)
    && (forall o :: o != off ==> t.slots(o) == s.slots(o))
    && t.slots(off) == w
  }

  /** Only loads and stores have to do with the slots. */
  lemma SlotsAside(env: Env, prog: seq<Op>, s: State, slots: int -> Word)
    requires s.status == Running && s.pc < |prog| && !prog[s.pc].Load? && !prog[s.pc].Store?
    ensures Step(env, prog, s.(slots := slots)) == Step(env, prog, s).(slots := slots)
    ensures Step(env, prog, s).slots == s.slots
  {
    hide Set, Get, Restored, Values, AfterCall, AfterSys, Prepared, FindLabel, Val;
    match prog[s.pc]
    case Call(_, _) =>
    case Syscall(_, _) =>
    case PrepareCall(_) =>
    case Jump(_, _) =>
    case JmpIndirect(_) =>
    case Prologue(_, _) =>
    case Epilogue(_, _) =>
    case Push(_) =>
    case Pop(_) =>
    case Compute(_, _, _, _) =>
    case Effect(_, _, _, _) =>
    case _ =>
  }

  /** An op that does not access the slot treats twins alike. */
  lemma TwinStep(env: Env, prog: seq<Op>, off: int, w: Word, s: State, t: State)
    requires Twin(off, w, s, t) && s.status == Running && s.pc < |prog| && !Accesses(prog[s.pc], off)
    ensures Twin(off, w, Step(env, prog, s), Step(env, prog, t))
    ensures Step(env, prog, s).slots(off) == s.slots(off)
  {
    hide Step;
    if prog[s.pc].Load? {
      ShapeLoad(env, prog, s);
      ShapeLoad(env, prog, t);
    } else if prog[s.pc].Store? {
      ShapeStore(env, prog, s);
      ShapeStore(env, prog, t);
    } else {
      SlotsAside(env, prog, s, t.slots);
    }
  }

  lemma {:induction false} ReplayBlind(env: Env, prog: seq<Op>, off: int, w: Word, s: State, t: State, n: nat)
    requires Twin(off, w, s, t) && forall i :: 0 <= i < |prog| ==> !Accesses(prog[i], off)
    ensures Twin(off, w, Run(env, prog, s, n), Run(env, prog, t, n))
    decreases n
  {
    if n > 0 && !Halted(prog, s) {
      TwinStep(env, prog, off, w, s, t);
      ReplayBlind(env, prog, off, w, Step(env, prog, s), Step(env, prog, t), n - 1);
    }
  }

  /** The replay never touches the memory of a promoted slot. */
  lemma ReplayAvoids(arch: Arch, plan: Plan, ops: seq<Op>, off: int)
    requires Promoted(plan, off)
    ensures forall i :: 0 <= i < |ops| ==> !Accesses(Replayed(arch, plan, ops)[i], off)
  {
  }

  /** Nor does a disciplined recorded run, before the first store. */
  lemma {:induction false} RecordBlind(env: Env, plan: Plan, ops: seq<Op>, off: int, w: Word, s: State, t: State,
      g: Ghost, n: nat)
    requires Twin(off, w, s, t) && DisciplinedRun(env, plan, ops, s, g, n)
    requires off in TrackRun(env, plan, ops, s, g, n).unset
    ensures Twin(off, w, Run(env, ops, s, n), Run(env, ops, t, n))
    ensures Run(env, ops, s, n).slots(off) == s.slots(off)
    decreases n
  {
    hide Step;
    if n > 0 && !Halted(ops, s) {
      UnsetShrinks(env, plan, ops, Step(env, ops, s), Track(plan, ops, s.pc, g), n - 1);
      assert !Accesses(ops[s.pc], off);
      TwinStep(env, ops, off, w, s, t);
      RecordBlind(env, plan, ops, off, w, Step(env, ops, s), Step(env, ops, t), Track(plan, ops, s.pc, g), n - 1);
    }
  }

  lemma {:induction false} UnsetShrinks(env: Env, plan: Plan, ops: seq<Op>, s: State, g: Ghost, n: nat)
    ensures TrackRun(env, plan, ops, s, g, n).unset <= g.unset
    decreases n
  {
    if n > 0 && !Halted(ops, s) {
      UnsetShrinks(env, plan, ops, Step(env, ops, s), Track(plan, ops, s.pc, g), n - 1);
    }
  }

  lemma {:induction false} RunExtends(env: Env, prog: seq<Op>, s: State, n: nat)
    requires !Halted(prog, Run(env, prog, s, n))
    ensures Run(env, prog, s, n + 1) == Step(env, prog, Run(env, prog, s, n))
    decreases n
  {
    hide Step;
    if n > 0 {
      RunExtends(env, prog, Step(env, prog, s), n - 1);
    }
  }

  /** The state s with w in the slot `off`. */
  function WithSlot(s: State, off: int, w: Word): State {
    s.(slots := o => if o == off then w else s.slots(o))
  }

  /** The op about to run loads a promoted slot that the run has not stored. */
  predicate EarlyLoad(plan: Plan, ops: seq<Op>, a: State, g: Ghost) {
    && !Halted(ops, a) && ops[a.pc].Load? && ops[a.pc].base == FP
    && Promoted(plan, ops[a.pc].off) && ops[a.pc].off in g.unset
  }

  lemma LoadResult(env: Env, ops: seq<Op>, s: State, n: nat)
    requires
      var a := Run(env, ops, s, n);
      !Halted(ops, a) && ops[a.pc].Load? && ops[a.pc].base == FP
    ensures
      var a, a' := Run(env, ops, s, n), Run(env, ops, s, n + 1);
      a'.status == Running && Get(env, a'.regs, ops[a.pc].dest) == a.slots(ops[a.pc].off)
  {
    hide Run;
    RunExtends(env, ops, s, n);
    ShapeLoad(env, ops, Run(env, ops, s, n));
  }

  /** If a run loads a promoted slot it has not stored, then for this initial frame or for one that differs in that slot
      alone the replay puts a different value in the destination. */
  lemma EarlyLoadShows(env: Env, plan: Plan, ops: seq<Op>, s: State, n: nat)
    requires Begins(s) && DisciplinedRun(env, plan, ops, s, Start(plan), n)
    requires EarlyLoad(plan, ops, Run(env, ops, s, n), TrackRun(env, plan, ops, s, Start(plan), n))
    requires !Pooled(plan, ops[Run(env, ops, s, n).pc].dest)
    ensures !Faithful(env, plan, ops)
  {
    hide Run, DisciplinedRun, TrackRun, Promoted, Pooled, Replayed;
    var a, out := Run(env, ops, s, n), Replayed(env.arch, plan, ops);
    var off := ops[a.pc].off;
    var w := if a.slots(off) == Num(0) then Num(1) else Num(0);
    var t := WithSlot(s, off, w);
    RecordBlind(env, plan, ops, off, w, s, t, Start(plan), n);
    ReplayAvoids(env.arch, plan, ops, off);
    ReplayBlind(env, out, off, w, s, t, n + 1);
    LoadResult(env, ops, s, n);
    LoadResult(env, ops, t, n);
    assert !Same(env, plan, Run(env, ops, s, n + 1), Run(env, out, s, n + 1))
        || !Same(env, plan, Run(env, ops, t, n + 1), Run(env, out, t, n + 1));
  }

  // ---------- the exact condition ----------

  /** Every pair goes through a saved register, as always off arm64. */
  predicate NoBorrowing(plan: Plan) {
    forall k :: 0 <= k < |plan.pairs| ==> !IsBorrowed(plan.pairs[k].reg)
  }

  /** Without borrowing no register is ever dirty, so only early loads are undisciplined. */
  lemma {:induction false} FirstFault(env: Env, plan: Plan, ops: seq<Op>, s: State, g: Ghost, n: nat) returns (m: nat)
    requires NoBorrowing(plan) && g.dirty == {} && !DisciplinedRun(env, plan, ops, s, g, n)
    ensures m < n && DisciplinedRun(env, plan, ops, s, g, m)
    ensures var a, h := Run(env, ops, s, m), TrackRun(env, plan, ops, s, g, m);
      !Halted(ops, a) && h.dirty == {} && !Disciplined(ops, a.pc, h)
    decreases n
  {
    hide Step, Disciplined, Track, Begins;
    if Disciplined(ops, s.pc, g) {
      NeverDirty(plan, ops, s, g);
      var k := FirstFault(env, plan, ops, Step(env, ops, s), Track(plan, ops, s.pc, g), n - 1);
      m := k + 1;
    } else {
      m := 0;
    }
  }

  lemma NeverDirty(plan: Plan, ops: seq<Op>, s: State, g: Ghost)
    requires NoBorrowing(plan) && g.dirty == {} && s.pc < |ops|
    ensures Track(plan, ops, s.pc, g).dirty == {}
  {
  }

  lemma {:induction false} UnsetIsPromoted(env: Env, plan: Plan, ops: seq<Op>, s: State, n: nat, off: int)
    requires off in TrackRun(env, plan, ops, s, Start(plan), n).unset
    ensures Promoted(plan, off)
  {
    UnsetShrinks(env, plan, ops, s, Start(plan), n);
    var k :| 0 <= k < |plan.proms| && plan.proms[k].off == off;
  }

  lemma DisciplinedStaysSame(env: Env, plan: Plan, ops: seq<Op>, s: State, n: nat)
    requires WellFormed(ops) && ValidPlan(env.arch, ops, plan) && ViewFits(env, ops) && NoBorrowing(plan)
    requires Begins(s) && DisciplinedRun(env, plan, ops, s, Start(plan), n)
    ensures Same(env, plan, Run(env, ops, s, n), Run(env, Replayed(env.arch, plan, ops), s, n))
  {
    if n > 0 {
      var g := TrackRun(env, plan, ops, s, Start(plan), n);
      NeverDirtyRun(env, plan, ops, s, Start(plan), n);
      ReplaySimulates(env, plan, ops, s, n);
      SimIsSame(env, plan, ops, s.regs, Run(env, ops, s, n), g, Run(env, Replayed(env.arch, plan, ops), s, n));
    }
  }

  lemma {:induction false} NeverDirtyRun(env: Env, plan: Plan, ops: seq<Op>, s: State, g: Ghost, n: nat)
    requires NoBorrowing(plan) && g.dirty == {}
    ensures TrackRun(env, plan, ops, s, g, n).dirty == {}
    decreases n
  {
    hide Step, Track;
    if n > 0 && !Halted(ops, s) {
      NeverDirty(plan, ops, s, g);
      NeverDirtyRun(env, plan, ops, Step(env, ops, s), Track(plan, ops, s.pc, g), n - 1);
    }
  }

  lemma SimIsSame(env: Env, plan: Plan, ops: seq<Op>, entry: int -> Word, a: State, g: Ghost, b: State)
    requires |ops| > 0 && ops[0].Prologue? && Sim(env, plan, ops, entry, a, g, b) && g.dirty == {}
    ensures Same(env, plan, a, b)
  {
    if a.status == Running {
      forall r | !Pooled(plan, r)
        ensures Get(env, a.regs, r) == Get(env, b.regs, r)
      {
        Visible(env, plan, g.dirty, a.regs, b.regs, r);
      }
    }
  }

  /** Slot promotion is faithful for all initial states exactly when every run stores each promoted slot before loading
      it. */
  lemma PromotionIsExact(env: Env, plan: Plan, ops: seq<Op>)
    requires WellFormed(ops) && ValidPlan(env.arch, ops, plan) && ViewFits(env, ops) && NoBorrowing(plan)
    ensures Faithful(env, plan, ops) <==> StoresFirst(env, plan, ops)
  {
    hide Run, DisciplinedRun, TrackRun, ValidPlan, WellFormed, ViewFits, Same;
    if StoresFirst(env, plan, ops) {
      forall s, n: nat | Begins(s)
        ensures Same(env, plan, Run(env, ops, s, n), Run(env, Replayed(env.arch, plan, ops), s, n))
      {
        DisciplinedStaysSame(env, plan, ops, s, n);
      }
    } else {
      var s, n: nat :| Begins(s) && !DisciplinedRun(env, plan, ops, s, Start(plan), n);
      var m := FirstFault(env, plan, ops, s, Start(plan), n);
      FaultIsEarlyLoad(env, plan, ops, s, m);
      EarlyLoadShows(env, plan, ops, s, m);
    }
  }

  lemma FaultIsEarlyLoad(env: Env, plan: Plan, ops: seq<Op>, s: State, m: nat)
    requires ValidPlan(env.arch, ops, plan)
    requires var a, h := Run(env, ops, s, m), TrackRun(env, plan, ops, s, Start(plan), m);
      !Halted(ops, a) && h.dirty == {} && !Disciplined(ops, a.pc, h)
    ensures var a, h := Run(env, ops, s, m), TrackRun(env, plan, ops, s, Start(plan), m);
      EarlyLoad(plan, ops, a, h) && !Pooled(plan, ops[a.pc].dest)
  {
    hide Run, TrackRun;
    var a := Run(env, ops, s, m);
    UnsetIsPromoted(env, plan, ops, s, m, ops[a.pc].off);
    NamedIsFree(env.arch, ops, plan, a.pc, ops[a.pc].dest);
  }
}
