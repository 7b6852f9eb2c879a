/** The recorder's decision, its replay and the removal of dropped ops, put together. */
module EndToEnd {
  import opened VRegs
  import opened Machine
  import opened Plans
  import opened Compaction
  import opened Promotion
  import opened Recorder

  lemma {:induction false} NothingToDrop(ops: seq<Op>)
    requires forall i :: 0 <= i < |ops| ==> !ops[i].Skip?
    ensures Compact(ops) == ops
  {
    if ops != [] {
      NothingToDrop(ops[..|ops| - 1]);
    }
  }

  /** Without promotions and pairs the replay makes exactly the recorded calls: recording is transparent. */
  lemma EmptyPlanIsVerbatim(arch: Arch, ops: seq<Op>)
    requires forall i :: 0 <= i < |ops| ==> !ops[i].Skip?
    ensures Compact(Replayed(arch, NO_PLAN, ops)) == ops
  {
    assert Replayed(arch, NO_PLAN, ops) == ops;
    NothingToDrop(ops);
  }

  /** The compact replay reaches a state that agrees with the recorded one: same status, and on return same result,
      same effects, and the caller's saved registers intact. */
  lemma EmittedCodeIsFaithful(env: Env, plan: Plan, ops: seq<Op>, s: State, n: nat)
    requires WellFormed(ops) && ValidPlan(env.arch, ops, plan) && ViewFits(env, ops)
    requires s.status == Running && s.pc == 0 && n > 0
    requires DisciplinedRun(env, plan, ops, s, Start(plan), n)
    ensures
      var out := Replayed(env.arch, plan, ops);
      var a, c := Run(env, ops, s, n), Run(env, Compact(out), s, Executed(env, out, s, n));
      && a.pc <= |out| && a.status == c.status && c.pc == Pos(out, a.pc)
      && (a.status == Returned ==>
            && a.world == c.world && Get(env, a.regs, RET) == Get(env, c.regs, RET)
            && (forall r :: r in {S0, S1, S2, S3} || Spare(ops, r) ==>
                  Get(env, a.regs, r) == Get(env, c.regs, r) == Get(env, s.regs, r)))
  {
    hide Run, WellFormed, ValidPlan, ViewFits, DisciplinedRun, Compact, Spare;
    CallerSeesNoDifference(env, plan, ops, s, n);
    CompactRun(env, Replayed(env.arch, plan, ops), s, n);
    SameStart(Replayed(env.arch, plan, ops), s);
  }

  lemma SameStart(out: seq<Op>, s: State)
    requires s.pc == 0
    ensures Shrunk(out, s) == s
  {
  }
}
