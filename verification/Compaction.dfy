/** Dropped ops emit nothing.  Removing the Skips from a program changes neither its path nor its results. */
module Compaction {
  import opened VRegs
  import opened Machine

  /** The calls that are actually made. */
  function Compact(prog: seq<Op>): (out: seq<Op>)
    ensures |out| == Count(prog)
  {
    if prog == [] then []
    else
      var n := |prog| - 1;
      Compact(prog[..n]) + (if prog[n].Skip? then [] else [prog[n]])
  }

  function Count(prog: seq<Op>): nat {
    if prog == [] then 0
    else Count(prog[..|prog| - 1]) + (if prog[|prog| - 1].Skip? then 0 else 1)
  }

  /** The compact position of position i. */
  function Pos(prog: seq<Op>, i: int): nat
    requires 0 <= i <= |prog|
  {
    Count(prog[..i])
  }

  lemma CompactAppend(prog: seq<Op>, op: Op)
    ensures Compact(prog + [op]) == Compact(prog) + (if op.Skip? then [] else [op])
  {
    assert (prog + [op])[..|prog|] == prog;
  }

  /** Positions are monotone, and an op that is not dropped is found at its compact position. */
  lemma {:induction false} PosIs(prog: seq<Op>, i: nat)
    requires i < |prog|
    ensures Pos(prog, i + 1) == Pos(prog, i) + (if prog[i].Skip? then 0 else 1) <= Count(prog)
    ensures !prog[i].Skip? ==> Compact(prog)[Pos(prog, i)] == prog[i]
    decreases |prog|
  {
    var n := |prog| - 1;
    if i < n {
      PosIs(prog[..n], i);
      assert prog[..n][..i] == prog[..i] && prog[..n][..i + 1] == prog[..i + 1];
    } else {
      assert prog[..n + 1] == prog;
    }
    assert prog[..i + 1][..i] == prog[..i];
  }

  /** Every compact position is the position of an op that was not dropped. */
  lemma {:induction false} PosOnto(prog: seq<Op>, c: nat) returns (i: nat)
    requires c < Count(prog)
    ensures i < |prog| && !prog[i].Skip? && Pos(prog, i) == c
  {
    var n := |prog| - 1;
    if c < Count(prog[..n]) {
      i := PosOnto(prog[..n], c);
      assert prog[..n][..i] == prog[..i];
    } else {
      i := n;
    }
  }

  lemma {:induction false} PosMono(prog: seq<Op>, i: nat, j: nat)
    requires i <= j <= |prog|
    ensures Pos(prog, i) <= Pos(prog, j)
    decreases j
  {
    if i < j {
      PosMono(prog, i, j - 1);
      PosIs(prog, j - 1);
    }
  }

  /** Labels are found at the compact position of where they stood. */
  lemma LabelMoves(prog: seq<Op>, name: string)
    ensures FindLabel(Compact(prog), name) == Pos(prog, FindLabel(prog, name))
    ensures FindLabel(Compact(prog), name) < |Compact(prog)| <==> FindLabel(prog, name) < |prog|
  {
    var out, t := Compact(prog), FindLabel(prog, name);
    assert prog[..|prog|] == prog;
    if t < |prog| { PosIs(prog, t); }
    forall c | 0 <= c < |out| && c < Pos(prog, t)
      ensures !IsLabel(out, c, name)
    {
      var i := PosOnto(prog, c);
      PosIs(prog, i);
      if t <= i { PosMono(prog, t, i); }
      assert !IsLabel(prog, i, name);
    }
    if t < |prog| {
      assert IsLabel(out, Pos(prog, t), name);
    }
  }

  function Shrunk(prog: seq<Op>, s: State): State
    requires s.pc <= |prog|
  {
    s.(pc := Pos(prog, s.pc))
  }

  /** An op other than a jump acts on the state alone. */
  lemma StepIsLocal(env: Env, prog: seq<Op>, s: State, out: seq<Op>, c: nat)
    requires s.status == Running && s.pc < |prog| && c < |out| && out[c] == prog[s.pc]
    requires !prog[s.pc].Jump? && !prog[s.pc].JmpIndirect?
    ensures
      var t, u := Step(env, prog, s), Step(env, out, s.(pc := c));
      (t.pc == s.pc + 1 && u == t.(pc := c + 1)) || (t.pc == s.pc && t.status != Running && u == t.(pc := c))
  {
  }

  lemma StepIsJump(env: Env, prog: seq<Op>, s: State, name: string)
    requires s.status == Running && s.pc < |prog|
    requires (prog[s.pc].Jump? && name == prog[s.pc].target)
          || (prog[s.pc].JmpIndirect? && name == env.sem.landing(Get(env, s.regs, prog[s.pc].reg)))
    ensures
      var taken := prog[s.pc].Jump? ==> prog[s.pc].code == RC_JMP || env.sem.taken(prog[s.pc].code, s.world);
      Step(env, prog, s) ==
        if !taken then s.(pc := s.pc + 1)
        else if FindLabel(prog, name) < |prog| then s.(pc := FindLabel(prog, name)) else s.(status := Left)
  {
  }

  /** A dropped op does nothing, and any other op does in the compact program exactly what it did. */
  lemma CompactStep(env: Env, prog: seq<Op>, s: State)
    requires s.status == Running && s.pc < |prog|
    ensures Step(env, prog, s).pc <= |prog|
    ensures prog[s.pc].Skip? ==> Shrunk(prog, Step(env, prog, s)) == Shrunk(prog, s)
    ensures !prog[s.pc].Skip? ==>
      Pos(prog, s.pc) < |Compact(prog)| && Step(env, Compact(prog), Shrunk(prog, s)) == Shrunk(prog, Step(env, prog, s))
  {
    hide Compact, Count;
    PosIs(prog, s.pc);
    if prog[s.pc].Jump? || prog[s.pc].JmpIndirect? {
      hide Step;
      var name := if prog[s.pc].Jump? then prog[s.pc].target else env.sem.landing(Get(env, s.regs, prog[s.pc].reg));
      LabelMoves(prog, name);
      StepIsJump(env, prog, s, name);
      StepIsJump(env, Compact(prog), Shrunk(prog, s), name);
    } else if !prog[s.pc].Skip? {
      hide Step;
      StepIsLocal(env, prog, s, Compact(prog), Pos(prog, s.pc));
    }
  }

  /** How many of the first n steps execute an op that was not dropped. */
  function Executed(env: Env, prog: seq<Op>, s: State, n: nat): nat
    decreases n
  {
    if n == 0 || Halted(prog, s) then 0
    else (if prog[s.pc].Skip? then 0 else 1) + Executed(env, prog, Step(env, prog, s), n - 1)
  }

  /** The compact program runs through the same states, skipping only the steps that did nothing. */
  lemma {:induction false} CompactRun(env: Env, prog: seq<Op>, s: State, n: nat)
    requires s.pc <= |prog|
    ensures Run(env, prog, s, n).pc <= |prog|
    ensures Run(env, Compact(prog), Shrunk(prog, s), Executed(env, prog, s, n)) == Shrunk(prog, Run(env, prog, s, n))
    decreases n
  {
    hide Step, Compact;
    if n > 0 && !Halted(prog, s) {
      CompactStep(env, prog, s);
      CompactRun(env, prog, Step(env, prog, s), n - 1);
    }
  }
}
