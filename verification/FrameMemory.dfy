/** The frame as memory that can be reached through its address.  `Machine` keeps the slots of the frame apart from all
    other memory; here a register, the stack or the memory may hold an address in the frame, and whoever gets one may
    read and write the slots.  The recorder gives a record up where that could happen (vm/index.js), and elsewhere the
    two machines agree. */
module FrameMemory {
  import opened VRegs
  import opened Machine
  import opened Plans
  import opened Compaction
  import opened Promotion
  import opened Recorder
  import opened Exactness
  import opened EndToEnd

  /** Slots above this offset are the save area of the prologue, the return address and the caller's frame. */
  const LOCALS: int := -48

  ghost predicate PureWorld(w: World) {
    w.flags.Num? && (forall a :: w.memory(a).Num?) && forall a :: w.floats(a).Num?
  }

  /** What an op other than loads, stores and moves works on. */
  function Inputs(env: Env, op: Op, regs: int -> Word): seq<Word> {
    match op
    case Call(_, a) => [Val(env, regs, a)] + Values(env, regs, env.view)
    case Syscall(_, a) => [Val(env, regs, a)] + Values(env, regs, SYS_REGS)
    case Compute(code, _, b, c) => if code == RC_MOV then [] else [Val(env, regs, b), Val(env, regs, c)]
    case Effect(_, a, b, c) => [Val(env, regs, a), Val(env, regs, b), Val(env, regs, c)]
    case _ => []
  }

  predicate AllNum(ws: seq<Word>) {
    forall k :: 0 <= k < |ws| ==> ws[k].Num?
  }

  /** The op can get at the frame: it is given an address in it, or, a call, finds one in memory. */
  ghost predicate Reaches(env: Env, op: Op, s: State) {
    !AllNum(Inputs(env, op, s.regs)) || ((op.Call? || op.Syscall?) && !PureWorld(s.world))
  }

  /** `wild` is what an op does that can get at the frame: anything.  `image` is how saved registers, return address and
      the caller's frame look in memory. */
  datatype Surroundings = Surroundings(wild: (Op, State) -> State, image: (seq<Word>, int) -> Word)

  /** The save area is as the prologue has left it. */
  ghost predicate Intact(around: Surroundings, s: State) {
    forall off :: off > LOCALS ==> s.slots(off) == around.image(s.saved, off)
  }

  /** One step where FP, or any other register, may point into the frame. */
  ghost function AStep(env: Env, around: Surroundings, prog: seq<Op>, s: State): State
    requires s.status == Running && s.pc < |prog|
  {
    var op := prog[s.pc];
    match op
    case Load(d, base, off) =>
      var b := Get(env, s.regs, base);
      var v := if b.FrameAddr? then s.slots(b.off + off) else env.sem.heapLoad(b, off, s.world);
      Next(s.(regs := Set(env, s.regs, d, v)))
    case Store(base, off, src) =>
      var b, v := Get(env, s.regs, base), Get(env, s.regs, src);
      if b.FrameAddr? then Next(s.(slots := o => if o == b.off + off then v else s.slots(o)))
      else Next(s.(world := env.sem.heapStore(b, off, v, s.world)))
    case Prologue(_, rs) =>
      var vs := Values(env, s.regs, rs);
      Next(s.(saved := vs, stack := [], slots := o => if o > LOCALS then around.image(vs, o) else s.slots(o)))
    case Epilogue(_, _) => if Intact(around, s) then Step(env, prog, s) else around.wild(op, s)
    case _ => if Reaches(env, op, s) then around.wild(op, s) else Step(env, prog, s)
  }

  ghost function ARun(env: Env, around: Surroundings, prog: seq<Op>, s: State, n: nat): State
    decreases n
  {
    if n == 0 || Halted(prog, s) then s else ARun(env, around, prog, AStep(env, around, prog, s), n - 1)
  }

  // ---------- no address gets out ----------

  /** Nothing makes an address in the frame out of numbers. */
  ghost predicate Honest(env: Env, around: Surroundings) {
    var m := env.sem;
    && (forall c, x: Word, y: Word, w :: x.Num? && y.Num? && PureWorld(w) ==>
          m.value(c, x, y, w).Num? && PureWorld(m.after(c, x, y, w)))
    && (forall c, x: Word, y: Word, z: Word, w :: x.Num? && y.Num? && z.Num? && PureWorld(w) ==>
          PureWorld(m.effect(c, x, y, z, w)))
    && (forall b: Word, off, w :: b.Num? && PureWorld(w) ==> m.heapLoad(b, off, w).Num?)
    && (forall b: Word, off, v: Word, w :: b.Num? && v.Num? && PureWorld(w) ==> PureWorld(m.heapStore(b, off, v, w)))
    && (forall c, x: Word, vs, w :: x.Num? && AllNum(vs) && PureWorld(w) ==>
          && (forall p :: m.callRegs(c, x, vs, w)(p).Num? && m.sysRegs(c, x, vs, w)(p).Num?)
          && PureWorld(m.callWorld(c, x, vs, w)) && PureWorld(m.sysWorld(c, x, vs, w)))
    && (forall vs, o :: AllNum(vs) ==> around.image(vs, o).Num?)
    && (forall k :: 0 <= k < |env.view| ==> env.view[k] != FP && env.view[k] != SP)
  }

  predicate Spared(arch: Arch, p: int) {
    p == Phys(arch, FP) || p == Phys(arch, SP)
  }

  ghost predicate PureRegs(env: Env, regs: int -> Word) {
    forall p :: !Spared(env.arch, p) ==> regs(p).Num?
  }

  /** FP points to the frame, and beside it and SP nothing does: no register, no slot, no entry of the stack, no saved
      register, no memory. */
  ghost predicate Private(env: Env, s: State) {
    && Get(env, s.regs, FP) == FrameAddr(0) && PureRegs(env, s.regs) && PureWorld(s.world)
    && AllNum(s.stack) && AllNum(s.saved) && forall o :: s.slots(o).Num?
  }

  /** FP and SP are used for accesses to local cells only. */
  predicate Plain(op: Op) {
    if op.Load? || op.Store? then KeepsFrame(op) && op.base != SP && (op.base == FP ==> op.off <= LOCALS)
    else if op.Prologue? || op.Epilogue? then FP !in op.saved && SP !in op.saved
    else KeepsFrame(op) && !Mentions(op, FP) && !Mentions(op, SP)
  }

  /** What the scan does not look at: sources of stores, destinations of loads, operands of prepareCall. */
  predicate KeepsFrame(op: Op) {
    match op
    case Load(d, _, _) => d != FP && d != SP
    case Store(_, _, src) => src != FP && src != SP
    case PrepareCall(args) => forall k :: 0 <= k < |args| ==> args[k] != R(FP) && args[k] != R(SP)
    case _ => true
  }

  lemma RegIsNum(env: Env, regs: int -> Word, r: Reg)
    requires PureRegs(env, regs) && r != FP && r != SP
    ensures Get(env, regs, r).Num?
  {
  }

  lemma OpdIsNum(env: Env, regs: int -> Word, o: Opd)
    requires PureRegs(env, regs) && o != R(FP) && o != R(SP)
    ensures Val(env, regs, o).Num?
  {
    if o.R? { RegIsNum(env, regs, o.reg); }
  }

  lemma ValuesAreNum(env: Env, regs: int -> Word, rs: seq<Reg>)
    requires PureRegs(env, regs) && FP !in rs && SP !in rs
    ensures AllNum(Values(env, regs, rs))
  {
    forall k | 0 <= k < |rs| ensures Values(env, regs, rs)[k].Num? { RegIsNum(env, regs, rs[k]); }
  }

  lemma SetIsPure(env: Env, regs: int -> Word, r: Reg, v: Word)
    requires PureRegs(env, regs) && v.Num? && r != FP && r != SP
    ensures PureRegs(env, Set(env, regs, r, v)) && Get(env, Set(env, regs, r, v), FP) == Get(env, regs, FP)
  {
  }

  lemma {:induction false} RestoredIsPure(env: Env, regs: int -> Word, rs: seq<Reg>, vs: seq<Word>)
    requires PureRegs(env, regs) && |rs| == |vs| && AllNum(vs) && FP !in rs && SP !in rs
    ensures PureRegs(env, Restored(env, regs, rs, vs))
    ensures Get(env, Restored(env, regs, rs, vs), FP) == Get(env, regs, FP)
    decreases |rs|
  {
    if rs != [] {
      var k := |rs| - 1;
      SetIsPure(env, regs, rs[k], vs[k]);
      RestoredIsPure(env, Set(env, regs, rs[k], vs[k]), rs[..k], vs[..k]);
    }
  }

  lemma {:induction false} PreparedIsPure(env: Env, regs: int -> Word, args: seq<Opd>, i: nat)
    requires PureRegs(env, regs) && forall k :: 0 <= k < |args| ==> args[k] != R(FP) && args[k] != R(SP)
    ensures PureRegs(env, Prepared(env, regs, args, i))
    ensures Get(env, Prepared(env, regs, args, i), FP) == Get(env, regs, FP)
    decreases |args| - i
  {
    if i < |args| && i < |CallRegs(env)| {
      OpdIsNum(env, regs, args[i]);
      PreparedIsPure(env, Put(regs, CallRegs(env)[i], Val(env, regs, args[i])), args, i + 1);
    }
  }

  lemma InputsAreNum(env: Env, around: Surroundings, op: Op, s: State)
    requires Private(env, s) && Plain(op) && Honest(env, around)
    ensures !Reaches(env, op, s)
  {
    hide Honest;
    match op
    case Call(_, a) =>
      OpdIsNum(env, s.regs, a);
      assert FP !in env.view && SP !in env.view by { ViewIsPlain(env, around); }
      ValuesAreNum(env, s.regs, env.view);
    case Syscall(_, a) =>
      OpdIsNum(env, s.regs, a);
      ValuesAreNum(env, s.regs, SYS_REGS);
    case Compute(_, _, b, c) =>
      OpdIsNum(env, s.regs, b);
      OpdIsNum(env, s.regs, c);
    case Effect(_, a, b, c) =>
      OpdIsNum(env, s.regs, a);
      OpdIsNum(env, s.regs, b);
      OpdIsNum(env, s.regs, c);
    case _ =>
  }

  lemma ViewIsPlain(env: Env, around: Surroundings)
    requires Honest(env, around)
    ensures FP !in env.view && SP !in env.view
  {
  }

  // ---------- the two machines agree ----------

  /** The same up to the slots, and in the local cells too. */
  ghost predicate Shadow(a: State, o: State) {
    a == o.(slots := a.slots) && forall off :: off <= LOCALS ==> a.slots(off) == o.slots(off)
  }

  /** One step on: the machine with addresses is where the other is, no address is out, the save area is as it was. */
  ghost predicate Together(env: Env, around: Surroundings, a: State, o: State) {
    Shadow(a, o) && Private(env, a) && (a.status == Running ==> a.pc > 0 && Intact(around, a))
  }

  /** A prologue in front, and nowhere else. */
  predicate Framed(prog: seq<Op>) {
    && prog != [] && prog[0].Prologue? && (forall i :: 0 < i < |prog| ==> !prog[i].Prologue?)
    && forall i :: 0 <= i < |prog| ==> Plain(prog[i])
  }

  ghost predicate Beside(env: Env, around: Surroundings, prog: seq<Op>, a: State, o: State) {
    && Framed(prog) && Honest(env, around) && Shadow(a, o) && Private(env, a)
    && a.status == Running && a.pc < |prog| && (a.pc > 0 ==> Intact(around, a))
  }

  lemma LoadTogether(env: Env, around: Surroundings, prog: seq<Op>, a: State, o: State)
    requires Beside(env, around, prog, a, o) && prog[a.pc].Load?
    ensures Together(env, around, AStep(env, around, prog, a), Step(env, prog, o))
  {
    var Load(d, base, off) := prog[a.pc];
    assert Plain(prog[a.pc]);
    ShapeLoad(env, prog, o);
    if base != FP { RegIsNum(env, a.regs, base); }
    var v := if base == FP then a.slots(off) else env.sem.heapLoad(Get(env, a.regs, base), off, a.world);
    assert v.Num? && v == Loaded(env, prog[a.pc], o);
    SetIsPure(env, a.regs, d, v);
    hide Honest, PureWorld, Set, Get;
  }

  lemma StoreTogether(env: Env, around: Surroundings, prog: seq<Op>, a: State, o: State)
    requires Beside(env, around, prog, a, o) && prog[a.pc].Store?
    ensures Together(env, around, AStep(env, around, prog, a), Step(env, prog, o))
  {
    var Store(base, off, src) := prog[a.pc];
    assert Plain(prog[a.pc]);
    ShapeStore(env, prog, o);
    RegIsNum(env, a.regs, src);
    if base != FP {
      RegIsNum(env, a.regs, base);
      assert PureWorld(env.sem.heapStore(Get(env, a.regs, base), off, Get(env, a.regs, src), a.world));
    }
    hide Honest, PureWorld, Get;
  }

  lemma PrologueTogether(env: Env, around: Surroundings, prog: seq<Op>, a: State, o: State)
    requires Beside(env, around, prog, a, o) && prog[a.pc].Prologue?
    ensures Together(env, around, AStep(env, around, prog, a), Step(env, prog, o))
  {
    assert Plain(prog[a.pc]);
    var vs := Values(env, a.regs, prog[a.pc].saved);
    ValuesAreNum(env, a.regs, prog[a.pc].saved);
    assert forall off :: around.image(vs, off).Num?;
    hide Honest, PureWorld, Get, Values;
  }

  lemma EpilogueTogether(env: Env, around: Surroundings, prog: seq<Op>, a: State, o: State)
    requires Beside(env, around, prog, a, o) && prog[a.pc].Epilogue?
    ensures Together(env, around, AStep(env, around, prog, a), Step(env, prog, o))
  {
    assert Plain(prog[a.pc]);
    ShapeEpilogue(env, prog, a);
    ShapeEpilogue(env, prog, o);
    if a.stack == [] && |a.saved| == |prog[a.pc].saved| {
      RestoredIsPure(env, a.regs, prog[a.pc].saved, a.saved);
    }
    hide Honest, PureWorld, Get, Restored, Intact;
  }

  lemma LabelIsBehind(prog: seq<Op>, name: string)
    requires prog != [] && prog[0].Prologue?
    ensures FindLabel(prog, name) > 0
  {
  }

  lemma AfterIsPure(env: Env, regs: int -> Word, out: int -> Word)
    requires PureRegs(env, regs) && forall p :: out(p).Num?
    ensures PureRegs(env, AfterCall(env, regs, out)) && PureRegs(env, AfterSys(env, regs, out))
    ensures Get(env, AfterCall(env, regs, out), FP) == Get(env, AfterSys(env, regs, out), FP) == Get(env, regs, FP)
  {
  }

  lemma CallKeeps(env: Env, around: Surroundings, prog: seq<Op>, s: State)
    requires Beside(env, around, prog, s, s) && prog[s.pc].Call?
    ensures var t := Step(env, prog, s);
      Private(env, t) && t == s.(pc := s.pc + 1, regs := t.regs, world := t.world)
  {
    assert Plain(prog[s.pc]);
    hide Honest, PureWorld, Get, AfterCall, AfterSys, PureRegs, Values, Val, Intact;
    var c, x, seen := prog[s.pc].code, Val(env, s.regs, prog[s.pc].arg), Values(env, s.regs, env.view);
    OpdIsNum(env, s.regs, prog[s.pc].arg);
    ViewIsPlain(env, around);
    ValuesAreNum(env, s.regs, env.view);
    ShapeCall(env, prog, s, x, seen);
    CalleeIsPure(env, around, c, x, seen, s.world);
    AfterIsPure(env, s.regs, env.sem.callRegs(c, x, seen, s.world));
  }

  lemma SyscallKeeps(env: Env, around: Surroundings, prog: seq<Op>, s: State)
    requires Beside(env, around, prog, s, s) && prog[s.pc].Syscall?
    ensures var t := Step(env, prog, s);
      Private(env, t) && t == s.(pc := s.pc + 1, regs := t.regs, world := t.world)
  {
    assert Plain(prog[s.pc]);
    hide Honest, PureWorld, Get, AfterCall, AfterSys, PureRegs, Values, Val, Intact;
    var c, x, seen := prog[s.pc].code, Val(env, s.regs, prog[s.pc].arg), Values(env, s.regs, SYS_REGS);
    OpdIsNum(env, s.regs, prog[s.pc].arg);
    ValuesAreNum(env, s.regs, SYS_REGS);
    ShapeSyscall(env, prog, s, x, seen);
    CalleeIsPure(env, around, c, x, seen, s.world);
    AfterIsPure(env, s.regs, env.sem.sysRegs(c, x, seen, s.world));
  }

  lemma CalleeIsPure(env: Env, around: Surroundings, c: int, x: Word, vs: seq<Word>, w: World)
    requires Honest(env, around) && x.Num? && AllNum(vs) && PureWorld(w)
    ensures PureWorld(env.sem.callWorld(c, x, vs, w)) && PureWorld(env.sem.sysWorld(c, x, vs, w))
    ensures forall p :: env.sem.callRegs(c, x, vs, w)(p).Num? && env.sem.sysRegs(c, x, vs, w)(p).Num?
  {
  }

  lemma ComputeKeeps(env: Env, around: Surroundings, prog: seq<Op>, s: State)
    requires Beside(env, around, prog, s, s) && prog[s.pc].Compute?
    ensures var t := Step(env, prog, s);
      Private(env, t) && t == s.(pc := s.pc + 1, regs := t.regs, world := t.world)
  {
    var Compute(c, d, b, e) := prog[s.pc];
    assert Plain(prog[s.pc]);
    var x, y := Val(env, s.regs, b), Val(env, s.regs, e);
    OpdIsNum(env, s.regs, b);
    OpdIsNum(env, s.regs, e);
    ShapeCompute(env, prog, s, x, y);
    var v := if c == RC_MOV then x else env.sem.value(c, x, y, s.world);
    assert v.Num? && (c != RC_MOV ==> PureWorld(env.sem.after(c, x, y, s.world)));
    SetIsPure(env, s.regs, d, v);
    hide Honest, PureWorld, Set, Get;
  }

  lemma EffectKeeps(env: Env, around: Surroundings, prog: seq<Op>, s: State)
    requires Beside(env, around, prog, s, s) && prog[s.pc].Effect?
    ensures var t := Step(env, prog, s); Private(env, t) && t == s.(pc := s.pc + 1, world := t.world)
  {
    var Effect(c, a, b, e) := prog[s.pc];
    assert Plain(prog[s.pc]);
    OpdIsNum(env, s.regs, a);
    OpdIsNum(env, s.regs, b);
    OpdIsNum(env, s.regs, e);
    ShapeEffect(env, prog, s, Val(env, s.regs, a), Val(env, s.regs, b), Val(env, s.regs, e));
    assert PureWorld(env.sem.effect(c, Val(env, s.regs, a), Val(env, s.regs, b), Val(env, s.regs, e), s.world));
    hide Honest, PureWorld, Get;
  }

  lemma StackKeeps(env: Env, around: Surroundings, prog: seq<Op>, s: State)
    requires Beside(env, around, prog, s, s) && (prog[s.pc].Push? || prog[s.pc].Pop?)
    ensures var t := Step(env, prog, s); Private(env, t) && t.saved == s.saved && t.pc > 0 && t.slots == s.slots
  {
    var r := prog[s.pc].reg;
    assert Plain(prog[s.pc]);
    hide Honest, PureWorld, Get, Set, Intact;
    if prog[s.pc].Push? {
      ShapePush(env, prog, s);
      RegIsNum(env, s.regs, r);
    } else {
      ShapePop(env, prog, s);
      if s.stack != [] { SetIsPure(env, s.regs, r, s.stack[|s.stack| - 1]); }
    }
  }

  lemma PrepareKeeps(env: Env, around: Surroundings, prog: seq<Op>, s: State)
    requires Beside(env, around, prog, s, s) && prog[s.pc].PrepareCall?
    ensures var t := Step(env, prog, s); Private(env, t) && t == s.(pc := s.pc + 1, regs := t.regs)
  {
    assert Plain(prog[s.pc]);
    PreparedIsPure(env, s.regs, prog[s.pc].args, 0);
    hide Honest, PureWorld, Get, Prepared;
  }

  /** All other ops do what they do without addresses. */
  lemma PlainKeeps(env: Env, around: Surroundings, prog: seq<Op>, s: State)
    requires Beside(env, around, prog, s, s)
    requires !prog[s.pc].Load? && !prog[s.pc].Store? && !prog[s.pc].Prologue? && !prog[s.pc].Epilogue?
    ensures var t := Step(env, prog, s);
      Private(env, t) && t.saved == s.saved && t.slots == s.slots && (t.status == Running ==> t.pc > 0)
  {
    hide Honest, Private, Get, Intact, Plain, Step;
    match prog[s.pc]
    case Call(_, _) => CallKeeps(env, around, prog, s);
    case Syscall(_, _) => SyscallKeeps(env, around, prog, s);
    case Compute(_, _, _, _) => ComputeKeeps(env, around, prog, s);
    case Effect(_, _, _, _) => EffectKeeps(env, around, prog, s);
    case Push(_) => StackKeeps(env, around, prog, s);
    case Pop(_) => StackKeeps(env, around, prog, s);
    case PrepareCall(_) => PrepareKeeps(env, around, prog, s);
    case _ => OthersMove(env, prog, s);
  }

  /** Labels, jumps and the like only move on. */
  lemma OthersMove(env: Env, prog: seq<Op>, s: State)
    requires Framed(prog) && s.status == Running && s.pc < |prog|
    requires var op := prog[s.pc]; op.Label? || op.Jump? || op.JmpIndirect? || op.Ret? || op.Nop? || op.Skip?
    ensures var t := Step(env, prog, s);
      t == s.(pc := t.pc, status := t.status) && (t.status == Running ==> t.pc > 0)
    ensures Private(env, s) ==> Private(env, Step(env, prog, s))
  {
    hide PureRegs, PureWorld, AllNum, Get, FindLabel;
    var op := prog[s.pc];
    if op.Jump? {
      LabelIsBehind(prog, op.target);
      ShapeJump(env, prog, s);
    } else if op.JmpIndirect? {
      var name := env.sem.landing(Get(env, s.regs, op.reg));
      LabelIsBehind(prog, name);
      ShapeIndirect(env, prog, s, name);
    }
  }

  lemma PlainTogether(env: Env, around: Surroundings, prog: seq<Op>, a: State, o: State)
    requires Beside(env, around, prog, a, o)
    requires !prog[a.pc].Load? && !prog[a.pc].Store? && !prog[a.pc].Prologue? && !prog[a.pc].Epilogue?
    ensures Together(env, around, AStep(env, around, prog, a), Step(env, prog, o))
  {
    assert Plain(prog[a.pc]) && Beside(env, around, prog, a, a);
    hide Step, AStep, Private, Honest, Framed, Reaches, Plain;
    InputsAreNum(env, around, prog[a.pc], a);
    StepsAlike(env, around, prog, a);
    PlainKeeps(env, around, prog, a);
    SlotsAside(env, prog, o, a.slots);
  }

  lemma StepsAlike(env: Env, around: Surroundings, prog: seq<Op>, s: State)
    requires s.status == Running && s.pc < |prog| && !Reaches(env, prog[s.pc], s)
    requires !prog[s.pc].Load? && !prog[s.pc].Store? && !prog[s.pc].Prologue? && !prog[s.pc].Epilogue?
    ensures AStep(env, around, prog, s) == Step(env, prog, s)
  {
    hide Step, Reaches;
  }

  lemma StepTogether(env: Env, around: Surroundings, prog: seq<Op>, a: State, o: State)
    requires Beside(env, around, prog, a, o)
    ensures Together(env, around, AStep(env, around, prog, a), Step(env, prog, o))
  {
    assert a.pc < |prog|;
    hide AStep, Step, Together, Beside;
    if prog[a.pc].Load? { LoadTogether(env, around, prog, a, o); }
    else if prog[a.pc].Store? { StoreTogether(env, around, prog, a, o); }
    else if prog[a.pc].Prologue? { PrologueTogether(env, around, prog, a, o); }
    else if prog[a.pc].Epilogue? { EpilogueTogether(env, around, prog, a, o); }
    else { PlainTogether(env, around, prog, a, o); }
  }

  /** Whole runs. */
  lemma {:induction false} RunTogether(env: Env, around: Surroundings, prog: seq<Op>, a: State, o: State, n: nat)
    requires Framed(prog) && Honest(env, around) && Shadow(a, o) && Private(env, a)
    requires a.status == Running && a.pc > 0 ==> Intact(around, a)
    ensures Shadow(ARun(env, around, prog, a, n), Run(env, prog, o, n)) && Private(env, ARun(env, around, prog, a, n))
    decreases n
  {
    hide AStep, Step, Framed, Honest, Private, Intact;
    if n > 0 && !Halted(prog, a) {
      StepTogether(env, around, prog, a, o);
      RunTogether(env, around, prog, AStep(env, around, prog, a), Step(env, prog, o), n - 1);
    }
  }

  // ---------- what the recorder decides is safe there ----------

  lemma RewritePlain(arch: Arch, plan: Plan, ops: seq<Op>, i: nat)
    requires ValidPlan(arch, ops, plan) && i < |ops| && Plain(ops[i])
    ensures Plain(Rewrite(arch, plan, ops[i], i))
    ensures Rewrite(arch, plan, ops[i], i).Prologue? <==> ops[i].Prologue?
  {
    PlanRegsPlain(arch, plan, ops);
    RewriteIsPlain(arch, plan, ops[i], i);
  }

  /** None of the plan's registers is FP or SP. */
  predicate PlainRegs(plan: Plan) {
    && (forall k :: 0 <= k < |plan.pairs| ==> plan.pairs[k].reg != FP && plan.pairs[k].reg != SP)
    && (forall k :: 0 <= k < |plan.proms| ==> plan.proms[k].reg != FP && plan.proms[k].reg != SP)
    && FP !in plan.ext && SP !in plan.ext
  }

  lemma RewriteIsPlain(arch: Arch, plan: Plan, op: Op, i: nat)
    requires PlainRegs(plan) && Plain(op)
    ensures Plain(Rewrite(arch, plan, op, i)) && (Rewrite(arch, plan, op, i).Prologue? <==> op.Prologue?)
  {
    hide FindPair, FindProm, Extended;
    if op.Push? || op.Pop? {
      PairIsPlain(arch, plan, op, i);
    } else if op.Load? || op.Store? {
      AccessIsPlain(arch, plan, op, i);
    } else if op.Prologue? || op.Epilogue? {
      hide Mentions;
      ExtendedPlain(arch, op.saved, plan.ext);
    } else {
      hide Plain;
      assert Rewrite(arch, plan, op, i) == op;
    }
  }

  lemma PairIsPlain(arch: Arch, plan: Plan, op: Op, i: nat)
    requires PlainRegs(plan) && Plain(op) && (op.Push? || op.Pop?)
    ensures Plain(Rewrite(arch, plan, op, i)) && !Rewrite(arch, plan, op, i).Prologue?
  {
    hide FindPair, FindProm, Extended;
    var q := FindPair(plan.pairs, i);
    if q < |plan.pairs| {
      var r := plan.pairs[q].reg;
      MovIsPlain(r, op.reg);
      MovIsPlain(op.reg, r);
    }
  }

  lemma AccessIsPlain(arch: Arch, plan: Plan, op: Op, i: nat)
    requires PlainRegs(plan) && Plain(op) && (op.Load? || op.Store?)
    ensures Plain(Rewrite(arch, plan, op, i)) && !Rewrite(arch, plan, op, i).Prologue?
  {
    hide FindPair, FindProm, Extended;
    var k := FindProm(plan.proms, op.off);
    if k < |plan.proms| {
      var r := plan.proms[k].reg;
      MovIsPlain(r, if op.Load? then op.dest else op.src);
      MovIsPlain(if op.Load? then op.dest else op.src, r);
      assert Plain(Skip);
    }
    hide Mentions, Plain, PlainRegs;
  }

  lemma MovIsPlain(d: Reg, r: Reg)
    requires d != FP && d != SP && r != FP && r != SP
    ensures Plain(Mov(d, r)) && !Mov(d, r).Prologue?
  {
  }

  lemma ExtendedPlain(arch: Arch, rs: seq<Reg>, ext: seq<Reg>)
    requires FP !in rs && SP !in rs && FP !in ext && SP !in ext
    ensures FP !in Extended(arch, rs, ext) && SP !in Extended(arch, rs, ext)
  {
  }

  lemma PlanRegsPlain(arch: Arch, plan: Plan, ops: seq<Op>)
    requires ValidPlan(arch, ops, plan)
    ensures PlainRegs(plan)
  {
    hide Closed, Nest, Unused;
    forall k | 0 <= k < |plan.pairs| ensures plan.pairs[k].reg != FP && plan.pairs[k].reg != SP {
      assert ValidPair(arch, ops, plan.ext, plan.pairs[k]);
    }
    forall k | 0 <= k < |plan.proms| ensures plan.proms[k].reg != FP && plan.proms[k].reg != SP {
      assert ValidProm(arch, ops, plan.ext, plan.proms[k]);
    }
  }

  /** The replay uses FP and SP no more than the record. */
  lemma ReplayFramed(arch: Arch, plan: Plan, ops: seq<Op>)
    requires Framed(ops) && ValidPlan(arch, ops, plan)
    ensures Framed(Compact(Replayed(arch, plan, ops)))
  {
    hide ValidPlan, Rewrite, Plain;
    var out := Replayed(arch, plan, ops);
    var prog := Compact(out);
    forall i | 0 <= i < |ops| ensures Plain(out[i]) && (out[i].Prologue? <==> ops[i].Prologue?) {
      RewritePlain(arch, plan, ops, i);
    }
    PosIs(out, 0);
    assert out[..0] == [];
    assert Pos(out, 0) == 0 && prog[0] == out[0];
    forall c | 0 <= c < |prog| ensures Plain(prog[c]) && (c > 0 ==> !prog[c].Prologue?) {
      var i := PosOnto(out, c);
      PosIs(out, i);
    }
  }

  /** Recorded and emitted function behave alike: the emitted one gets to the corresponding place with the same status,
      and if it has returned, with the same result, effects and saved registers. */
  ghost predicate Alike(env: Env, around: Surroundings, plan: Plan, ops: seq<Op>, s: State, n: nat, m: nat) {
    var out := Replayed(env.arch, plan, ops);
    var a, c := ARun(env, around, ops, s, n), ARun(env, around, Compact(out), s, m);
    && a.status == c.status && (a.pc <= |out| ==> c.pc == Pos(out, a.pc))
    && (a.status == Returned ==>
          && a.world == c.world && Get(env, a.regs, RET) == Get(env, c.regs, RET)
          && forall r :: r in {S0, S1, S2, S3} || Spare(ops, r) ==> Get(env, a.regs, r) == Get(env, c.regs, r))
  }

  ghost predicate FaithfulThere(env: Env, around: Surroundings, plan: Plan, ops: seq<Op>, s: State, n: nat) {
    exists m: nat :: Alike(env, around, plan, ops, s, n, m)
  }

  /** How a function starts: running at its prologue, with no address in its frame anywhere yet but in FP and SP. */
  ghost predicate Entered(env: Env, around: Surroundings, ops: seq<Op>, s: State) {
    ViewFits(env, ops) && Honest(env, around) && Private(env, s) && Begins(s)
  }

  /** A record the scan does not give up. */
  lemma NotGivenUp(ops: seq<Op>)
    requires WellFormed(ops) && !SomeBails(ops) && forall i :: 0 <= i < |ops| ==> KeepsFrame(ops[i])
    ensures Framed(ops)
  {
    forall i | 0 <= i < |ops| ensures Plain(ops[i]) {
      assert !Bails(ops[i]);
    }
  }

  /** There the plan is faithful with addresses because it is without. */
  lemma SafeThere(env: Env, around: Surroundings, plan: Plan, ops: seq<Op>, s: State, n: nat)
    requires WellFormed(ops) && Framed(ops) && ValidPlan(env.arch, ops, plan) && Entered(env, around, ops, s) && n > 0
    requires DisciplinedRun(env, plan, ops, s, Start(plan), n)
    ensures Private(env, ARun(env, around, ops, s, n)) && FaithfulThere(env, around, plan, ops, s, n)
  {
    var out := Replayed(env.arch, plan, ops);
    var m := Executed(env, out, s, n);
    ReplayFramed(env.arch, plan, ops);
    hide Run, ARun, WellFormed, Framed, ValidPlan, ViewFits, Honest, Private, DisciplinedRun, Compact, Spare, Executed;
    EmittedCodeIsFaithful(env, plan, ops, s, n);
    RunTogether(env, around, ops, s, s, n);
    RunTogether(env, around, Compact(out), s, s, m);
    assert Alike(env, around, plan, ops, s, n, m);
  }

  lemma NothingDropped(ops: seq<Op>, i: nat)
    requires (forall k :: 0 <= k < |ops| ==> !ops[k].Skip?) && i <= |ops|
    ensures Pos(ops, i) == i
    decreases i
  {
    if i > 0 {
      NothingDropped(ops, i - 1);
      PosIs(ops, i - 1);
    } else {
      assert ops[..0] == [];
    }
  }

  /** A record that is given up is passed on as it is. */
  lemma SameProgram(env: Env, around: Surroundings, ops: seq<Op>, s: State, n: nat)
    requires forall k :: 0 <= k < |ops| ==> !ops[k].Skip?
    ensures FaithfulThere(env, around, NO_PLAN, ops, s, n)
  {
    assert Replayed(env.arch, NO_PLAN, ops) == ops;
    EmptyPlanIsVerbatim(env.arch, ops);
    var a := ARun(env, around, ops, s, n);
    if a.pc <= |ops| { NothingDropped(ops, a.pc); }
    hide ARun, Compact, Replayed, Pos;
    assert Alike(env, around, NO_PLAN, ops, s, n, n);
  }

  /** What the two machines' agreement gives for one decision. */
  lemma DecisionIsSafe(env: Env, around: Surroundings, plan: Plan, ops: seq<Op>, s: State, n: nat)
    requires WellFormed(ops) && forall i :: 0 <= i < |ops| ==> KeepsFrame(ops[i]) && !ops[i].Skip?
    requires ValidPlan(env.arch, ops, plan) && (SomeBails(ops) ==> plan == NO_PLAN) && Entered(env, around, ops, s)
    ensures n > 0 && DisciplinedRun(env, plan, ops, s, Start(plan), n) ==> FaithfulThere(env, around, plan, ops, s, n)
    ensures plan != NO_PLAN ==> Private(env, ARun(env, around, ops, s, n))
  {
    if SomeBails(ops) {
      SameProgram(env, around, ops, s, n);
    } else {
      NotGivenUp(ops);
      hide WellFormed, ValidPlan, DisciplinedRun, FaithfulThere, Private, Framed, ARun, Run, KeepsFrame;
      RunTogether(env, around, ops, s, s, n);
      if n > 0 && DisciplinedRun(env, plan, ops, s, Start(plan), n) { SafeThere(env, around, plan, ops, s, n); }
    }
  }

  /** endRecord's decision in the machine where the frame can be reached through its address.  Whatever the ops mean
      that get at the frame, the emitted function behaves like the recorded one; and if anything has been rewritten at
      all, no register, no entry of the stack, no slot and no memory ever holds an address in the frame.  A record that
      uses FP and SP for its local cells only is analysed. */
  method DecideWithAddresses(arch: Arch, ops: seq<Op>) returns (plan: Plan)
    requires WellFormed(ops) && forall i :: 0 <= i < |ops| ==> KeepsFrame(ops[i]) && !ops[i].Skip?
    ensures forall env: Env, around, s, n: nat ::
      (env.arch == arch && Entered(env, around, ops, s) && n > 0
        && DisciplinedRun(env, plan, ops, s, Start(plan), n)) ==>
        FaithfulThere(env, around, plan, ops, s, n)
    ensures plan != NO_PLAN ==>
      forall env: Env, around, s, n: nat :: env.arch == arch && Entered(env, around, ops, s) ==>
        Private(env, ARun(env, around, ops, s, n))
    ensures (forall i :: 0 <= i < |ops| ==> Plain(ops[i])) ==> Analysed(arch, ops, plan)
  {
    plan := Decide(arch, ops);
    LabelsAreUnique(ops);
    if forall i :: 0 <= i < |ops| ==> Plain(ops[i]) { NotInVain(ops); }
    hide WellFormed, ValidPlan, DisciplinedRun, FaithfulThere, Private, ARun, KeepsFrame, SomeBails, UniqueLabels;
    hide Analysed, Entered;
    forall env: Env, around, s, n: nat | env.arch == arch && Entered(env, around, ops, s)
      ensures n > 0 && DisciplinedRun(env, plan, ops, s, Start(plan), n) ==>
        FaithfulThere(env, around, plan, ops, s, n)
      ensures plan != NO_PLAN ==> Private(env, ARun(env, around, ops, s, n))
    {
      DecisionIsSafe(env, around, plan, ops, s, n);
    }
  }

  /** No record is given up that uses FP and SP for local cells only. */
  lemma NotInVain(ops: seq<Op>)
    requires forall i :: 0 <= i < |ops| ==> Plain(ops[i])
    ensures !SomeBails(ops)
  {
    forall i | 0 <= i < |ops| ensures !Bails(ops[i]) {}
  }

  lemma LabelsAreUnique(ops: seq<Op>)
    requires WellFormed(ops)
    ensures UniqueLabels(ops)
  {
  }

  // ---------- why a record that takes the address has to be given up ----------

  const CALLEE: Op := Call(0, Opd.None)

  /** The argument is kept in a local cell, a callee is given the frame address, and the cell is returned. */
  function TakesAddress(off: int): seq<Op> {
    [Prologue(8192, CALLEE_SAVED), Store(FP, off, A0), Mov(RET, FP), CALLEE, Load(RET, FP, off),
     Epilogue(CALLEE_SAVED, 8192)]
  }

  function InS3(off: int): Plan {
    Plan([Prom(off, S3, 1, 4)], [], [])
  }

  function Replay(off: int): seq<Op> {
    [Prologue(8192, CALLEE_SAVED), Mov(S3, A0), Mov(RET, FP), CALLEE, Mov(RET, S3), Epilogue(CALLEE_SAVED, 8192)]
  }

  /** Everything else the plan needs is there. */
  lemma AddressPlanIsValid(arch: Arch, off: int)
    requires off <= LOCALS
    ensures WellFormed(TakesAddress(off)) && ValidPlan(arch, TakesAddress(off), InS3(off))
    ensures SomeBails(TakesAddress(off))
  {
    var ops, plan := TakesAddress(off), InS3(off);
    assert Bails(ops[2]);
    assert Unused(ops, S3);
    assert !HasIndirect(ops);
    assert ValidProm(arch, ops, plan.ext, plan.proms[0]);
  }

  lemma AddressReplay(arch: Arch, off: int)
    ensures Compact(Replayed(arch, InS3(off), TakesAddress(off))) == Replay(off)
  {
    var plan := InS3(off);
    assert FindProm(plan.proms, off) == 0;
    assert Replayed(arch, plan, TakesAddress(off)) == Replay(off);
    NothingToDrop(Replay(off));
  }

  /** A callee that stores w in that cell through the address it is given. */
  ghost predicate Writes(around: Surroundings, off: int, w: Word) {
    forall s :: around.wild(CALLEE, s) == Next(WithSlot(s, off, w))
  }

  lemma ARunStep(env: Env, around: Surroundings, prog: seq<Op>, s: State, n: nat)
    requires n > 0 && !Halted(prog, s)
    ensures ARun(env, around, prog, s, n) == ARun(env, around, prog, AStep(env, around, prog, s), n - 1)
  {
  }

  /** The first three ops: FP is in RET, and in the record the argument is in its cell. */
  lemma Opening(env: Env, around: Surroundings, off: int, s: State, kept: bool) returns (t: State)
    requires Begins(s) && Get(env, s.regs, FP) == FrameAddr(0) && off <= LOCALS
    ensures var prog := if kept then TakesAddress(off) else Replay(off);
      && t == AStep(env, around, prog, AStep(env, around, prog, AStep(env, around, prog, s)))
      && ARun(env, around, prog, s, 6) == ARun(env, around, prog, t, 3)
    ensures t.status == Running && t.pc == 3 && t.stack == [] && t.saved == Values(env, s.regs, CALLEE_SAVED)
    ensures Get(env, t.regs, RET) == FrameAddr(0) == Get(env, t.regs, FP) && Intact(around, t)
    ensures !kept ==> Get(env, t.regs, S3) == Get(env, s.regs, A0)
  {
    hide ARun, Values, AStep, Get, Set, Intact;
    var prog := if kept then TakesAddress(off) else Replay(off);
    var s1 := PrologueIs(env, around, prog, s);
    var s2 := KeepIs(env, around, off, s1, kept);
    t := AStep(env, around, prog, s2);
    MovIs(env, around, prog, s2);
    ARunStep(env, around, prog, s, 6);
    ARunStep(env, around, prog, s1, 5);
    ARunStep(env, around, prog, s2, 4);
  }

  lemma PrologueIs(env: Env, around: Surroundings, prog: seq<Op>, s: State) returns (t: State)
    requires Begins(s) && |prog| == 6 && prog[0] == Prologue(8192, CALLEE_SAVED)
    ensures t == AStep(env, around, prog, s) && t.status == Running && t.pc == 1 && t.stack == [] && t.regs == s.regs
    ensures t.saved == Values(env, s.regs, CALLEE_SAVED) && Intact(around, t)
  {
    hide Values;
    t := AStep(env, around, prog, s);
  }

  lemma KeepIs(env: Env, around: Surroundings, off: int, s: State, kept: bool) returns (t: State)
    requires s.status == Running && s.pc == 1 && Get(env, s.regs, FP) == FrameAddr(0) && off <= LOCALS
    requires Intact(around, s)
    ensures t == AStep(env, around, if kept then TakesAddress(off) else Replay(off), s)
    ensures t.status == Running && t.pc == 2
    ensures t.stack == s.stack && t.saved == s.saved && Get(env, t.regs, FP) == FrameAddr(0) && Intact(around, t)
    ensures !kept ==> Get(env, t.regs, S3) == Get(env, s.regs, A0)
  {
    t := AStep(env, around, if kept then TakesAddress(off) else Replay(off), s);
  }

  lemma MovIs(env: Env, around: Surroundings, prog: seq<Op>, s: State)
    requires s.status == Running && s.pc == 2 && |prog| == 6 && prog[2] == Mov(RET, FP)
    requires Get(env, s.regs, FP) == FrameAddr(0) && Intact(around, s)
    ensures var t := AStep(env, around, prog, s);
      && t == s.(pc := 3, regs := t.regs) && Get(env, t.regs, RET) == FrameAddr(0) == Get(env, t.regs, FP)
      && Get(env, t.regs, S3) == Get(env, s.regs, S3) && Intact(around, t)
  {
  }

  lemma CalleeWrites(env: Env, around: Surroundings, off: int, w: Word, prog: seq<Op>, t: State)
    requires env.view == [RET] && Writes(around, off, w) && |prog| == 6 && prog[3] == CALLEE && off <= LOCALS
    requires t.status == Running && t.pc == 3 && Get(env, t.regs, RET) == FrameAddr(0) && Intact(around, t)
    ensures AStep(env, around, prog, t) == Next(WithSlot(t, off, w)) && Intact(around, Next(WithSlot(t, off, w)))
  {
    assert Inputs(env, CALLEE, t.regs)[1] == FrameAddr(0);
    assert !AllNum(Inputs(env, CALLEE, t.regs));
  }

  lemma Returns(env: Env, around: Surroundings, prog: seq<Op>, t: State, entry: int -> Word)
    requires |prog| == 6 && prog[5] == Epilogue(CALLEE_SAVED, 8192) && t.status == Running && t.pc == 5 && t.stack == []
    requires t.saved == Values(env, entry, CALLEE_SAVED) && Intact(around, t)
    ensures var u := AStep(env, around, prog, t); u.status == Returned && Get(env, u.regs, RET) == Get(env, t.regs, RET)
  {
    hide Restored, Intact;
    ShapeEpilogue(env, prog, t);
    RestoredIsEntry(env, entry, t.regs, CALLEE_SAVED, t.saved, Phys(env.arch, RET));
  }

  /** The last three: the callee writes, the cell, or S3, goes to RET, and the function returns. */
  lemma Closing(env: Env, around: Surroundings, off: int, w: Word, t: State, kept: bool, entry: int -> Word)
      returns (u: State)
    requires env.view == [RET] && Writes(around, off, w) && off <= LOCALS
    requires t.status == Running && t.pc == 3 && t.stack == [] && t.saved == Values(env, entry, CALLEE_SAVED)
    requires Get(env, t.regs, RET) == FrameAddr(0) == Get(env, t.regs, FP) && Intact(around, t)
    ensures u == ARun(env, around, if kept then TakesAddress(off) else Replay(off), t, 3) && u.status == Returned
    ensures Get(env, u.regs, RET) == if kept then w else Get(env, t.regs, S3)
  {
    var prog := if kept then TakesAddress(off) else Replay(off);
    assert |prog| == 6 && prog[3] == CALLEE && prog[5] == Epilogue(CALLEE_SAVED, 8192);
    hide ARun, AStep, Restored, Writes, Intact, Values, TakesAddress, Replay;
    CalleeWrites(env, around, off, w, prog, t);
    var t1 := Next(WithSlot(t, off, w));
    var t2 := Fetches(env, around, off, w, t1, kept);
    SameArea(around, t1, t2);
    hide Get;
    Returns(env, around, prog, t2, entry);
    u := AStep(env, around, prog, t2);
    ARunStep(env, around, prog, t, 3);
    ARunStep(env, around, prog, t1, 2);
    ARunStep(env, around, prog, t2, 1);
    ARunNone(env, around, prog, u);
  }

  lemma Fetches(env: Env, around: Surroundings, off: int, w: Word, s: State, kept: bool) returns (t: State)
    requires s.status == Running && s.pc == 4 && s.slots(off) == w && Get(env, s.regs, FP) == FrameAddr(0)
    ensures t == AStep(env, around, if kept then TakesAddress(off) else Replay(off), s)
    ensures t.status == Running && t.pc == 5
    ensures t.slots == s.slots && t.saved == s.saved && t.stack == s.stack
    ensures Get(env, t.regs, RET) == if kept then w else Get(env, s.regs, S3)
  {
    t := Next(s.(regs := Set(env, s.regs, RET, if kept then w else Get(env, s.regs, S3))));
  }

  lemma SameArea(around: Surroundings, s: State, t: State)
    requires Intact(around, s) && t.slots == s.slots && t.saved == s.saved
    ensures Intact(around, t)
  {
  }

  lemma ARunNone(env: Env, around: Surroundings, prog: seq<Op>, s: State)
    ensures ARun(env, around, prog, s, 0) == s
  {
  }

  /** With the cell in a register the emitted function returns the argument; recorded, it returns what the callee has
      written. */
  lemma AddressIsLost(env: Env, around: Surroundings, off: int, w: Word, s: State)
    requires env.view == [RET] && Writes(around, off, w) && off <= LOCALS
    requires Begins(s) && Get(env, s.regs, FP) == FrameAddr(0) && w != Get(env, s.regs, A0)
    ensures var ops, plan := TakesAddress(off), InS3(off);
      var a := ARun(env, around, ops, s, 6);
      var b := ARun(env, around, Compact(Replayed(env.arch, plan, ops)), s, 6);
      a.status == Returned == b.status && Get(env, a.regs, RET) == w && Get(env, b.regs, RET) == Get(env, s.regs, A0)
  {
    hide ARun, AStep, Values, Intact, Get;
    AddressReplay(env.arch, off);
    var t := Opening(env, around, off, s, true);
    var u := Closing(env, around, off, w, t, true, s.regs);
    var t' := Opening(env, around, off, s, false);
    var u' := Closing(env, around, off, w, t', false, s.regs);
  }
}
