/** The recorder's op alphabet (vm/index.js, RC_* codes) and the abstract machine that gives it meaning.
    Arithmetic, memory, flags, calls and system calls are uninterpreted functions collected in `Sem`. */
module Machine {
  import opened VRegs

  /** A number, or an address in the frame of the function, counted from where FP points. */
  datatype Word = Num(n: int) | FrameAddr(off: int)

  /** Everything a program can reach that is neither a general register, nor its own frame, nor its own stack. */
  datatype World = World(memory: int -> Word, flags: Word, floats: int -> Word)

  datatype Opd = None | R(reg: Reg) | Imm(n: int)

  const RC_MOV := 3
  const RC_JMP := 12

  /** One recorded op.  `Compute` is every op whose first operand is a general register it writes,
      `Effect` every op that writes none; `code` is the RC_* number. */
  datatype Op =
    | Load(dest: Reg, base: Reg, off: int)
    | Store(base: Reg, off: int, src: Reg)
    | Label(name: string)
    | Jump(code: int, target: string)
    | Push(reg: Reg)
    | Pop(reg: Reg)
    | Call(code: int, arg: Opd)
    | Syscall(code: int, arg: Opd)
    | PrepareCall(args: seq<Opd>)
    | JmpIndirect(reg: Reg)
    | Prologue(size: int, saved: seq<Reg>)
    | Epilogue(saved: seq<Reg>, size: int)
    | Ret
    | Compute(code: int, dest: Reg, b: Opd, c: Opd)
    | Effect(code: int, a: Opd, b: Opd, c: Opd)
    | Nop
    | Skip   // no call at all: what is left of an op the replay drops

  function Mov(dest: Reg, src: Reg): Op {
    Compute(RC_MOV, dest, R(src), None)
  }

  datatype Sem = Sem(
    value: (int, Word, Word, World) -> Word,
    after: (int, Word, Word, World) -> World,
    effect: (int, Word, Word, Word, World) -> World,
    taken: (int, World) -> bool,
    heapLoad: (Word, int, World) -> Word,
    heapStore: (Word, int, Word, World) -> World,
    callRegs: (int, Word, seq<Word>, World) -> int -> Word,
    callWorld: (int, Word, seq<Word>, World) -> World,
    sysRegs: (int, Word, seq<Word>, World) -> int -> Word,
    sysWorld: (int, Word, seq<Word>, World) -> World,
    landing: Word -> string)

  /** `windows` tells the two kinds of x64 apart.  `view` lists the registers a callee's behaviour may depend on.
      `landing` names the label an address stands for. */
  datatype Env = Env(arch: Arch, windows: bool, sem: Sem, view: seq<Reg>)

  datatype Status = Running | Returned | Left | Faulted

  datatype State = State(status: Status, pc: nat, regs: int -> Word, slots: int -> Word,
                         stack: seq<Word>, saved: seq<Word>, world: World)

  function Get(env: Env, regs: int -> Word, r: Reg): Word {
    regs(Phys(env.arch, r))
  }

  function Set(env: Env, regs: int -> Word, r: Reg, v: Word): int -> Word {
    p => if p == Phys(env.arch, r) then v else regs(p)
  }

  function Put(regs: int -> Word, n: int, v: Word): int -> Word {
    p => if p == n then v else regs(p)
  }

  function Val(env: Env, regs: int -> Word, o: Opd): Word {
    match o
    case None => Num(0)
    case R(r) => Get(env, regs, r)
    case Imm(n) => Num(n)
  }

  function Values(env: Env, regs: int -> Word, rs: seq<Reg>): seq<Word> {
    seq(|rs|, i requires 0 <= i < |rs| => Get(env, regs, rs[i]))
  }

  /** The registers a call leaves alone.  S5 is not among them: `_strconcat` overwrites it. */
  predicate KeptByCalls(arch: Arch, p: int) {
    p == Phys(arch, S0) || p == Phys(arch, S1) || p == Phys(arch, S2) || p == Phys(arch, S3) || p == Phys(arch, S4)
    || p == Phys(arch, FP) || p == Phys(arch, SP)
  }

  function AfterCall(env: Env, regs: int -> Word, out: int -> Word): int -> Word {
    p => if KeptByCalls(env.arch, p) then regs(p) else out(p)
  }

  /** A system call sees the argument registers and V0 (X8 on arm64 linux, which carries the call number). */
  const SYS_REGS := [A0, A1, A2, A3, A4, A5, V0]

  /** It writes RET and V0, and on x64 also RCX, R10 and R11. */
  predicate WrittenBySys(arch: Arch, p: int) {
    p == Phys(arch, RET) || p == Phys(arch, V0) || (arch == X64 && (p == 1 || p == 10 || p == 11))
  }

  function AfterSys(env: Env, regs: int -> Word, out: int -> Word): int -> Word {
    p => if WrittenBySys(env.arch, p) then out(p) else regs(p)
  }

  /** The registers prepareCall fills: X0 to X7 on arm64, `callRegs` on x64, A0 to A5 on wasm32. */
  function CallRegs(env: Env): seq<int> {
    match env.arch
    case Arm64 => [0, 1, 2, 3, 4, 5, 6, 7]
    case X64 => if env.windows then [1, 2, 8, 9] else [7, 6, 2, 1, 8, 9]
    case Wasm32 => [1, 2, 3, 4, 5, 6]
  }

  /** Operands beyond those registers are left where they are; wasm32 does not emit code for such a call at all. */
  function Prepared(env: Env, regs: int -> Word, args: seq<Opd>, i: nat): int -> Word
    decreases |args| - i
  {
    if i >= |args| || i >= |CallRegs(env)| then regs
    else Prepared(env, Put(regs, CallRegs(env)[i], Val(env, regs, args[i])), args, i + 1)
  }

  /** The epilogue pops the save area from its last register back to its first. */
  function Restored(env: Env, regs: int -> Word, rs: seq<Reg>, vs: seq<Word>): int -> Word
    requires |rs| == |vs|
  {
    if rs == [] then regs
    else Restored(env, Set(env, regs, rs[|rs| - 1], vs[|vs| - 1]), rs[..|rs| - 1], vs[..|vs| - 1])
  }

  predicate IsLabel(prog: seq<Op>, t: int, name: string) {
    0 <= t < |prog| && prog[t] == Label(name)
  }

  function FindLabel(prog: seq<Op>, name: string): (t: nat)
    ensures t <= |prog|
    ensures t < |prog| ==> IsLabel(prog, t, name)
    ensures forall i :: 0 <= i < t ==> !IsLabel(prog, i, name)
  {
    if prog == [] then 0
    else if prog[0] == Label(name) then 0
    else
      var t := FindLabel(prog[1..], name);
      assert forall i :: 1 <= i < 1 + t ==> IsLabel(prog, i, name) == IsLabel(prog[1..], i - 1, name);
      1 + t
  }

  function Next(s: State): State {
    s.(pc := s.pc + 1)
  }

  /** One step at `s.pc`.  Accesses through SP, and pops of an empty stack, are outside the model. */
  function Step(env: Env, prog: seq<Op>, s: State): State
    requires s.status == Running && s.pc < |prog|
  {
    match prog[s.pc]
    case Load(d, base, off) =>
      if base == SP then s.(status := Faulted)
      else
        var v := if base == FP then s.slots(off) else env.sem.heapLoad(Get(env, s.regs, base), off, s.world);
        Next(s.(regs := Set(env, s.regs, d, v)))
    case Store(base, off, src) =>
      var v := Get(env, s.regs, src);
      if base == SP then s.(status := Faulted)
      else if base == FP then Next(s.(slots := o => if o == off then v else s.slots(o)))
      else Next(s.(world := env.sem.heapStore(Get(env, s.regs, base), off, v, s.world)))
    case Label(_) => Next(s)
    case Jump(code, target) =>
      if code == RC_JMP || env.sem.taken(code, s.world) then
        var t := FindLabel(prog, target);
        if t < |prog| then s.(pc := t) else s.(status := Left)
      else Next(s)
    case Push(r) => Next(s.(stack := s.stack + [Get(env, s.regs, r)]))
    case Pop(r) =>
      if s.stack == [] then s.(status := Faulted)
      else Next(s.(regs := Set(env, s.regs, r, s.stack[|s.stack| - 1]), stack := s.stack[..|s.stack| - 1]))
    case Call(code, arg) =>
      var x, seen := Val(env, s.regs, arg), Values(env, s.regs, env.view);
      Next(s.(regs := AfterCall(env, s.regs, env.sem.callRegs(code, x, seen, s.world)),
              world := env.sem.callWorld(code, x, seen, s.world)))
    case Syscall(code, arg) =>
      var x, seen := Val(env, s.regs, arg), Values(env, s.regs, SYS_REGS);
      Next(s.(regs := AfterSys(env, s.regs, env.sem.sysRegs(code, x, seen, s.world)),
              world := env.sem.sysWorld(code, x, seen, s.world)))
    case PrepareCall(args) => Next(s.(regs := Prepared(env, s.regs, args, 0)))
    case JmpIndirect(r) =>
      var t := FindLabel(prog, env.sem.landing(Get(env, s.regs, r)));
      if t < |prog| then s.(pc := t) else s.(status := Left)
    case Prologue(_, rs) => Next(s.(saved := Values(env, s.regs, rs), stack := []))
    case Epilogue(rs, _) =>
      if s.stack != [] || |s.saved| != |rs| then s.(status := Faulted)
      else s.(status := Returned, regs := Restored(env, s.regs, rs, s.saved))
    case Ret => s.(status := Left)
    case Compute(code, d, b, c) =>
      var x, y := Val(env, s.regs, b), Val(env, s.regs, c);
      if code == RC_MOV then Next(s.(regs := Set(env, s.regs, d, x)))
      else Next(s.(regs := Set(env, s.regs, d, env.sem.value(code, x, y, s.world)),
                   world := env.sem.after(code, x, y, s.world)))
    case Effect(code, a, b, c) =>
      Next(s.(world := env.sem.effect(code, Val(env, s.regs, a), Val(env, s.regs, b), Val(env, s.regs, c), s.world)))
    case Nop => Next(s)
    case Skip => Next(s)
  }

  predicate Halted(prog: seq<Op>, s: State) {
    s.status != Running || s.pc >= |prog|
  }

  function Run(env: Env, prog: seq<Op>, s: State, n: nat): State
    decreases n
  {
    if n == 0 || Halted(prog, s) then s
    else Run(env, prog, Step(env, prog, s), n - 1)
  }
}
