/** A small core of WebAssembly: structured control over a flat instruction list, with br, br_if and br_table as in
    section 4.4.5 of WebAssembly Core Specification 1.0.  Everything that only touches registers and memory
    is `Basic`. */
module WasmCore {
  import opened Basics

  type S = int

  datatype Tok =
    | Block | Loop | End
    | GetPc | SetPc            // global 0, an i32
    | ConstI(n: int) | Sub | DivU
    | BrTable(count: nat, default: nat)   // targets 0 .. count-1
    | Br(depth: nat) | BrIf(depth: nat)
    | Call(func: nat)
    | Unreachable
    | Basic(code: int)         // register and memory work
    | Cond(code: int)          // pushes the outcome of a comparison
    | PcFrom(code: int)        // pc := an address held in a register, minus CODE_BASE, as an i32
    | Const64(n: int)          // an i64
    | SetLr                    // link register := top of stack

  /** Meaning of the instructions that are not control. */
  datatype Sem = Sem(basic: (int, S) -> S, cond: (int, S) -> bool, target: (int, S) -> int, link: (int, S) -> S)

  const CODE_BASE: int := 0x400000

  function PcAt(sem: Sem, code: int, st: S): (pc: int)
    ensures 0 <= pc < TWO32
  {
    U32(sem.target(code, st) - CODE_BASE)
  }

  predicate Structural(t: Tok) {
    t.Block? || t.Loop? || t.End?
  }

  /** Position of the `end` that closes d + 1 levels, reading from position i. */
  function Match(code: seq<Tok>, i: nat, d: nat): nat
    decreases |code| - i
  {
    if i >= |code| then |code|
    else match code[i]
      case Block => Match(code, i + 1, d + 1)
      case Loop => Match(code, i + 1, d + 1)
      case End => if d == 0 then i else Match(code, i + 1, d - 1)
      case _ => Match(code, i + 1, d)
  }

  /** A label on the control stack: where a branch to it continues. */
  datatype Frame = BlockFrame(after: nat) | LoopFrame(start: nat)

  /** Activation of one function. */
  datatype Local = Local(ip: nat, ctrl: seq<Frame>, stk: seq<int>)

  datatype Mode = InTramp | InSeg(seg: nat)
  datatype Status = Going | Finished | Trapped

  /** The running module: global pc and machine state, the active function, and the trampoline's
      suspended activation. */
  datatype W = W(status: Status, pc: int, st: S, mode: Mode, cur: Local, ret: Local)

  datatype Module = Module(segs: seq<seq<Tok>>, tramp: seq<Tok>)

  function CodeOf(m: Module, mode: Mode): seq<Tok> {
    match mode
    case InTramp => m.tramp
    case InSeg(k) => if k < |m.segs| then m.segs[k] else []
  }

  /** Leaving a function: back to the trampoline, or the end of the run. */
  function Return(w: W): W {
    if w.mode.InTramp? then w.(status := Finished) else w.(mode := InTramp, cur := w.ret)
  }

  function Branch(w: W, depth: nat): W {
    var c := w.cur;
    if depth < |c.ctrl| then
      var level := |c.ctrl| - 1 - depth;
      match c.ctrl[level]
      case BlockFrame(after) => w.(cur := Local(after, c.ctrl[..level], []))
      case LoopFrame(start) => w.(cur := Local(start, c.ctrl[..level], []))
    else Return(w)
  }

  function To(w: W, stk: seq<int>): W {
    w.(cur := w.cur.(ip := w.cur.ip + 1, stk := stk))
  }

  function Step(sem: Sem, m: Module, w: W): W
    requires w.status == Going
  {
    var code, c := CodeOf(m, w.mode), w.cur;
    var n := |c.stk|;
    if c.ip >= |code| then w.(status := Trapped)
    else
      match code[c.ip]
      case Block => w.(cur := Local(c.ip + 1, c.ctrl + [BlockFrame(Match(code, c.ip + 1, 0) + 1)], c.stk))
      case Loop => w.(cur := Local(c.ip + 1, c.ctrl + [LoopFrame(c.ip)], c.stk))
      case End => if c.ctrl == [] then Return(w) else w.(cur := Local(c.ip + 1, c.ctrl[..|c.ctrl| - 1], c.stk))
      case GetPc => To(w, c.stk + [w.pc])
      case SetPc => if n < 1 then w.(status := Trapped) else To(w, c.stk[..n - 1]).(pc := c.stk[n - 1])
      case ConstI(k) => To(w, c.stk + [U32(k)])
      case Sub => if n < 2 then w.(status := Trapped) else To(w, c.stk[..n - 2] + [U32(c.stk[n - 2] - c.stk[n - 1])])
      case DivU =>
        if n < 2 || c.stk[n - 1] <= 0 then w.(status := Trapped)
        else To(w, c.stk[..n - 2] + [c.stk[n - 2] / c.stk[n - 1]])
      case BrTable(count, default) =>
        if n < 1 then w.(status := Trapped)
        else Branch(w, if 0 <= c.stk[n - 1] < count then c.stk[n - 1] else default)
      case Br(d) => Branch(w, d)
      case BrIf(d) =>
        if n < 1 then w.(status := Trapped)
        else if c.stk[n - 1] != 0 then Branch(w, d) else To(w, c.stk[..n - 1])
      case Call(f) =>
        if w.mode.InTramp? && f > 0 then
          w.(mode := InSeg(f - 1), cur := Local(0, [], []), ret := Local(c.ip + 1, c.ctrl, c.stk))
        else w.(status := Trapped)
      case Unreachable => w.(status := Trapped)
      case Basic(k) => To(w, c.stk).(st := sem.basic(k, w.st))
      case Cond(k) => To(w, c.stk + [if sem.cond(k, w.st) then 1 else 0])
      case PcFrom(k) => To(w, c.stk).(pc := PcAt(sem, k, w.st))
      case Const64(k) => To(w, c.stk + [k])
      case SetLr =>
        if n < 1 then w.(status := Trapped) else To(w, c.stk[..n - 1]).(st := sem.link(c.stk[n - 1], w.st))
  }

  function Run(sem: Sem, m: Module, w: W, n: nat): W
    decreases n
  {
    if n == 0 || w.status != Going then w else Run(sem, m, Step(sem, m, w), n - 1)
  }

  lemma {:induction false} RunAdds(sem: Sem, m: Module, w: W, i: nat, j: nat)
    ensures Run(sem, m, Run(sem, m, w, i), j) == Run(sem, m, w, i + j)
    decreases i
  {
    hide Step;
    if i > 0 && w.status == Going {
      RunAdds(sem, m, Step(sem, m, w), i - 1, j);
    } else if i > 0 {
      Stuck(sem, m, w, j);
    }
  }

  lemma Stuck(sem: Sem, m: Module, w: W, n: nat)
    requires w.status != Going
    ensures Run(sem, m, w, n) == w
  {
  }

  lemma RunOne(sem: Sem, m: Module, w: W)
    requires w.status == Going
    ensures Run(sem, m, w, 1) == Step(sem, m, w)
  {
    assert Run(sem, m, Step(sem, m, w), 0) == Step(sem, m, w);
  }
}
