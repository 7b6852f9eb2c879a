/** The segmented virtual CPU (backend/wasm32.js, binary/wasm.js) refines the flat label machine the virtual machine's
    calls describe. */
module Segments {
  import opened Basics
  import opened WasmCore
  import opened Ladder

  // ---------- the flat machine ----------

  /** What the backend is asked to do between labels; targets are label indices and `back` is the label a call comes
      back to.  Code addresses are CODE_BASE plus a label index. */
  datatype VOp =
    | Work(code: int)
    | Jmp(target: nat)
    | Jcc(code: int, target: nat)
    | JmpVia(code: int)
    | CallTo(target: nat, back: nat)
    | CallVia(code: int, back: nat)

  /** Slice i is the code behind label i. */
  type Prog = seq<seq<VOp>>

  datatype Place = Here(slice: nat, k: nat) | Lost(pc: int)

  /** `Lost(pc)`: control has gone to a pc that is not a label (running off the last slice goes to pc == |prog|). */
  datatype F = F(at: Place, st: S)

  function Goto(prog: Prog, t: int): Place {
    if 0 <= t < |prog| then Here(t, 0) else Lost(t)
  }

  predicate InProg(prog: Prog, at: Place) {
    at.Here? && at.slice < |prog| && at.k <= |prog[at.slice]|
  }

  /** What an operation does: go on behind it, or set out for a pc. */
  datatype Effect = Stay(st: S) | Go(pc: int, st: S)

  function EffectOf(sem: Sem, op: VOp, st: S): Effect {
    match op
    case Work(c) => Stay(sem.basic(c, st))
    case Jmp(t) => Go(t, st)
    case Jcc(c, t) => if sem.cond(c, st) then Go(t, st) else Stay(st)
    case JmpVia(c) => Go(PcAt(sem, c, st), st)
    case CallTo(t, back) => Go(t, sem.link(CODE_BASE + back, st))
    case CallVia(c, back) => Go(PcAt(sem, c, st), sem.link(CODE_BASE + back, st))
  }

  function RefStep(sem: Sem, prog: Prog, f: F): F
    requires InProg(prog, f.at)
  {
    var Here(i, k) := f.at;
    if k == |prog[i]| then F(Goto(prog, i + 1), f.st)
    else match EffectOf(sem, prog[i][k], f.st)
      case Stay(st) => F(Here(i, k + 1), st)
      case Go(pc, st) => F(Goto(prog, pc), st)
  }

  function RefRun(sem: Sem, prog: Prog, f: F, n: nat): F
    decreases n
  {
    if n == 0 || !InProg(prog, f.at) then f else RefRun(sem, prog, RefStep(sem, prog, f), n - 1)
  }

  // ---------- the module that is built ----------

  function ToksOf(op: VOp, depth: nat): seq<Tok> {
    match op
    case Work(c) => [Basic(c)]
    case Jmp(t) => [ConstI(t), SetPc, Br(depth)]
    case Jcc(c, t) => [ConstI(t), SetPc, Cond(c), BrIf(depth)]
    case JmpVia(c) => [PcFrom(c), Br(depth)]
    case CallTo(t, back) => [Const64(CODE_BASE + back), SetLr, ConstI(t), SetPc, Br(depth)]
    case CallVia(c, back) => [Const64(CODE_BASE + back), PcFrom(c), SetLr, Br(depth)]
  }

  function SliceToks(ops: seq<VOp>, depth: nat): seq<Tok> {
    if ops == [] then [] else SliceToks(ops[..|ops| - 1], depth) + ToksOf(ops[|ops| - 1], depth)
  }

  function Min(a: int, b: int): int { if a < b then a else b }

  /** How many segments there are, and how many labels segment k has. */
  function SegCount(n: nat, segSize: nat): nat
    requires segSize > 0
  {
    (n + segSize - 1) / segSize
  }

  function SegLen(n: nat, segSize: nat, k: nat): int {
    Min(segSize, n - k * segSize)
  }

  function SegDispatch(n: nat, first: nat): seq<Tok> {
    [GetPc] + (if first > 0 then [ConstI(first), Sub] else []) + [BrTable(n, n + 1)]
  }

  /** The slices of segment k; the last one goes on to store the next label's index. */
  function SegSlices(prog: Prog, first: nat, n: nat): (s: seq<seq<Tok>>)
    requires first + n <= |prog|
    ensures |s| == n
  {
    seq(n, j requires 0 <= j < n =>
      SliceToks(prog[first + j], n - 1 - j) + if j == n - 1 then [ConstI(first + n), SetPc] else [])
  }

  predicate Sized(prog: Prog, segSize: nat) {
    segSize > 0 && |prog| > 0 && |prog| + segSize < 0x8000_0000
  }

  function SegTable(prog: Prog, segSize: nat, k: nat): seq<Tok>
    requires Sized(prog, segSize) && k < SegCount(|prog|, segSize)
  {
    SegBounds(|prog|, segSize, k);
    SegDispatch(SegLen(|prog|, segSize, k), k * segSize)
  }

  function SegCode(prog: Prog, segSize: nat, k: nat): (s: seq<seq<Tok>>)
    requires Sized(prog, segSize) && k < SegCount(|prog|, segSize)
    ensures |s| == SegLen(|prog|, segSize, k)
  {
    SegBounds(|prog|, segSize, k);
    SegSlices(prog, k * segSize, SegLen(|prog|, segSize, k))
  }

  function Segment(prog: Prog, segSize: nat, k: nat): seq<Tok>
    requires Sized(prog, segSize) && k < SegCount(|prog|, segSize)
  {
    Build(SegTable(prog, segSize, k), SegCode(prog, segSize, k), [End])
  }

  function TrampDispatch(count: nat, segSize: nat): seq<Tok> {
    [GetPc, ConstI(segSize), DivU, BrTable(count, count + 1)]
  }

  function TrampSlices(count: nat): (s: seq<seq<Tok>>)
    ensures |s| == count
  {
    seq(count, i requires 0 <= i < count => [Call(1 + i), Br(count - 1 - i)])
  }

  function Trampoline(count: nat, segSize: nat): seq<Tok> {
    Build(TrampDispatch(count, segSize), TrampSlices(count), [Unreachable, End])
  }

  function Linked(prog: Prog, segSize: nat): Module
    requires Sized(prog, segSize)
  {
    var count := SegCount(|prog|, segSize);
    Module(seq(count, k requires 0 <= k < count => Segment(prog, segSize, k)), Trampoline(count, segSize))
  }

  // ---------- arithmetic of the split ----------

  lemma SegBounds(n: nat, segSize: nat, k: nat)
    requires segSize > 0 && k < SegCount(n, segSize)
    ensures k * segSize < n && 1 <= SegLen(n, segSize, k) <= segSize && k * segSize + SegLen(n, segSize, k) <= n
    ensures k * segSize + SegLen(n, segSize, k) < n ==> SegLen(n, segSize, k) == segSize && k + 1 < SegCount(n, segSize)
  {
    var c := SegCount(n, segSize);
    assert c * segSize <= n + segSize - 1 < (c + 1) * segSize;
    MulLe(k + 1, c, segSize);
    if k * segSize + segSize < n {
      if k + 1 >= c { MulLe(c, k + 1, segSize); }
    }
  }

  lemma MulLe(a: nat, b: nat, c: nat)
    requires a <= b
    ensures a * c <= b * c
  {
  }

  lemma DivIs(t: nat, segSize: nat, k: nat)
    requires segSize > 0 && k * segSize <= t < k * segSize + segSize
    ensures t / segSize == k
  {
    var q := t / segSize;
    assert q * segSize <= t < q * segSize + segSize;
    if q < k { MulLe(q + 1, k, segSize); } else if q > k { MulLe(k + 1, q, segSize); }
  }

  /** A label lies in the segment pc / segSize, */
  lemma SegOf(n: nat, segSize: nat, t: nat)
    requires segSize > 0 && t < n
    ensures var k := t / segSize;
      k < SegCount(n, segSize) && k * segSize <= t < k * segSize + SegLen(n, segSize, k)
  {
    var k, c := t / segSize, SegCount(n, segSize);
    assert k * segSize <= t < k * segSize + segSize;
    assert n <= c * segSize by { assert c * segSize + segSize > n + segSize - 1; }
    if k >= c { MulLe(c, k, segSize); }
  }

  /** and in no other one. */
  lemma OnlySeg(n: nat, segSize: nat, t: nat, k: nat)
    requires segSize > 0 && k < SegCount(n, segSize) && k * segSize <= t < k * segSize + SegLen(n, segSize, k)
    ensures k == t / segSize
  {
    SegBounds(n, segSize, k);
    DivIs(t, segSize, k);
  }

  // ---------- the relation between the two machines ----------

  /** Where the trampoline goes on when segment k returns. */
  function Resume(prog: Prog, segSize: nat, k: nat): Local
    requires Sized(prog, segSize) && k < SegCount(|prog|, segSize)
  {
    var count := SegCount(|prog|, segSize);
    var td, ts := TrampDispatch(count, segSize), TrampSlices(count);
    Local(EndPos(td, ts, k) + 2, CtrlAt(td, ts, k), [])
  }

  /** Segment k is active, at position ip with control stack ctrl and nothing on the operand stack. */
  predicate InSegment(prog: Prog, segSize: nat, w: W, k: nat, ip: nat, ctrl: seq<Frame>) {
    && Sized(prog, segSize) && k < SegCount(|prog|, segSize)
    && w.status == Going && w.mode == InSeg(k) && w.cur == Local(ip, ctrl, []) && w.ret == Resume(prog, segSize, k)
  }

  /** The trampoline is at its loop head. */
  predicate AtHub(prog: Prog, segSize: nat, w: W, pc: int, st: S) {
    && Sized(prog, segSize) && w.status == Going && w.mode == InTramp && w.pc == pc && w.st == st
    && var count := SegCount(|prog|, segSize);
      w.cur == Local(1, Ctrl(TrampDispatch(count, segSize), TrampSlices(count))[..1], [])
  }

  /** The segment a label belongs to. */
  function SegIdx(n: nat, segSize: nat, i: nat): (k: nat)
    requires segSize > 0 && i < n
    ensures k < SegCount(n, segSize)
  {
    SegOf(n, segSize, i);
    i / segSize
  }

  /** Its place there. */
  function Slot(n: nat, segSize: nat, i: nat): (j: nat)
    requires segSize > 0 && i < n
    ensures j < SegLen(n, segSize, SegIdx(n, segSize, i))
  {
    SegOf(n, segSize, i);
    i - i / segSize * segSize
  }

  /** Depth of the dispatch loop at label i. */
  function Depth(n: nat, segSize: nat, i: nat): nat
    requires segSize > 0 && i < n
  {
    SegLen(n, segSize, SegIdx(n, segSize, i)) - 1 - Slot(n, segSize, i)
  }

  /** Position of operation k of slice i in its segment function. */
  function IpOf(prog: Prog, segSize: nat, i: nat, k: nat): nat
    requires Sized(prog, segSize) && i < |prog| && k <= |prog[i]|
  {
    hide SegCount, SegLen, SegIdx, Slot, Depth, SegTable, SegCode, EndPos, SliceToks;
    var seg := SegIdx(|prog|, segSize, i);
    EndPos(SegTable(prog, segSize, seg), SegCode(prog, segSize, seg), Slot(|prog|, segSize, i)) + 1
      + |SliceToks(prog[i][..k], Depth(|prog|, segSize, i))|
  }

  function CtrlOf(prog: Prog, segSize: nat, i: nat): seq<Frame>
    requires Sized(prog, segSize) && i < |prog|
  {
    hide SegCount, SegLen, SegIdx, Slot, SegTable, SegCode, CtrlAt;
    var seg := SegIdx(|prog|, segSize, i);
    CtrlAt(SegTable(prog, segSize, seg), SegCode(prog, segSize, seg), Slot(|prog|, segSize, i))
  }

  predicate AtOp(prog: Prog, segSize: nat, at: Place, w: W) {
    hide SegCount, SegLen, SegIdx, Slot, IpOf, CtrlOf, InSegment;
    Sized(prog, segSize) && InProg(prog, at) && var i := at.slice;
      InSegment(prog, segSize, w, SegIdx(|prog|, segSize, i), IpOf(prog, segSize, i, at.k), CtrlOf(prog, segSize, i))
  }

  /** In the program the active segment function is at the same operation; after leaving it the trampoline holds
      the pc. */
  predicate Rel(prog: Prog, segSize: nat, f: F, w: W) {
    f.st == w.st && if f.at.Here? then AtOp(prog, segSize, f.at, w) else AtHub(prog, segSize, w, f.at.pc, f.st)
  }

  // ---------- the code is well formed and in place ----------

  lemma {:induction false} SliceFlat(ops: seq<VOp>, d: nat)
    ensures Flat(SliceToks(ops, d))
  {
    if ops != [] {
      SliceFlat(ops[..|ops| - 1], d);
    }
  }

  lemma SegmentFlat(prog: Prog, segSize: nat, k: nat)
    requires Sized(prog, segSize) && k < SegCount(|prog|, segSize)
    ensures Wellformed(SegTable(prog, segSize, k), SegCode(prog, segSize, k))
  {
    hide SliceToks;
    SegBounds(|prog|, segSize, k);
    var first, n := k * segSize, SegLen(|prog|, segSize, k);
    forall j | 0 <= j < n ensures Flat(SegSlices(prog, first, n)[j]) {
      SliceFlat(prog[first + j], n - 1 - j);
    }
  }

  lemma TrampFlat(count: nat, segSize: nat)
    ensures Wellformed(TrampDispatch(count, segSize), TrampSlices(count))
  {
  }

  lemma {:induction false} SlicePrefix(ops: seq<VOp>, d: nat, k: nat)
    requires k < |ops|
    ensures var p, t := |SliceToks(ops[..k], d)|, ToksOf(ops[k], d);
      p + |t| <= |SliceToks(ops, d)| && SliceToks(ops, d)[p..p + |t|] == t && |SliceToks(ops[..k + 1], d)| == p + |t|
    decreases |ops|
  {
    hide ToksOf;
    var n := |ops| - 1;
    assert ops[..k + 1][..k] == ops[..k];
    var p, t := |SliceToks(ops[..k], d)|, ToksOf(ops[k], d);
    if k < n {
      SlicePrefix(ops[..n], d, k);
      assert ops[..n][..k] == ops[..k];
      assert ops[..n][..k + 1] == ops[..k + 1];
      assert SliceToks(ops, d)[p..p + |t|] == SliceToks(ops[..n], d)[p..p + |t|];
    } else {
      assert ops[..k + 1] == ops;
      assert SliceToks(ops, d) == SliceToks(ops[..k], d) + t;
    }
  }

  /** What slice j of a segment holds: its label's operations, and for the last one the way on. */
  lemma SliceHolds(prog: Prog, segSize: nat, i: nat)
    requires Sized(prog, segSize) && i < |prog|
    ensures var seg, j := SegIdx(|prog|, segSize, i), Slot(|prog|, segSize, i);
      && i == seg * segSize + j && seg == i / segSize
      && SegCode(prog, segSize, seg)[j] == SliceToks(prog[i], Depth(|prog|, segSize, i)) +
        (if Depth(|prog|, segSize, i) == 0 then [ConstI(i + 1), SetPc] else [])
  {
    var seg, j := SegIdx(|prog|, segSize, i), Slot(|prog|, segSize, i);
    SegOf(|prog|, segSize, i);
    SegBounds(|prog|, segSize, seg);
    assert i == seg * segSize + j && seg == i / segSize;
  }

  /** The tokens of the next operation start at the position of the relation, and end at that of the operation after. */
  lemma OpTokens(prog: Prog, segSize: nat, i: nat, k: nat)
    requires Sized(prog, segSize) && i < |prog| && k < |prog[i]|
    ensures var code, ip := Segment(prog, segSize, SegIdx(|prog|, segSize, i)), IpOf(prog, segSize, i, k);
      var t := ToksOf(prog[i][k], Depth(|prog|, segSize, i));
      ip + |t| <= |code| && code[ip..ip + |t|] == t && IpOf(prog, segSize, i, k + 1) == ip + |t|
  {
    hide SegCount, SegLen, SegIdx, Slot, Depth, SegTable, SegCode, EndPos, SliceToks, Build, ToksOf;
    var seg, j, d := SegIdx(|prog|, segSize, i), Slot(|prog|, segSize, i), Depth(|prog|, segSize, i);
    var slices := SegCode(prog, segSize, seg);
    SliceAt(SegTable(prog, segSize, seg), slices, [End], j);
    SlicePrefix(prog[i], d, k);
    SliceHolds(prog, segSize, i);
    var p, t := |SliceToks(prog[i][..k], d)|, ToksOf(prog[i][k], d);
    assert slices[j][p..p + |t|] == SliceToks(prog[i], d)[p..p + |t|];
    Within(Segment(prog, segSize, seg), slices[j], EndPos(SegTable(prog, segSize, seg), slices, j) + 1, p, t);
  }

  lemma LinkedCode(prog: Prog, segSize: nat, k: nat)
    requires Sized(prog, segSize) && k < SegCount(|prog|, segSize)
    ensures CodeOf(Linked(prog, segSize), InSeg(k)) == Segment(prog, segSize, k)
  {
  }

  // ---------- dispatching ----------

  /** After n more steps. */
  lemma Then(sem: Sem, m: Module, w: W, n: nat)
    requires w.status == Going
    ensures Run(sem, m, w, n + 1) == Run(sem, m, Step(sem, m, w), n)
  {
  }

  /** The segment the trampoline chooses. */
  function SegNo(pc: int, segSize: nat): (q: nat)
    requires pc >= 0 && segSize > 0
  {
    pc / segSize
  }

  /** The trampoline's index. */
  lemma HubIndex(sem: Sem, m: Module, w: W, code: seq<Tok>, segSize: nat, count: nat)
    requires w.status == Going && CodeOf(m, w.mode) == code && w.cur.stk == [] && 0 < segSize < TWO32 && w.pc >= 0
    requires var b := w.cur.ip; b + 4 <= |code| && code[b..b + 4] == TrampDispatch(count, segSize)
    ensures Run(sem, m, w, 3) == w.(cur := w.cur.(ip := w.cur.ip + 3, stk := [SegNo(w.pc, segSize)]))
    ensures code[w.cur.ip + 3] == BrTable(count, count + 1)
  {
    var b, d := w.cur.ip, TrampDispatch(count, segSize);
    assert code[b..b + 4][0] == d[0] && code[b..b + 4][1] == d[1] && code[b..b + 4][2] == d[2]
      && code[b..b + 4][3] == d[3];
    var w1, w2 := Step(sem, m, w), w.(cur := w.cur.(ip := b + 2, stk := [w.pc, segSize]));
    assert w1 == w.(cur := w.cur.(ip := b + 1, stk := [w.pc]));
    assert Step(sem, m, w1) == w2;
    assert [w.pc, segSize][..0] + [SegNo(w.pc, segSize)] == [SegNo(w.pc, segSize)];
    Then(sem, m, w2, 0);
    Then(sem, m, w1, 1);
    Then(sem, m, w, 2);
  }

  /** A segment's index: pc - first, as an i32. */
  lemma SegIndex(sem: Sem, m: Module, w: W, code: seq<Tok>, first: nat, n: nat) returns (k: nat)
    requires w.status == Going && CodeOf(m, w.mode) == code && w.cur.stk == [] && 0 <= w.pc < TWO32 && first < TWO32
    requires var b, d := w.cur.ip, SegDispatch(n, first); b + |d| <= |code| && code[b..b + |d|] == d
    ensures var ip := w.cur.ip + |SegDispatch(n, first)| - 1;
      && Run(sem, m, w, k) == w.(cur := w.cur.(ip := ip, stk := [U32(w.pc - first)]))
      && code[ip] == BrTable(n, n + 1)
  {
    var b, d := w.cur.ip, SegDispatch(n, first);
    assert code[b] == code[b..b + |d|][0] == d[0];
    var w1 := w.(cur := w.cur.(ip := b + 1, stk := [w.pc]));
    assert Step(sem, m, w) == w1;
    if first > 0 {
      assert code[b..b + |d|][1] == d[1] && code[b..b + |d|][2] == d[2] && code[b..b + |d|][3] == d[3];
      var w2 := w.(cur := w.cur.(ip := b + 2, stk := [w.pc, first]));
      assert Step(sem, m, w1) == w2;
      assert [w.pc, first][..0] + [U32(w.pc - first)] == [U32(w.pc - first)];
      Then(sem, m, w2, 0);
      Then(sem, m, w1, 1);
      Then(sem, m, w, 2);
      k := 3;
    } else {
      assert code[b..b + |d|][1] == d[1];
      Then(sem, m, w, 0);
      k := 1;
    }
  }

  /** From the trampoline's loop head to its table. */
  lemma HubTable(sem: Sem, prog: Prog, segSize: nat, w: W) returns (w2: W)
    requires AtHub(prog, segSize, w, w.pc, w.st) && 0 <= w.pc < TWO32
    ensures var count, m := SegCount(|prog|, segSize), Linked(prog, segSize);
      var td, ts := TrampDispatch(count, segSize), TrampSlices(count);
      && w2 == Run(sem, m, w, 4 + count) == w.(cur := Local(5 + count, Ctrl(td, ts), [SegNo(w.pc, segSize)]))
      && 5 + count < |Build(td, ts, [Unreachable, End])|
      && Build(td, ts, [Unreachable, End])[5 + count] == BrTable(count, count + 1)
  {
    var count, m := SegCount(|prog|, segSize), Linked(prog, segSize);
    var td, ts := TrampDispatch(count, segSize), TrampSlices(count);
    var rest := [Unreachable, End];
    hide SegNo, SegCount, Build, EndPos, Ctrl, CtrlAt, Run, Step;
    TrampFlat(count, segSize);
    HeadAt(td, ts, rest);
    FromLoop(sem, m, w, td, ts, rest);
    var w1 := w.(cur := Local(2 + count, Ctrl(td, ts), []));
    HubIndex(sem, m, w1, Build(td, ts, rest), segSize, count);
    RunAdds(sem, m, w, 1 + count, 3);
    w2 := w.(cur := Local(5 + count, Ctrl(td, ts), [SegNo(w.pc, segSize)]));
  }

  lemma TrampSlice(count: nat, k: nat)
    requires k < count
    ensures TrampSlices(count)[k] == [Call(1 + k), Br(count - 1 - k)]
  {
  }

  /** A table entry's code: the call. */
  lemma CallSeg(sem: Sem, prog: Prog, segSize: nat, w: W, q: nat)
    requires Sized(prog, segSize) && q < SegCount(|prog|, segSize)
    requires var count := SegCount(|prog|, segSize);
      var td, ts := TrampDispatch(count, segSize), TrampSlices(count);
      w.status == Going && w.mode == InTramp && w.cur == Local(EndPos(td, ts, q) + 1, CtrlAt(td, ts, q), [])
    ensures Step(sem, Linked(prog, segSize), w) ==
      w.(mode := InSeg(q), cur := Local(0, [], []), ret := Resume(prog, segSize, q))
  {
    var count := SegCount(|prog|, segSize);
    var td, ts := TrampDispatch(count, segSize), TrampSlices(count);
    hide SegNo, SegCount, Build, EndPos, Ctrl, CtrlAt, TrampDispatch, TrampSlices;
    SliceAt(td, ts, [Unreachable, End], q);
    TrampSlice(count, q);
    var code, p := Build(td, ts, [Unreachable, End]), EndPos(td, ts, q) + 1;
    assert code[p] == code[p..p + 2][0];
  }

  lemma TableJump(sem: Sem, prog: Prog, segSize: nat, w: W, q: nat)
    requires Sized(prog, segSize) && q < SegCount(|prog|, segSize)
    requires var count := SegCount(|prog|, segSize);
      var td, ts := TrampDispatch(count, segSize), TrampSlices(count);
      var code := Build(td, ts, [Unreachable, End]);
      && w.status == Going && w.mode == InTramp && w.cur.ctrl == Ctrl(td, ts) && w.cur.stk == [q]
      && w.cur.ip < |code| && code[w.cur.ip] == BrTable(count, count + 1)
    ensures var count := SegCount(|prog|, segSize);
      var td, ts := TrampDispatch(count, segSize), TrampSlices(count);
      Step(sem, Linked(prog, segSize), w) == w.(cur := Local(EndPos(td, ts, q) + 1, CtrlAt(td, ts, q), []))
  {
    var count := SegCount(|prog|, segSize);
    var td, ts := TrampDispatch(count, segSize), TrampSlices(count);
    hide SegNo, SegCount, Build, EndPos, Ctrl, CtrlAt, TrampDispatch, TrampSlices;
    BranchLands(w, td, ts, q);
  }

  /** From the trampoline's loop head into segment pc / segSize. */
  lemma HubCalls(sem: Sem, prog: Prog, segSize: nat, w: W) returns (n: nat)
    requires AtHub(prog, segSize, w, w.pc, w.st) && 0 <= w.pc < TWO32
    requires SegNo(w.pc, segSize) < SegCount(|prog|, segSize)
    ensures n > 0
    ensures var q := SegNo(w.pc, segSize);
      Run(sem, Linked(prog, segSize), w, n) ==
        w.(mode := InSeg(q), cur := Local(0, [], []), ret := Resume(prog, segSize, q))
  {
    var count, m := SegCount(|prog|, segSize), Linked(prog, segSize);
    var td, ts := TrampDispatch(count, segSize), TrampSlices(count);
    var w2 := HubTable(sem, prog, segSize, w);
    var q := SegNo(w.pc, segSize);
    var w3 := w.(cur := Local(EndPos(td, ts, q) + 1, CtrlAt(td, ts, q), []));
    hide SegNo, SegCount, Build, EndPos, Ctrl, CtrlAt, TrampDispatch, TrampSlices, Linked, Step, Resume, Branch, Run;
    TableJump(sem, prog, segSize, w2, q);
    CallSeg(sem, prog, segSize, w3, q);
    Then(sem, m, w3, 0);
    Then(sem, m, w2, 1);
    RunAdds(sem, m, w, 4 + count, 2);
    n := 6 + count;
  }

  /** A pc beyond the last segment ends in the trap. */
  lemma HubTraps(sem: Sem, prog: Prog, segSize: nat, w: W) returns (n: nat)
    requires AtHub(prog, segSize, w, w.pc, w.st) && 0 <= w.pc < TWO32
    requires SegNo(w.pc, segSize) >= SegCount(|prog|, segSize)
    ensures Run(sem, Linked(prog, segSize), w, n) ==
      w.(status := Trapped, cur := Run(sem, Linked(prog, segSize), w, n).cur)
  {
    hide Build, EndPos, Ctrl, CtrlAt, Match;
    var count, m := SegCount(|prog|, segSize), Linked(prog, segSize);
    var td, ts := TrampDispatch(count, segSize), TrampSlices(count);
    var w2 := HubTable(sem, prog, segSize, w);
    hide SegNo, SegCount, Build, EndPos, Ctrl, CtrlAt, TrampDispatch, TrampSlices;
    BranchLands(w2, td, ts, 0);
    TailAt(td, ts, [Unreachable, End]);
    var p := EndPos(td, ts, count + 1) + 1;
    assert Build(td, ts, [Unreachable, End])[p] == Build(td, ts, [Unreachable, End])[p..][0] == Unreachable;
    var w3 := w.(cur := Local(p, [], []));
    assert Step(sem, m, w2) == w3;
    Then(sem, m, w3, 0);
    Then(sem, m, w2, 1);
    RunAdds(sem, m, w, 4 + count, 2);
    n := 6 + count;
  }

  /** Behind the call the trampoline branches to its loop head. */
  lemma ResumesAtLoop(sem: Sem, prog: Prog, segSize: nat, w: W, k: nat)
    requires Sized(prog, segSize) && k < SegCount(|prog|, segSize)
    requires w.status == Going && w.mode == InTramp && w.cur == Resume(prog, segSize, k)
    ensures AtHub(prog, segSize, Step(sem, Linked(prog, segSize), w), w.pc, w.st)
  {
    var count := SegCount(|prog|, segSize);
    var td, ts := TrampDispatch(count, segSize), TrampSlices(count);
    hide SegCount, Build, EndPos, Ctrl, CtrlAt, Segment, TrampDispatch, TrampSlices;
    SliceAt(td, ts, [Unreachable, End], k);
    TrampSlice(count, k);
    var code, p := Build(td, ts, [Unreachable, End]), EndPos(td, ts, k) + 1;
    assert code[p + 1] == code[p..p + 2][1];
    LoopDepth(w, td, ts, k);
  }

  /** A segment function that returns gives control back to the trampoline's loop head. */
  lemma SegReturns(sem: Sem, prog: Prog, segSize: nat, w: W, k: nat) returns (n: nat)
    requires InSegment(prog, segSize, w, k, w.cur.ip, [])
    requires w.cur.ip < |Segment(prog, segSize, k)| && Segment(prog, segSize, k)[w.cur.ip] == End
    ensures n > 0 && AtHub(prog, segSize, Run(sem, Linked(prog, segSize), w, n), w.pc, w.st)
  {
    var m := Linked(prog, segSize);
    LinkedCode(prog, segSize, k);
    var w1 := w.(mode := InTramp, cur := w.ret);
    hide SegCount, Segment, Linked, Resume, AtHub, Run;
    assert Step(sem, m, w) == w1;
    ResumesAtLoop(sem, prog, segSize, w1, k);
    RunOne(sem, m, w1);
    Then(sem, m, w, 1);
    n := 2;
  }

  /** The dispatch of segment k has been reached with its index on the stack. */
  predicate Indexed(prog: Prog, segSize: nat, w: W, k: nat, ip: nat) {
    && Sized(prog, segSize) && k < SegCount(|prog|, segSize)
    && w.status == Going && w.mode == InSeg(k) && w.ret == Resume(prog, segSize, k)
    && w.cur == Local(ip, Ctrl(SegTable(prog, segSize, k), SegCode(prog, segSize, k)), [U32(w.pc - k * segSize)])
    && ip < |Segment(prog, segSize, k)|
    && var n := |SegCode(prog, segSize, k)|; Segment(prog, segSize, k)[ip] == BrTable(n, n + 1)
  }

  /** At the loop head of segment k, in front of its table, and at its very start. */
  predicate AtLoop(prog: Prog, segSize: nat, w: W, k: nat) {
    Sized(prog, segSize) && k < SegCount(|prog|, segSize) &&
    InSegment(prog, segSize, w, k, 1, Ctrl(SegTable(prog, segSize, k), SegCode(prog, segSize, k))[..1])
  }

  predicate AtTable(prog: Prog, segSize: nat, w: W, k: nat) {
    Sized(prog, segSize) && k < SegCount(|prog|, segSize) &&
    InSegment(prog, segSize, w, k, 2 + |SegCode(prog, segSize, k)|,
      Ctrl(SegTable(prog, segSize, k), SegCode(prog, segSize, k)))
  }

  predicate AtEntry(prog: Prog, segSize: nat, w: W, k: nat) {
    InSegment(prog, segSize, w, k, 0, [])
  }

  /** n steps of the linked module lead from w to w1. */
  predicate Reach(sem: Sem, prog: Prog, segSize: nat, w: W, n: nat, w1: W) {
    Sized(prog, segSize) && Run(sem, Linked(prog, segSize), w, n) == w1
  }

  lemma Chain(sem: Sem, prog: Prog, segSize: nat, w: W, a: nat, w1: W, b: nat, w2: W)
    requires Reach(sem, prog, segSize, w, a, w1) && Reach(sem, prog, segSize, w1, b, w2)
    ensures Reach(sem, prog, segSize, w, a + b, w2)
  {
    RunAdds(sem, Linked(prog, segSize), w, a, b);
  }

  lemma Reads(sem: Sem, prog: Prog, segSize: nat, w: W, k: nat) returns (n: nat, w1: W)
    requires AtTable(prog, segSize, w, k) && 0 <= w.pc < TWO32
    ensures Reach(sem, prog, segSize, w, n, w1)
    ensures w1.pc == w.pc && w1.st == w.st && Indexed(prog, segSize, w1, k, w1.cur.ip)
  {
    hide EndPos, Ctrl, Step, Run, Build;
    var d, slices := SegTable(prog, segSize, k), SegCode(prog, segSize, k);
    var first, len := k * segSize, SegLen(|prog|, segSize, k);
    SegBounds(|prog|, segSize, k);
    LinkedCode(prog, segSize, k);
    hide SegCount, SegLen, SegCode, Build, EndPos, Ctrl, Linked, Run, Step, SegDispatch;
    HeadAt(d, slices, [End]);
    n := SegIndex(sem, Linked(prog, segSize), w, Segment(prog, segSize, k), first, len);
    w1 := Run(sem, Linked(prog, segSize), w, n);
    RestOf(len, first);
  }

  lemma RestOf(n: nat, first: nat)
    ensures |SegDispatch(n, first)| >= 2
  {
  }

  predicate Owns(n: nat, segSize: nat, k: nat, pc: int) {
    k * segSize <= pc < k * segSize + SegLen(n, segSize, k)
  }

  /** Segment k has dealt with pc: it is at the label, or the trampoline has been given control. */
  predicate Routed(prog: Prog, segSize: nat, k: nat, pc: int, st: S, w: W) {
    w.st == st && if Owns(|prog|, segSize, k, pc) then AtOp(prog, segSize, Here(pc, 0), w)
      else AtHub(prog, segSize, w, pc, st)
  }

  /** A label of its own segment is reached directly; any other pc leaves the function. */
  lemma Lands(sem: Sem, prog: Prog, segSize: nat, w: W, k: nat) returns (n: nat, w1: W)
    requires 0 <= w.pc < TWO32 && Indexed(prog, segSize, w, k, w.cur.ip)
    ensures n > 0 && Reach(sem, prog, segSize, w, n, w1)
    ensures Routed(prog, segSize, k, w.pc, w.st, w1)
  {
    hide Build, Match, Ctrl;
    var m := Linked(prog, segSize);
    var d, slices := SegTable(prog, segSize, k), SegCode(prog, segSize, k);
    var first, len := k * segSize, SegLen(|prog|, segSize, k);
    SegBounds(|prog|, segSize, k);
    LinkedCode(prog, segSize, k);
    var j := U32(w.pc - first);
    Wraps(w.pc, first, len);
    assert first + len <= |prog| < 0x8000_0000;
    Then(sem, m, w, 0);
    w1 := Step(sem, m, w);
    if first <= w.pc < first + len {
      assert w1 == w.(cur := Local(EndPos(d, slices, j) + 1, CtrlAt(d, slices, j), [])) by {
        hide SegCount, SegLen, SegCode, Build, EndPos, Ctrl, CtrlAt, Linked, SegDispatch, SegTable;
        BranchLands(w, d, slices, j);
      }
      DivIs(w.pc, segSize, k);
      assert SegIdx(|prog|, segSize, w.pc) == k && Slot(|prog|, segSize, w.pc) == j;
      hide SegCount, SegLen, SegCode, Build, EndPos, Ctrl, CtrlAt, Linked, SegDispatch, SegTable, SegIdx, Slot;
      assert prog[w.pc][..0] == [];
      n := 1;
    } else {
      hide SegCount, SegLen, SegCode, Build, EndPos, Ctrl, CtrlAt, Linked, SegDispatch, SegTable, SegIdx, Slot, Resume;
      assert w1 == w.(cur := Local(EndPos(d, slices, len + 1) + 1, [], [])) by {
        BranchLands(w, d, slices, 0);
      }
      TailAt(d, slices, [End]);
      var p := EndPos(d, slices, len + 1) + 1;
      assert Segment(prog, segSize, k)[p] == Segment(prog, segSize, k)[p..][0] == End;
      var q := SegReturns(sem, prog, segSize, w1, k);
      RunAdds(sem, m, w, 1, q);
      n := 1 + q;
      w1 := Run(sem, m, w, n);
    }
  }

  /** Subtracting the segment's first label as an i32 keeps its own labels and sends every other pc beyond them. */
  lemma Wraps(pc: int, first: nat, len: nat)
    requires 0 <= pc < TWO32 && first + len < 0x8000_0000
    ensures var j := U32(pc - first);
      if first <= pc < first + len then j == pc - first && j < len else j >= len
  {
  }

  /** From the start of a segment function or from its loop head: to the label if it is one of its own, else out. */
  lemma SegRoutes(sem: Sem, prog: Prog, segSize: nat, w: W, k: nat) returns (n: nat, w3: W)
    requires (AtEntry(prog, segSize, w, k) || AtLoop(prog, segSize, w, k)) && 0 <= w.pc < TWO32
    ensures n > 0 && Reach(sem, prog, segSize, w, n, w3) && Routed(prog, segSize, k, w.pc, w.st, w3)
  {
    hide *;
    var a, w1 := SegOpens(sem, prog, segSize, w, k);
    var b, w2 := Reads(sem, prog, segSize, w1, k);
    var c;
    c, w3 := Lands(sem, prog, segSize, w2, k);
    Chain(sem, prog, segSize, w, a, w1, b, w2);
    Chain(sem, prog, segSize, w, a + b, w2, c, w3);
    n := a + b + c;
  }

  lemma SegOpens(sem: Sem, prog: Prog, segSize: nat, w: W, k: nat) returns (n: nat, w1: W)
    requires AtEntry(prog, segSize, w, k) || AtLoop(prog, segSize, w, k)
    ensures Reach(sem, prog, segSize, w, n, w1) && w1.pc == w.pc && w1.st == w.st && AtTable(prog, segSize, w1, k)
  {
    var m := Linked(prog, segSize);
    var d, slices := SegTable(prog, segSize, k), SegCode(prog, segSize, k);
    SegmentFlat(prog, segSize, k);
    LinkedCode(prog, segSize, k);
    hide SegCount, SegLen, SegCode, SegTable, Ctrl, CtrlAt, Linked, EndPos, Resume, Step, Build, Run;
    if AtEntry(prog, segSize, w, k) {
      FromStart(sem, m, w, d, slices, [End]);
      n := 2 + |slices|;
    } else {
      FromLoop(sem, m, w, d, slices, [End]);
      n := 1 + |slices|;
    }
    w1 := Run(sem, m, w, n);
  }

  lemma HubEnters(sem: Sem, prog: Prog, segSize: nat, w: W, k: nat) returns (n: nat, w1: W)
    requires AtHub(prog, segSize, w, w.pc, w.st) && 0 <= w.pc && k == SegNo(w.pc, segSize) < SegCount(|prog|, segSize)
    requires w.pc < TWO32
    ensures n > 0 && Reach(sem, prog, segSize, w, n, w1) && w1.pc == w.pc && w1.st == w.st
    ensures AtEntry(prog, segSize, w1, k)
  {
    hide SegCount, SegNo, Run, Linked, Resume, TrampDispatch, TrampSlices, Ctrl;
    n := HubCalls(sem, prog, segSize, w);
    w1 := w.(mode := InSeg(k), cur := Local(0, [], []), ret := Resume(prog, segSize, k));
  }

  lemma HomeSegment(n: nat, segSize: nat, pc: int) returns (k: nat)
    requires segSize > 0 && 0 <= pc < n
    ensures k == SegNo(pc, segSize) < SegCount(n, segSize) && Owns(n, segSize, k, pc)
  {
    SegOf(n, segSize, pc);
    k := pc / segSize;
  }

  /** The trampoline brings every label to its slice. */
  lemma HubRoutes(sem: Sem, prog: Prog, segSize: nat, w: W) returns (n: nat, w2: W)
    requires AtHub(prog, segSize, w, w.pc, w.st) && 0 <= w.pc < |prog|
    ensures n > 0 && Reach(sem, prog, segSize, w, n, w2) && w2.st == w.st && AtOp(prog, segSize, Here(w.pc, 0), w2)
  {
    var k := HomeSegment(|prog|, segSize, w.pc);
    hide SegCount, SegLen, SegCode, SegTable, Linked, Resume, AtOp, Run, Owns, SegNo, Reach, AtEntry, AtLoop,
      TrampDispatch, TrampSlices, Ctrl;
    var a, w1 := HubEnters(sem, prog, segSize, w, k);
    var b;
    b, w2 := SegRoutes(sem, prog, segSize, w1, k);
    Chain(sem, prog, segSize, w, a, w1, b, w2);
    n := a + b;
  }

  /** A dispatch from inside a segment, whatever the pc. */
  lemma Dispatches(sem: Sem, prog: Prog, segSize: nat, w: W, k: nat) returns (n: nat, w2: W)
    requires AtLoop(prog, segSize, w, k) && 0 <= w.pc < TWO32
    ensures n > 0 && Reach(sem, prog, segSize, w, n, w2) && Rel(prog, segSize, F(Goto(prog, w.pc), w.st), w2)
  {
    if Owns(|prog|, segSize, k, w.pc) { OwnsLabels(|prog|, segSize, k, w.pc); }
    hide SegCount, SegLen, SegCode, SegTable, Linked, Resume, AtOp, AtHub, Run, Owns, SegNo, Reach, AtEntry, AtLoop,
      Ctrl;
    n, w2 := SegRoutes(sem, prog, segSize, w, k);
    if 0 <= w.pc < |prog| && !Owns(|prog|, segSize, k, w.pc) {
      HubFields(prog, segSize, w2, w.pc, w.st);
      var w1 := w2;
      var b;
      b, w2 := HubRoutes(sem, prog, segSize, w1);
      Chain(sem, prog, segSize, w, n, w1, b, w2);
      n := n + b;
    }
  }

  lemma OwnsLabels(n: nat, segSize: nat, k: nat, pc: int)
    requires segSize > 0 && k < SegCount(n, segSize) && Owns(n, segSize, k, pc)
    ensures 0 <= pc < n
  {
    SegBounds(n, segSize, k);
  }

  lemma HubFields(prog: Prog, segSize: nat, w: W, pc: int, st: S)
    requires AtHub(prog, segSize, w, pc, st)
    ensures w.pc == pc && w.st == st
  {
  }

  // ---------- one step of the flat machine ----------

  /** Labels named by the program are its own. */
  predicate Targeted(prog: Prog) {
    forall i, k :: 0 <= i < |prog| && 0 <= k < |prog[i]| ==> OpTargeted(prog[i][k], |prog|)
  }

  predicate OpTargeted(op: VOp, n: nat) {
    match op
    case Jmp(t) => t < n
    case Jcc(_, t) => t < n
    case CallTo(t, back) => t < n && back < n
    case CallVia(_, back) => back < n
    case _ => true
  }

  /** w1 is what running through the operation's tokens makes of w: a branch of depth d, or the position behind them. */
  predicate After(sem: Sem, op: VOp, d: nat, w: W, w1: W) {
    match EffectOf(sem, op, w.st)
    case Stay(st) => w1 == w.(pc := w1.pc, st := st, cur := w.cur.(ip := w.cur.ip + |ToksOf(op, d)|))
    case Go(pc, st) => 0 <= pc < TWO32 && w1 == Branch(w.(pc := pc, st := st), d)
  }

  /** The tokens t are next. */
  predicate Next(m: Module, w: W, t: seq<Tok>) {
    var code, ip := CodeOf(m, w.mode), w.cur.ip;
    w.status == Going && w.cur.stk == [] && ip + |t| <= |code| && code[ip..ip + |t|] == t
  }

  lemma NextAt(m: Module, w: W, t: seq<Tok>, q: nat)
    requires Next(m, w, t) && q < |t|
    ensures w.cur.ip + q < |CodeOf(m, w.mode)| && CodeOf(m, w.mode)[w.cur.ip + q] == t[q]
  {
    var code, ip := CodeOf(m, w.mode), w.cur.ip;
    assert code[ip..ip + |t|][q] == t[q];
  }

  function At(w: W, q: nat, stk: seq<int>): W {
    w.(cur := w.cur.(ip := w.cur.ip + q, stk := stk))
  }

  /** Storing a label's index into pc. */
  lemma SetsPc(sem: Sem, m: Module, w: W, q: nat, t: int)
    requires w.status == Going && 0 <= t < TWO32 && var code, p := CodeOf(m, w.mode), w.cur.ip + q;
      p + 2 <= |code| && code[p] == ConstI(t) && code[p + 1] == SetPc
    ensures Run(sem, m, At(w, q, []), 2) == At(w, q + 2, []).(pc := t)
  {
    var w1, w2 := At(w, q, []), At(w, q + 1, [t]);
    assert Step(sem, m, w1) == w2;
    assert Step(sem, m, w2) == At(w, q + 2, []).(pc := t);
    Then(sem, m, w2, 0);
    Then(sem, m, w1, 1);
  }

  lemma OpRuns(sem: Sem, m: Module, w: W, op: VOp, d: nat) returns (n: nat)
    requires Next(m, w, ToksOf(op, d)) && d < |w.cur.ctrl| && OpTargeted(op, 0x8000_0000)
    ensures n > 0 && After(sem, op, d, w, Run(sem, m, w, n))
  {
    hide Run, Step, Branch, Next, After;
    match op
    case Work(c) => n := WorkRuns(sem, m, w, c, d);
    case Jmp(t) => n := JmpRuns(sem, m, w, t, d);
    case Jcc(c, t) => n := JccRuns(sem, m, w, c, t, d);
    case JmpVia(c) => n := JmpViaRuns(sem, m, w, c, d);
    case CallTo(t, back) => n := CallRuns(sem, m, w, t, back, d);
    case CallVia(c, back) => n := CallViaRuns(sem, m, w, c, back, d);
  }

  lemma WorkRuns(sem: Sem, m: Module, w: W, c: int, d: nat) returns (n: nat)
    requires Next(m, w, ToksOf(Work(c), d))
    ensures n > 0 && After(sem, Work(c), d, w, Run(sem, m, w, n))
  {
    hide Branch;
    NextAt(m, w, ToksOf(Work(c), d), 0);
    RunOne(sem, m, w);
    n := 1;
  }

  lemma JmpViaRuns(sem: Sem, m: Module, w: W, c: int, d: nat) returns (n: nat)
    requires Next(m, w, ToksOf(JmpVia(c), d)) && d < |w.cur.ctrl|
    ensures n > 0 && After(sem, JmpVia(c), d, w, Run(sem, m, w, n))
  {
    hide Run, Branch, Match;
    NextAt(m, w, ToksOf(JmpVia(c), d), 0);
    NextAt(m, w, ToksOf(JmpVia(c), d), 1);
    var w1 := At(w, 1, []).(pc := PcAt(sem, c, w.st));
    assert Step(sem, m, w) == w1;
    RunOne(sem, m, w1);
    Then(sem, m, w, 1);
    n := 2;
    BranchFrom(w, w1, d);
  }

  lemma JmpRuns(sem: Sem, m: Module, w: W, t: nat, d: nat) returns (n: nat)
    requires Next(m, w, ToksOf(Jmp(t), d)) && d < |w.cur.ctrl| && t < TWO32
    ensures n > 0 && After(sem, Jmp(t), d, w, Run(sem, m, w, n))
  {
    hide Run, Branch, Match;
    var toks := ToksOf(Jmp(t), d);
    NextAt(m, w, toks, 0);
    NextAt(m, w, toks, 1);
    NextAt(m, w, toks, 2);
    assert w == At(w, 0, []);
    SetsPc(sem, m, w, 0, t);
    var w1 := At(w, 2, []).(pc := t);
    RunOne(sem, m, w1);
    RunAdds(sem, m, w, 2, 1);
    n := 3;
    BranchFrom(w, w1, d);
  }

  /** The outcome of a comparison decides between the branch and the code behind it. */
  lemma CondBranches(sem: Sem, m: Module, w: W, c: int, d: nat)
    requires w.status == Going && w.cur.stk == [] && d < |w.cur.ctrl|
    requires var code, p := CodeOf(m, w.mode), w.cur.ip; p + 2 <= |code| && code[p] == Cond(c) && code[p + 1] == BrIf(d)
    ensures Run(sem, m, w, 2) == if sem.cond(c, w.st) then Branch(w, d) else At(w, 2, [])
  {
    var w2 := At(w, 1, [if sem.cond(c, w.st) then 1 else 0]);
    assert Step(sem, m, w) == w2;
    Then(sem, m, w2, 0);
    Then(sem, m, w, 1);
  }

  lemma JccRuns(sem: Sem, m: Module, w: W, c: int, t: nat, d: nat) returns (n: nat)
    requires Next(m, w, ToksOf(Jcc(c, t), d)) && d < |w.cur.ctrl| && t < TWO32
    ensures n > 0 && After(sem, Jcc(c, t), d, w, Run(sem, m, w, n))
  {
    hide Run, Step, Branch;
    var toks := ToksOf(Jcc(c, t), d);
    NextAt(m, w, toks, 0);
    NextAt(m, w, toks, 1);
    NextAt(m, w, toks, 2);
    NextAt(m, w, toks, 3);
    assert w == At(w, 0, []);
    SetsPc(sem, m, w, 0, t);
    var w1 := At(w, 2, []).(pc := t);
    CondBranches(sem, m, w1, c, d);
    RunAdds(sem, m, w, 2, 2);
    n := 4;
    BranchFrom(w, w1, d);
  }

  /** Only the control stack decides where a branch goes. */
  lemma BranchFrom(w: W, w1: W, d: nat)
    requires d < |w.cur.ctrl| && w1 == w.(pc := w1.pc, st := w1.st, cur := w1.cur) && w1.cur.ctrl == w.cur.ctrl
    ensures Branch(w1, d) == Branch(w.(pc := w1.pc, st := w1.st), d)
  {
  }

  /** Setting the link register to a constant. */
  lemma SetsLink(sem: Sem, m: Module, w: W, n: int)
    requires w.status == Going && w.cur.stk == []
    requires var code, p := CodeOf(m, w.mode), w.cur.ip;
      p + 2 <= |code| && code[p] == Const64(n) && code[p + 1] == SetLr
    ensures Run(sem, m, w, 2) == At(w, 2, []).(st := sem.link(n, w.st))
  {
    var w1 := At(w, 1, [n]);
    assert Step(sem, m, w) == w1;
    Then(sem, m, w1, 0);
    Then(sem, m, w, 1);
  }

  lemma CallRuns(sem: Sem, m: Module, w: W, t: nat, back: nat, d: nat) returns (n: nat)
    requires Next(m, w, ToksOf(CallTo(t, back), d)) && d < |w.cur.ctrl| && t < TWO32
    ensures n > 0 && After(sem, CallTo(t, back), d, w, Run(sem, m, w, n))
  {
    hide Run, Branch, Match;
    var toks := ToksOf(CallTo(t, back), d);
    NextAt(m, w, toks, 0);
    NextAt(m, w, toks, 1);
    NextAt(m, w, toks, 2);
    NextAt(m, w, toks, 3);
    NextAt(m, w, toks, 4);
    var v := w.(st := sem.link(CODE_BASE + back, w.st));
    SetsLink(sem, m, w, CODE_BASE + back);
    SetsPc(sem, m, v, 2, t);
    RunAdds(sem, m, w, 2, 2);
    var w2 := At(v, 4, []).(pc := t);
    RunOne(sem, m, w2);
    RunAdds(sem, m, w, 4, 1);
    n := 5;
    BranchFrom(w, w2, d);
  }

  /** The target is worked out while the return address waits on the stack. */
  lemma SetsTarget(sem: Sem, m: Module, w: W, c: int, n: int)
    requires w.status == Going && w.cur.stk == []
    requires var code, p := CodeOf(m, w.mode), w.cur.ip;
      p + 3 <= |code| && code[p] == Const64(n) && code[p + 1] == PcFrom(c) && code[p + 2] == SetLr
    ensures Run(sem, m, w, 3) == At(w, 3, []).(pc := PcAt(sem, c, w.st), st := sem.link(n, w.st))
  {
    var w1, w2 := At(w, 1, [n]), At(w, 2, [n]).(pc := PcAt(sem, c, w.st));
    assert Step(sem, m, w) == w1;
    assert Step(sem, m, w1) == w2;
    Then(sem, m, w2, 0);
    Then(sem, m, w1, 1);
    Then(sem, m, w, 2);
  }

  lemma CallViaRuns(sem: Sem, m: Module, w: W, c: int, back: nat, d: nat) returns (n: nat)
    requires Next(m, w, ToksOf(CallVia(c, back), d)) && d < |w.cur.ctrl|
    ensures n > 0 && After(sem, CallVia(c, back), d, w, Run(sem, m, w, n))
  {
    hide Run, Branch, Match;
    var toks := ToksOf(CallVia(c, back), d);
    NextAt(m, w, toks, 0);
    NextAt(m, w, toks, 1);
    NextAt(m, w, toks, 2);
    NextAt(m, w, toks, 3);
    SetsTarget(sem, m, w, c, CODE_BASE + back);
    var w3 := At(w, 3, []).(pc := PcAt(sem, c, w.st), st := sem.link(CODE_BASE + back, w.st));
    RunOne(sem, m, w3);
    RunAdds(sem, m, w, 3, 1);
    n := 4;
    BranchFrom(w, w3, d);
  }

  /** A branch of the depth that was patched in leads to the dispatch loop of the active segment. */
  lemma BranchesBack(prog: Prog, segSize: nat, w: W, i: nat, stk: seq<int>, ip: nat)
    requires Sized(prog, segSize) && i < |prog|
    requires w.cur == Local(ip, CtrlOf(prog, segSize, i), stk)
    ensures var k := SegIdx(|prog|, segSize, i);
      && Depth(|prog|, segSize, i) < |w.cur.ctrl|
      && Branch(w, Depth(|prog|, segSize, i)) ==
           w.(cur := Local(1, Ctrl(SegTable(prog, segSize, k), SegCode(prog, segSize, k))[..1], []))
  {
    hide SegCount, SegLen, SegIdx, Slot, Ctrl, SegTable, SegCode, Branch;
    var k := SegIdx(|prog|, segSize, i);
    LoopDepth(w, SegTable(prog, segSize, k), SegCode(prog, segSize, k), Slot(|prog|, segSize, i));
  }

  lemma OpIsNext(prog: Prog, segSize: nat, w: W, i: nat, k: nat)
    requires Sized(prog, segSize) && AtOp(prog, segSize, Here(i, k), w) && k < |prog[i]|
    ensures Next(Linked(prog, segSize), w, ToksOf(prog[i][k], Depth(|prog|, segSize, i)))
    ensures w.cur == Local(IpOf(prog, segSize, i, k), CtrlOf(prog, segSize, i), [])
    ensures IpOf(prog, segSize, i, k + 1) == w.cur.ip + |ToksOf(prog[i][k], Depth(|prog|, segSize, i))|
  {
    hide SegCount, SegIdx, SegLen, Segment, Depth, IpOf, CtrlOf, Resume, Linked, ToksOf;
    OpTokens(prog, segSize, i, k);
    LinkedCode(prog, segSize, SegIdx(|prog|, segSize, i));
  }

  /** A branch taken from slice i is a dispatch. */
  lemma BranchTaken(sem: Sem, prog: Prog, segSize: nat, w: W, i: nat, pc: int, st: S) returns (n: nat, w1: W)
    requires Sized(prog, segSize) && i < |prog| && 0 <= pc < TWO32
    requires w.status == Going && w.mode == InSeg(SegIdx(|prog|, segSize, i))
    requires w.ret == Resume(prog, segSize, SegIdx(|prog|, segSize, i))
    requires w.cur == Local(w.cur.ip, CtrlOf(prog, segSize, i), [])
    ensures n > 0 && Reach(sem, prog, segSize, Branch(w.(pc := pc, st := st), Depth(|prog|, segSize, i)), n, w1)
    ensures Rel(prog, segSize, F(Goto(prog, pc), st), w1)
  {
    hide SegCount, SegIdx, SegLen, Segment, Depth, IpOf, CtrlOf, Resume, Linked, Ctrl, SegTable, SegCode, Reach, Rel,
      Branch;
    BranchesBack(prog, segSize, w.(pc := pc, st := st), i, [], w.cur.ip);
    n, w1 := Dispatches(sem, prog, segSize, Branch(w.(pc := pc, st := st), Depth(|prog|, segSize, i)),
      SegIdx(|prog|, segSize, i));
  }

  lemma AtOpFields(prog: Prog, segSize: nat, w: W, i: nat, k: nat)
    requires Sized(prog, segSize) && AtOp(prog, segSize, Here(i, k), w)
    ensures i < |prog| && k <= |prog[i]|
    ensures w.status == Going && w.mode == InSeg(SegIdx(|prog|, segSize, i))
    ensures w.ret == Resume(prog, segSize, SegIdx(|prog|, segSize, i))
    ensures w.cur == Local(IpOf(prog, segSize, i, k), CtrlOf(prog, segSize, i), [])
  {
    hide SegCount, SegIdx, SegLen, Depth, IpOf, CtrlOf, Resume;
  }

  lemma OpRunsHere(sem: Sem, prog: Prog, segSize: nat, i: nat, k: nat, w: W) returns (n: nat, w1: W)
    requires Sized(prog, segSize) && Targeted(prog) && AtOp(prog, segSize, Here(i, k), w) && k < |prog[i]|
    ensures n > 0 && Reach(sem, prog, segSize, w, n, w1)
    ensures After(sem, prog[i][k], Depth(|prog|, segSize, i), w, w1)
  {
    OpIsNext(prog, segSize, w, i, k);
    assert OpTargeted(prog[i][k], |prog|) && OpTargeted(prog[i][k], 0x8000_0000);
    BranchesBack(prog, segSize, w, i, [], w.cur.ip);
    hide SegCount, SegIdx, SegLen, Segment, Depth, IpOf, CtrlOf, Resume, Linked, Ctrl, SegTable, SegCode, Branch, Run,
      Next, AtOp, EffectOf, ToksOf;
    n := OpRuns(sem, Linked(prog, segSize), w, prog[i][k], Depth(|prog|, segSize, i));
    w1 := Run(sem, Linked(prog, segSize), w, n);
  }

  lemma OpMoves(sem: Sem, prog: Prog, segSize: nat, i: nat, k: nat, w: W) returns (n: nat, w2: W)
    requires Sized(prog, segSize) && Targeted(prog) && AtOp(prog, segSize, Here(i, k), w) && k < |prog[i]|
    ensures n > 0 && Reach(sem, prog, segSize, w, n, w2) && Moved(sem, prog, segSize, i, k, w, w2)
  {
    hide SegCount, SegIdx, SegLen, Segment, Depth, IpOf, CtrlOf, Resume, Branch, Next, AtOp, AtHub, EffectOf, ToksOf,
      Reach, Targeted, Rel;
    AtOpFields(prog, segSize, w, i, k);
    n, w2 := OpRunsHere(sem, prog, segSize, i, k, w);
    match EffectOf(sem, prog[i][k], w.st)
    case Go(pc, st) =>
      var w1 := w2;
      var b;
      b, w2 := BranchTaken(sem, prog, segSize, w, i, pc, st);
      Chain(sem, prog, segSize, w, n, w1, b, w2);
      n := n + b;
    case Stay(st) =>
      OpIsNext(prog, segSize, w, i, k);
      Advances(prog, segSize, w, i, k, w2);
  }

  predicate Moved(sem: Sem, prog: Prog, segSize: nat, i: nat, k: nat, w: W, w2: W)
    requires i < |prog| && k < |prog[i]|
  {
    match EffectOf(sem, prog[i][k], w.st)
    case Go(pc, st) => Rel(prog, segSize, F(Goto(prog, pc), st), w2)
    case Stay(st) => Rel(prog, segSize, F(Here(i, k + 1), st), w2)
  }

  lemma OpSimulated(sem: Sem, prog: Prog, segSize: nat, f: F, w: W) returns (n: nat, w2: W)
    requires Targeted(prog) && f.at.Here? && Rel(prog, segSize, f, w)
    requires InProg(prog, f.at) && f.at.k < |prog[f.at.slice]|
    ensures n > 0 && Reach(sem, prog, segSize, w, n, w2) && Rel(prog, segSize, RefStep(sem, prog, f), w2)
  {
    assert Sized(prog, segSize);
    hide AtOp, EffectOf, Reach, Targeted, AtHub;
    n, w2 := OpMoves(sem, prog, segSize, f.at.slice, f.at.k, w);
  }

  lemma Advances(prog: Prog, segSize: nat, w: W, i: nat, k: nat, w1: W)
    requires Sized(prog, segSize) && AtOp(prog, segSize, Here(i, k), w) && k < |prog[i]|
    requires w1 == w.(pc := w1.pc, st := w1.st, cur := w.cur.(ip := IpOf(prog, segSize, i, k + 1)))
    ensures Rel(prog, segSize, F(Here(i, k + 1), w1.st), w1)
  {
    hide SegCount, SegIdx, SegLen, Segment, Depth, IpOf, CtrlOf, Resume;
  }

  lemma EndOfSlice(prog: Prog, segSize: nat, i: nat, k: nat, j: nat)
    requires Sized(prog, segSize) && i < |prog| && k == SegIdx(|prog|, segSize, i) && j == Slot(|prog|, segSize, i)
    ensures var d, slices := SegTable(prog, segSize, k), SegCode(prog, segSize, k);
      && IpOf(prog, segSize, i, |prog[i]|) == EndPos(d, slices, j) + 1
           + |slices[j]| - (if Depth(|prog|, segSize, i) == 0 then 2 else 0)
      && CtrlOf(prog, segSize, i) == CtrlAt(d, slices, j)
  {
    SliceHolds(prog, segSize, i);
    assert prog[i][..|prog[i]|] == prog[i];
    hide SegCount, SegIdx, SegLen, SegTable, SegCode, Slot, Depth, EndPos, CtrlAt;
  }

  lemma StartOfSlice(prog: Prog, segSize: nat, i: nat, k: nat, j: nat)
    requires Sized(prog, segSize) && i < |prog| && k == SegIdx(|prog|, segSize, i) && j == Slot(|prog|, segSize, i)
    ensures var d, slices := SegTable(prog, segSize, k), SegCode(prog, segSize, k);
      IpOf(prog, segSize, i, 0) == EndPos(d, slices, j) + 1 && CtrlOf(prog, segSize, i) == CtrlAt(d, slices, j)
  {
    assert prog[i][..0] == [];
    hide SegCount, SegIdx, SegLen, SegTable, SegCode, Slot, Depth, EndPos, CtrlAt;
  }

  /** Running off the end of a slice inside its segment: the end of the next label's block. */
  lemma FallsThrough(sem: Sem, prog: Prog, segSize: nat, w: W, i: nat) returns (n: nat, w1: W)
    requires Sized(prog, segSize) && i < |prog| && AtOp(prog, segSize, Here(i, |prog[i]|), w)
    requires Depth(|prog|, segSize, i) > 0
    ensures n > 0 && Reach(sem, prog, segSize, w, n, w1)
    ensures i + 1 < |prog| && w1.st == w.st && AtOp(prog, segSize, Here(i + 1, 0), w1)
  {
    hide EndPos, Ctrl, CtrlAt, Build, Step;
    AtOpFields(prog, segSize, w, i, |prog[i]|);
    var k, j := SegIdx(|prog|, segSize, i), Slot(|prog|, segSize, i);
    NextSlot(|prog|, segSize, i);
    EndOfSlice(prog, segSize, i, k, j);
    StartOfSlice(prog, segSize, i + 1, k, j + 1);
    LinkedCode(prog, segSize, k);
    SegmentFlat(prog, segSize, k);
    var m, d, slices := Linked(prog, segSize), SegTable(prog, segSize, k), SegCode(prog, segSize, k);
    hide SegCount, SegIdx, SegLen, SegTable, SegCode, Slot, Depth, Resume, Build, EndPos, Ctrl, CtrlAt, Linked, Step,
      IpOf, CtrlOf;
    FallOut(sem, m, w, d, slices, [End], j);
    RunOne(sem, m, w);
    n, w1 := 1, Step(sem, m, w);
  }

  lemma NextSlot(n: nat, segSize: nat, i: nat)
    requires segSize > 0 && i < n && Depth(n, segSize, i) > 0
    ensures i + 1 < n && SegIdx(n, segSize, i + 1) == SegIdx(n, segSize, i)
    ensures Slot(n, segSize, i + 1) == Slot(n, segSize, i) + 1
  {
    SegOf(n, segSize, i);
    var k := i / segSize;
    SegBounds(n, segSize, k);
    DivIs(i + 1, segSize, k);
  }

  /** The end of a segment's last slice: what follows in the code. */
  lemma TailIsNext(prog: Prog, segSize: nat, w: W, i: nat, k: nat)
    requires Sized(prog, segSize) && i < |prog| && AtOp(prog, segSize, Here(i, |prog[i]|), w)
    requires Depth(|prog|, segSize, i) == 0 && k == SegIdx(|prog|, segSize, i)
    ensures Next(Linked(prog, segSize), w, [ConstI(i + 1), SetPc])
    ensures var d, slices := SegTable(prog, segSize, k), SegCode(prog, segSize, k);
      slices != [] && w.cur == Local(EndPos(d, slices, |slices|) - 2, CtrlAt(d, slices, |slices| - 1), [])
  {
    hide SegCount, SegIdx, SegLen, SegTable, SegCode, Slot, Depth, Resume, Build, EndPos, Ctrl, CtrlAt, Linked, IpOf,
      CtrlOf, SliceToks, AtOp;
    var d, slices, j := SegTable(prog, segSize, k), SegCode(prog, segSize, k), Slot(|prog|, segSize, i);
    AtOpFields(prog, segSize, w, i, |prog[i]|);
    EndOfSlice(prog, segSize, i, k, j);
    SliceHolds(prog, segSize, i);
    LinkedCode(prog, segSize, k);
    LastSlot(|prog|, segSize, i);
    SliceAt(d, slices, [End], j);
    Within(Segment(prog, segSize, k), slices[j], EndPos(d, slices, j) + 1, |slices[j]| - 2, [ConstI(i + 1), SetPc]);
  }

  /** The next label's index goes to pc, and loop and outer block are left. */
  lemma RunsOff(sem: Sem, prog: Prog, segSize: nat, w: W, i: nat, k: nat) returns (w3: W)
    requires Sized(prog, segSize) && i < |prog| && AtOp(prog, segSize, Here(i, |prog[i]|), w)
    requires Depth(|prog|, segSize, i) == 0
    requires k == SegIdx(|prog|, segSize, i)
    ensures Reach(sem, prog, segSize, w, 4, w3) && w3.pc == i + 1 && w3.st == w.st
    ensures InSegment(prog, segSize, w3, k, w3.cur.ip, [])
    ensures w3.cur.ip < |Segment(prog, segSize, k)| && Segment(prog, segSize, k)[w3.cur.ip] == End
  {
    hide SegCount, SegIdx, SegLen, SegTable, SegCode, Slot, Depth, Resume, Build, EndPos, Ctrl, CtrlAt, Linked, IpOf,
      CtrlOf, SliceToks, Step, Run, AtOp, Next;
    var d, slices := SegTable(prog, segSize, k), SegCode(prog, segSize, k);
    var m, code := Linked(prog, segSize), Segment(prog, segSize, k);
    AtOpFields(prog, segSize, w, i, |prog[i]|);
    TailIsNext(prog, segSize, w, i, k);
    SegmentFlat(prog, segSize, k);
    LinkedCode(prog, segSize, k);
    var w2 := StoresNext(sem, m, w, i + 1, code);
    FallOff(sem, m, w2, d, slices, [End]);
    var p := EndPos(d, slices, |slices|) + 2;
    w3 := w2.(cur := Local(p, [], []));
    TailAt(d, slices, [End]);
    assert code[p] == code[p..][0];
    Chain(sem, prog, segSize, w, 2, w2, 2, w3);
  }

  /** Running off the last slice of a segment: control goes back to the trampoline with the next label's index. */
  lemma LeavesSegment(sem: Sem, prog: Prog, segSize: nat, w: W, i: nat) returns (n: nat, w4: W)
    requires Sized(prog, segSize) && i < |prog| && AtOp(prog, segSize, Here(i, |prog[i]|), w)
    requires Depth(|prog|, segSize, i) == 0
    ensures n > 0 && Reach(sem, prog, segSize, w, n, w4) && AtHub(prog, segSize, w4, i + 1, w.st)
  {
    hide SegIdx, SegCount, Segment, InSegment, AtOp, AtHub, Run, Linked, Depth;
    var k := SegIdx(|prog|, segSize, i);
    var w3 := RunsOff(sem, prog, segSize, w, i, k);
    n := SegReturns(sem, prog, segSize, w3, k);
    w4 := Run(sem, Linked(prog, segSize), w3, n);
    Chain(sem, prog, segSize, w, 4, w3, n, w4);
    n := 4 + n;
  }

  lemma StoresNext(sem: Sem, m: Module, w: W, t: nat, code: seq<Tok>) returns (w2: W)
    requires CodeOf(m, w.mode) == code && t < TWO32
    requires Next(m, w, [ConstI(t), SetPc])
    ensures w2 == Run(sem, m, w, 2) == w.(pc := t, cur := w.cur.(ip := w.cur.ip + 2))
  {
    NextAt(m, w, [ConstI(t), SetPc], 0);
    NextAt(m, w, [ConstI(t), SetPc], 1);
    assert w == At(w, 0, []);
    SetsPc(sem, m, w, 0, t);
    w2 := Run(sem, m, w, 2);
  }

  lemma LastSlot(n: nat, segSize: nat, i: nat)
    requires segSize > 0 && i < n && Depth(n, segSize, i) == 0
    ensures Slot(n, segSize, i) == SegLen(n, segSize, SegIdx(n, segSize, i)) - 1
  {
  }

  /** Leaving a segment by its last label's end: to the next label, or off the end of the program. */
  lemma EndLeaves(sem: Sem, prog: Prog, segSize: nat, w: W, i: nat) returns (n: nat, w2: W)
    requires Sized(prog, segSize) && i < |prog| && AtOp(prog, segSize, Here(i, |prog[i]|), w)
    requires Depth(|prog|, segSize, i) == 0
    ensures n > 0 && Reach(sem, prog, segSize, w, n, w2) && Rel(prog, segSize, F(Goto(prog, i + 1), w.st), w2)
  {
    hide Reach, AtOp, AtHub, Depth;
    var w1;
    n, w1 := LeavesSegment(sem, prog, segSize, w, i);
    HubFields(prog, segSize, w1, i + 1, w.st);
    w2 := w1;
    if i + 1 < |prog| {
      var b;
      b, w2 := HubRoutes(sem, prog, segSize, w1);
      Chain(sem, prog, segSize, w, n, w1, b, w2);
      n := n + b;
    }
  }

  /** One step of the flat machine is one or more steps of the module. */
  lemma StepSimulated(sem: Sem, prog: Prog, segSize: nat, f: F, w: W) returns (n: nat, w1: W)
    requires Targeted(prog) && f.at.Here? && Rel(prog, segSize, f, w)
    ensures InProg(prog, f.at)
    ensures n > 0 && Reach(sem, prog, segSize, w, n, w1) && Rel(prog, segSize, RefStep(sem, prog, f), w1)
  {
    hide Reach, EffectOf, Targeted, AtHub, SegCount, SegLen, SegIdx, Slot, InSegment, IpOf, CtrlOf, Depth;
    var Here(i, k) := f.at;
    assert InProg(prog, f.at) && Sized(prog, segSize);
    hide AtOp;
    if k < |prog[i]| {
      n, w1 := OpSimulated(sem, prog, segSize, f, w);
    } else if Depth(|prog|, segSize, i) > 0 {
      n, w1 := FallsThrough(sem, prog, segSize, w, i);
    } else {
      n, w1 := EndLeaves(sem, prog, segSize, w, i);
    }
  }

  /** The module as it is started: the trampoline with pc 0. */
  function Boot(st: S): W {
    W(Going, 0, st, InTramp, Local(0, [], []), Local(0, [], []))
  }

  lemma Boots(sem: Sem, prog: Prog, segSize: nat, st: S) returns (n: nat, w1: W)
    requires Sized(prog, segSize)
    ensures Reach(sem, prog, segSize, Boot(st), n, w1) && Rel(prog, segSize, F(Here(0, 0), st), w1)
  {
    var count, m, w := SegCount(|prog|, segSize), Linked(prog, segSize), Boot(st);
    var td, ts := TrampDispatch(count, segSize), TrampSlices(count);
    var rest := [Unreachable, End];
    TrampFlat(count, segSize);
    hide SegCount, Build, EndPos, Ctrl, CtrlAt, AtOp, Run, TrampSlices, TrampDispatch;
    var w0 := w.(cur := Local(1, Ctrl(td, ts)[..1], []));
    OpensOuter(sem, m, w, td, ts, rest);
    RunOne(sem, m, w);
    var b;
    b, w1 := HubRoutes(sem, prog, segSize, w0);
    Chain(sem, prog, segSize, w, 1, w0, b, w1);
    n := 1 + b;
  }

  lemma Stays(sem: Sem, prog: Prog, segSize: nat, f: F, w: W)
    requires Rel(prog, segSize, f, w)
    ensures Reach(sem, prog, segSize, w, 0, w)
  {
  }

  /** The segmented module refines the flat machine, over every run: from any related pair, after n flat steps the
      module, having taken at least n steps, is related again.  `Lost` is where a run ends that leaves the program. */
  lemma {:induction false} RunSimulated(sem: Sem, prog: Prog, segSize: nat, f: F, w: W, n: nat) returns (k: nat, w1: W)
    requires Targeted(prog) && Rel(prog, segSize, f, w)
    ensures Reach(sem, prog, segSize, w, k, w1) && Rel(prog, segSize, RefRun(sem, prog, f, n), w1)
    ensures RefRun(sem, prog, f, n).at.Here? ==> k >= n
    decreases n
  {
    hide Rel, Reach, RefStep, Targeted;
    if n == 0 || f.at.Lost? {
      Stays(sem, prog, segSize, f, w);
      k, w1 := 0, w;
    } else {
      var a, w2 := StepSimulated(sem, prog, segSize, f, w);
      var b;
      b, w1 := RunSimulated(sem, prog, segSize, RefStep(sem, prog, f), w2, n - 1);
      Chain(sem, prog, segSize, w, a, w2, b, w1);
      k := a + b;
    }
  }

  /** From power-on: the module does what the flat machine does from label 0, for every number of labels and every
      segment size. */
  lemma ModuleRefines(sem: Sem, prog: Prog, segSize: nat, st: S, n: nat) returns (k: nat, w: W)
    requires Sized(prog, segSize) && Targeted(prog)
    ensures w == Run(sem, Linked(prog, segSize), Boot(st), k)
    ensures Rel(prog, segSize, RefRun(sem, prog, F(Here(0, 0), st), n), w)
    ensures RefRun(sem, prog, F(Here(0, 0), st), n).at.Here? ==> k >= n
  {
    hide Rel, Targeted, RefRun, Run, Linked;
    var a, w0 := Boots(sem, prog, segSize, st);
    var b;
    b, w := RunSimulated(sem, prog, segSize, F(Here(0, 0), st), w0, n);
    Chain(sem, prog, segSize, Boot(st), a, w0, b, w);
    k := a + b;
  }

  // ---------- leaving the program ----------

  /** Whether the trampoline finds no segment for a pc. */
  predicate NoSegment(n: nat, segSize: nat, pc: int)
    requires segSize > 0
  {
    pc < 0 || pc / segSize >= SegCount(n, segSize)
  }

  /** A pc behind the last label that still falls into the last segment's range makes the module go round for ever: it
      is back at the trampoline, with the same pc and the same registers and memory. */
  lemma GoesRound(sem: Sem, prog: Prog, segSize: nat, w: W) returns (n: nat, w2: W)
    requires AtHub(prog, segSize, w, w.pc, w.st) && |prog| <= w.pc < TWO32 && !NoSegment(|prog|, segSize, w.pc)
    ensures n > 0 && Reach(sem, prog, segSize, w, n, w2) && AtHub(prog, segSize, w2, w.pc, w.st)
  {
    var k := SegNo(w.pc, segSize);
    if Owns(|prog|, segSize, k, w.pc) { OwnsLabels(|prog|, segSize, k, w.pc); }
    hide SegCount, SegLen, SegCode, SegTable, Linked, Resume, AtOp, AtHub, Run, Owns, SegNo, Reach, AtEntry, AtLoop,
      Ctrl;
    var a, w1 := HubEnters(sem, prog, segSize, w, k);
    n, w2 := SegRoutes(sem, prog, segSize, w1, k);
    Chain(sem, prog, segSize, w, a, w1, n, w2);
    n := a + n;
  }

  /** A run that has stopped stays stopped. */
  lemma NeverResumes(sem: Sem, m: Module, w: W, i: nat, j: nat)
    requires i <= j && Run(sem, m, w, j).status == Going
    ensures Run(sem, m, w, i).status == Going
  {
    RunAdds(sem, m, w, i, j - i);
  }

  lemma {:induction false} GoesRoundForEver(sem: Sem, prog: Prog, segSize: nat, w: W, n: nat) returns (k: nat, w1: W)
    requires AtHub(prog, segSize, w, w.pc, w.st) && |prog| <= w.pc < TWO32 && !NoSegment(|prog|, segSize, w.pc)
    ensures k >= n && Reach(sem, prog, segSize, w, k, w1) && AtHub(prog, segSize, w1, w.pc, w.st)
    decreases n
  {
    if n == 0 {
      k, w1 := 0, w;
    } else {
      var a, w2 := GoesRound(sem, prog, segSize, w);
      HubFields(prog, segSize, w2, w.pc, w.st);
      hide AtHub, Reach, NoSegment;
      k, w1 := GoesRoundForEver(sem, prog, segSize, w2, n - 1);
      Chain(sem, prog, segSize, w, a, w2, k, w1);
      k := a + k;
    }
  }

  /** What becomes of a pc that is no label: the module traps if the pc has no segment, and otherwise never stops. */
  lemma LostExactly(sem: Sem, prog: Prog, segSize: nat, w: W, n: nat)
    requires AtHub(prog, segSize, w, w.pc, w.st) && |prog| <= w.pc < TWO32
    ensures NoSegment(|prog|, segSize, w.pc) ==>
      exists k :: k >= n && Run(sem, Linked(prog, segSize), w, k).status == Trapped
    ensures !NoSegment(|prog|, segSize, w.pc) ==> Run(sem, Linked(prog, segSize), w, n).status == Going
  {
    var m := Linked(prog, segSize);
    if NoSegment(|prog|, segSize, w.pc) {
      var k := HubTraps(sem, prog, segSize, w);
      RunAdds(sem, m, w, k, n);
      Stuck(sem, m, Run(sem, m, w, k), n);
      assert Run(sem, m, w, k + n).status == Trapped;
    } else {
      var k, w1 := GoesRoundForEver(sem, prog, segSize, w, n);
      NeverResumes(sem, m, w, n, k);
    }
  }

  /** Running off the last label traps exactly when the segment size divides the number of labels. */
  lemma OffTheEnd(n: nat, segSize: nat)
    requires segSize > 0 && n > 0
    ensures NoSegment(n, segSize, n) <==> n % segSize == 0
  {
    var c, q := SegCount(n, segSize), n / segSize;
    assert n == q * segSize + n % segSize;
    if n % segSize == 0 {
      DivIs(n + segSize - 1, segSize, q);
    } else {
      assert (q + 1) * segSize == q * segSize + segSize;
      DivIs(n + segSize - 1, segSize, q + 1);
    }
  }

  /** As long as the flat machine stays in its program the module does not stop. */
  lemma NeverTraps(sem: Sem, prog: Prog, segSize: nat, st: S, n: nat)
    requires Sized(prog, segSize) && Targeted(prog)
    requires RefRun(sem, prog, F(Here(0, 0), st), n).at.Here?
    ensures Run(sem, Linked(prog, segSize), Boot(st), n).status == Going
  {
    var k, w := ModuleRefines(sem, prog, segSize, st, n);
    assert w.status == Going;
    NeverResumes(sem, Linked(prog, segSize), Boot(st), n, k);
  }

  // ---------- pc and the link register ----------

  /** The pc an untaken branch has left behind plays no part: with any other value there the module goes on to do the
      same. */
  lemma PcIsNotObserved(sem: Sem, prog: Prog, segSize: nat, f: F, w: W, pc: int, n: nat)
      returns (k: nat, w1: W, k': nat, w2: W)
    requires Targeted(prog) && Rel(prog, segSize, f, w) && f.at.Here?
    ensures Reach(sem, prog, segSize, w, k, w1) && Reach(sem, prog, segSize, w.(pc := pc), k', w2)
    ensures Rel(prog, segSize, RefRun(sem, prog, f, n), w1) && Rel(prog, segSize, RefRun(sem, prog, f, n), w2)
  {
    assert Rel(prog, segSize, f, w.(pc := pc)) by {
      hide SegCount, SegIdx, IpOf, CtrlOf, Resume;
    }
    hide Rel, Targeted, RefRun;
    k, w1 := RunSimulated(sem, prog, segSize, f, w, n);
    k', w2 := RunSimulated(sem, prog, segSize, f, w.(pc := pc), n);
  }

  /** A call, also one through the link register itself, links the label it names, and a return through an intact link
      register comes back there. */
  lemma CallComesBack(sem: Sem, prog: Prog, f: F, g: F, ret: int)
    requires InProg(prog, f.at) && f.at.k < |prog[f.at.slice]| && |prog| < TWO32 && Targeted(prog)
    requires InProg(prog, g.at) && g.at.k < |prog[g.at.slice]| && prog[g.at.slice][g.at.k] == JmpVia(ret)
    requires forall a, st :: sem.target(ret, sem.link(a, st)) == a
    requires sem.target(ret, g.st) == sem.target(ret, RefStep(sem, prog, f).st)
    ensures match prog[f.at.slice][f.at.k]
      case CallTo(t, back) => RefStep(sem, prog, f).at == Here(t, 0) && RefStep(sem, prog, g).at == Here(back, 0)
      case CallVia(c, back) =>
        RefStep(sem, prog, f).at == Goto(prog, PcAt(sem, c, f.st)) && RefStep(sem, prog, g).at == Here(back, 0)
      case _ => true
  {
    assert OpTargeted(prog[f.at.slice][f.at.k], |prog|);
  }
}
