/** Direct eval (engine/compile.js): the fragment gets its own copy, or a box, of every variable it captures, and writes
    the copies back when it is done.  The frame cells come from the compilation context (compiler/core/context.js). */
module EvalCapture {
  import opened Basics
  import opened Context
  import opened Scoping
  import opened ClosureNames
  import opened BlockScope
  import opened VRegs

  // ---------- the machine ----------

  datatype Val = Num(n: int) | Frame(f: nat) | Box(b: nat)
  datatype Loc = Slot(frame: nat, off: int) | Cell(b: nat)

  /** `boxes` is the number of the next box to be handed out. */
  datatype M = M(regs: map<int, Val>, mem: map<Loc, Val>, stack: seq<Val>, boxes: nat, ok: bool)

  datatype Instr =
    | Load(d: Reg, base: Reg, off: int)
    | Store(base: Reg, off: int, s: Reg)
    | Mov(d: Reg, s: Reg)
    | Push(r: Reg)
    | Pop(r: Reg)
    | BoxAlloc

  function Get<K>(m: map<K, Val>, k: K): Val {
    if k in m then m[k] else Num(0)
  }

  function Place(base: Val, off: int): (l: Loc)
  {
    match base
    case Frame(f) => Slot(f, off)
    case Box(b) => Cell(b)
    case Num(_) => Slot(0, 0)
  }

  predicate Points(base: Val, off: int) {
    base.Frame? || (base.Box? && off == 0)
  }

  /** What a call may leave in the registers: anything, but for the frame pointer and the result. */
  function AfterAlloc(arch: Arch, junk: map<int, Val>, m: M): M {
    m.(regs := junk[Phys(arch, FP) := Get(m.regs, Phys(arch, FP))][Phys(arch, RET) := Box(m.boxes)],
      boxes := m.boxes + 1)
  }

  function Step(arch: Arch, junk: map<int, Val>, i: Instr, m: M): M {
    match i
    case Load(d, base, off) =>
      var b := Get(m.regs, Phys(arch, base));
      if Points(b, off) then m.(regs := m.regs[Phys(arch, d) := Get(m.mem, Place(b, off))]) else m.(ok := false)
    case Store(base, off, s) =>
      var b := Get(m.regs, Phys(arch, base));
      if Points(b, off) then m.(mem := m.mem[Place(b, off) := Get(m.regs, Phys(arch, s))]) else m.(ok := false)
    case Mov(d, s) => m.(regs := m.regs[Phys(arch, d) := Get(m.regs, Phys(arch, s))])
    case Push(r) => m.(stack := m.stack + [Get(m.regs, Phys(arch, r))])
    case Pop(r) =>
      if m.stack == [] then m.(ok := false)
      else m.(regs := m.regs[Phys(arch, r) := m.stack[|m.stack| - 1]], stack := m.stack[..|m.stack| - 1])
    case BoxAlloc => AfterAlloc(arch, junk, m)
  }

  function Run(arch: Arch, junk: map<int, Val>, code: seq<Instr>, m: M): M
    decreases |code|
  {
    if code == [] || !m.ok then m else Run(arch, junk, code[1..], Step(arch, junk, code[0], m))
  }

  lemma {:induction false} RunCat(arch: Arch, junk: map<int, Val>, a: seq<Instr>, b: seq<Instr>, m: M)
    ensures Run(arch, junk, a + b, m) == Run(arch, junk, b, Run(arch, junk, a, m))
    decreases |a|
  {
    if a == [] {
      assert a + b == b;
    } else if m.ok {
      assert (a + b)[1..] == a[1..] + b;
      RunCat(arch, junk, a[1..], b, Step(arch, junk, a[0], m));
    } else {
      assert Run(arch, junk, b, m) == m;
    }
  }

  // ---------- the code for the captures ----------

  /** A captured variable: its cell in the caller's frame, and whether that holds a box already. */
  datatype Capture = Capture(name: string, off: int, callerBoxed: bool)

  /** `shared` reuses the caller's box; `boxed` without it has a box of its own. */
  datatype CapSlot = CapSlot(off: int, slot: int, boxed: bool, shared: bool)

  function SlotOf(c: Capture, slot: int, closures: set<string>): CapSlot {
    CapSlot(c.off, slot, c.callerBoxed || c.name in closures, c.callerBoxed)
  }

  function CopyIn(fp: int, c: CapSlot): seq<Instr> {
    if c.shared || !c.boxed then [Load(V1, FP, fp), Load(V0, V1, c.off), Store(FP, c.slot, V0)]
    else [Load(V1, FP, fp), Load(V0, V1, c.off), Push(V0), BoxAlloc, Pop(V1), Store(RET, 0, V1), Store(FP, c.slot, RET)]
  }

  function CopyOut(fp: int, c: CapSlot): seq<Instr> {
    if c.shared then []
    else [Load(V1, FP, fp), Load(V0, FP, c.slot)] + (if c.boxed then [Load(V0, V0, 0)] else []) + [Store(V1, c.off, V0)]
  }

  function CopyIns(fp: int, slots: seq<CapSlot>): seq<Instr> {
    if slots == [] then [] else CopyIns(fp, slots[..|slots| - 1]) + CopyIn(fp, slots[|slots| - 1])
  }

  function CopyOuts(fp: int, slots: seq<CapSlot>): seq<Instr> {
    if slots == [] then [] else CopyOuts(fp, slots[..|slots| - 1]) + CopyOut(fp, slots[|slots| - 1])
  }

  lemma OneMore(fp: int, slots: seq<CapSlot>, c: CapSlot)
    ensures CopyIns(fp, slots + [c]) == CopyIns(fp, slots) + CopyIn(fp, c)
    ensures CopyOuts(fp, slots + [c]) == CopyOuts(fp, slots) + CopyOut(fp, c)
  {
    assert (slots + [c])[..|slots|] == slots;
  }

  lemma NoneYet(fp: int)
    ensures CopyIns(fp, []) == [] && CopyOuts(fp, []) == []
  {
  }

  /** The slots of a layout: the caller's frame pointer is kept in the first cell, the captures in the next ones. */
  function SlotsOf(captures: seq<Capture>, closures: set<string>): (s: seq<CapSlot>)
    ensures |s| == |captures|
  {
    seq(|captures|, i requires 0 <= i < |captures| => SlotOf(captures[i], CellAt(1 + i), closures))
  }

  function Entry(slots: seq<CapSlot>): seq<Instr> {
    [Store(FP, CellAt(0), A0)] + CopyIns(CellAt(0), slots)
  }

  function Exit(slots: seq<CapSlot>): seq<Instr> {
    [Mov(V3, RET)] + CopyOuts(CellAt(0), slots) + [Mov(RET, V3)]
  }

  /** The names the fragment treats as boxed. */
  function BoxedNames(captures: seq<Capture>, closures: set<string>, n: nat): set<string>
    requires n <= |captures|
  {
    if n == 0 then {}
    else
      var c := captures[n - 1];
      BoxedNames(captures, closures, n - 1) + if c.callerBoxed || c.name in closures then {c.name} else {}
  }

  lemma NoNames(captures: seq<Capture>, closures: set<string>)
    ensures BoxedNames(captures, closures, 0) == {}
  {
  }

  /** The part of compileFragment that emits this. */
  class FragmentCompiler {
    var code: seq<Instr>
    var stackOffset: nat
    var capSlots: seq<CapSlot>
    var boxedVars: set<string>

    constructor ()
      ensures code == [] && stackOffset == 0 && capSlots == [] && boxedVars == {}
    {
      code, stackOffset, capSlots, boxedVars := [], 0, [], {};
    }

    method AllocLocal() returns (off: int)
      requires stackOffset % 8 == 0
      modifies this`stackOffset
      ensures stackOffset == old(stackOffset) + 8 && off == CellAt(old(stackOffset) / 8)
    {
      stackOffset := stackOffset + 8;
      off := -CALLEE_SAVED_AREA - stackOffset;
    }

    /** Copy-in for a layout; `closures` are the names that closures of the fragment use. */
    method EmitEntry(captures: seq<Capture>, closures: set<string>)
      requires stackOffset == 0 && capSlots == [] && boxedVars == {}
      modifies this
      ensures capSlots == SlotsOf(captures, closures) && code == old(code) + Entry(capSlots)
      ensures boxedVars == BoxedNames(captures, closures, |captures|)
    {
      hide CopyIn, CopyIns, SlotOf, BoxedNames;
      assert BoxedNames(captures, closures, 0) == {} by { NoNames(captures, closures); }
      var fpSlot := AllocLocal();
      assert CopyIns(fpSlot, []) == [] by { NoneYet(fpSlot); }
      ghost var start, first := code, [Store(FP, fpSlot, A0)];
      code := code + [Store(FP, fpSlot, A0)];
      var i := 0;
      while i < |captures|
        invariant i <= |captures| && stackOffset == 8 * (1 + i) && capSlots == SlotsOf(captures, closures)[..i]
        invariant code == start + (first + CopyIns(fpSlot, capSlots))
        invariant boxedVars == BoxedNames(captures, closures, i)
      {
        Regroup(start, first, CopyIns(fpSlot, capSlots), CopyIn(fpSlot, SlotOf(captures[i], CellAt(1 + i), closures)));
        OneMore(fpSlot, capSlots, SlotOf(captures[i], CellAt(1 + i), closures));
        EmitCapture(captures, closures, i, fpSlot);
        i := i + 1;
      }
    }

    method EmitCapture(captures: seq<Capture>, closures: set<string>, i: nat, fpSlot: int)
      requires i < |captures| && stackOffset == 8 * (1 + i) && capSlots == SlotsOf(captures, closures)[..i]
      requires boxedVars == BoxedNames(captures, closures, i)
      modifies this
      ensures stackOffset == 8 * (2 + i) && capSlots == SlotsOf(captures, closures)[..i + 1]
      ensures capSlots == old(capSlots) + [SlotOf(captures[i], CellAt(1 + i), closures)]
      ensures boxedVars == BoxedNames(captures, closures, i + 1)
      ensures code == old(code) + CopyIn(fpSlot, SlotOf(captures[i], CellAt(1 + i), closures))
    {
      hide CopyIn;
      var slot := AllocLocal();
      var c := SlotOf(captures[i], slot, closures);
      capSlots := capSlots + [c];
      code := code + CopyIn(fpSlot, c);
      if c.boxed { boxedVars := boxedVars + {captures[i].name}; }
    }

    method EmitExit()
      modifies this`code
      ensures code == old(code) + Exit(capSlots)
    {
      hide CopyOut, CopyOuts;
      NoneYet(CellAt(0));
      ghost var start, first := code, [Mov(V3, RET)];
      code := code + [Mov(V3, RET)];
      var i := 0;
      while i < |capSlots|
        invariant i <= |capSlots| && code == start + (first + CopyOuts(CellAt(0), capSlots[..i]))
      {
        OneMore(CellAt(0), capSlots[..i], capSlots[i]);
        assert capSlots[..i + 1] == capSlots[..i] + [capSlots[i]];
        Regroup(start, first, CopyOuts(CellAt(0), capSlots[..i]), CopyOut(CellAt(0), capSlots[i]));
        code := code + CopyOut(CellAt(0), capSlots[i]);
        i := i + 1;
      }
      assert capSlots[..i] == capSlots;
      Regroup(start, first, CopyOuts(CellAt(0), capSlots), [Mov(RET, V3)]);
      code := code + [Mov(RET, V3)];
    }
  }

  // ---------- what copy-in does ----------

  const CALLER: nat := 0
  const FRAGMENT: nat := 1

  function CallerSlot(m: M, c: CapSlot): Val { Get(m.mem, Slot(CALLER, c.off)) }
  function OwnSlot(m: M, c: CapSlot): Val { Get(m.mem, Slot(FRAGMENT, c.slot)) }

  /** The cells of the fragment and of the caller are distinct. */
  predicate Laid(fp: int, slots: seq<CapSlot>) {
    && (forall i :: 0 <= i < |slots| ==> slots[i].slot != fp && (slots[i].shared ==> slots[i].boxed))
    && (forall i, j :: 0 <= i < j < |slots| ==> slots[i].slot != slots[j].slot && slots[i].off != slots[j].off)
  }

  /** The fragment is running: its frame pointer, and the caller's kept in its first cell. */
  predicate InFragment(arch: Arch, fp: int, m: M) {
    m.ok && Get(m.regs, Phys(arch, FP)) == Frame(FRAGMENT) && Get(m.mem, Slot(FRAGMENT, fp)) == Frame(CALLER)
  }

  predicate OwnBox(c: CapSlot) { c.boxed && !c.shared }

  lemma RunTwo(arch: Arch, junk: map<int, Val>, i: Instr, j: Instr, m: M)
    requires m.ok && Step(arch, junk, i, m).ok
    ensures Run(arch, junk, [i, j], m) == Step(arch, junk, j, Step(arch, junk, i, m))
  {
    hide Step;
    var m1 := Step(arch, junk, i, m);
    assert [i, j][1..] == [j] && [j][1..] == [];
    assert Run(arch, junk, [], Step(arch, junk, j, m1)) == Step(arch, junk, j, m1);
    assert Run(arch, junk, [j], m1) == Step(arch, junk, j, m1);
  }

  lemma RunThree(arch: Arch, junk: map<int, Val>, i: Instr, j: Instr, k: Instr, m: M)
    requires m.ok && Step(arch, junk, i, m).ok && Step(arch, junk, j, Step(arch, junk, i, m)).ok
    ensures Run(arch, junk, [i, j, k], m) == Step(arch, junk, k, Step(arch, junk, j, Step(arch, junk, i, m)))
  {
    hide Step;
    assert [i, j, k][1..] == [j, k];
    RunTwo(arch, junk, j, k, Step(arch, junk, i, m));
  }

  lemma CopyPlain(arch: Arch, junk: map<int, Val>, fp: int, c: CapSlot, m: M)
    requires InFragment(arch, fp, m) && !OwnBox(c) && c.slot != fp && (c.shared ==> c.boxed)
    ensures var t := Run(arch, junk, CopyIn(fp, c), m);
      InFragment(arch, fp, t) && t.stack == m.stack && t.boxes == m.boxes
        && t.mem == m.mem[Slot(FRAGMENT, c.slot) := CallerSlot(m, c)]
  {
    var i, j, k := Load(V1, FP, fp), Load(V0, V1, c.off), Store(FP, c.slot, V0);
    var m1 := Step(arch, junk, i, m);
    assert m1.ok && Get(m1.regs, Phys(arch, V1)) == Frame(CALLER) && Get(m1.regs, Phys(arch, FP)) == Frame(FRAGMENT);
    var m2 := Step(arch, junk, j, m1);
    assert m2.ok && Get(m2.regs, Phys(arch, V0)) == CallerSlot(m, c) && Get(m2.regs, Phys(arch, FP)) == Frame(FRAGMENT);
    RunThree(arch, junk, i, j, k, m);
  }

  /** From the caller's cell into V0. */
  lemma LoadsCaller(arch: Arch, junk: map<int, Val>, fp: int, c: CapSlot, m: M) returns (t: M)
    requires InFragment(arch, fp, m)
    ensures t == Run(arch, junk, [Load(V1, FP, fp), Load(V0, V1, c.off)], m)
    ensures InFragment(arch, fp, t) && Get(t.regs, Phys(arch, V0)) == CallerSlot(m, c) && t == m.(regs := t.regs)
  {
    var m1 := Step(arch, junk, Load(V1, FP, fp), m);
    assert m1.ok && Get(m1.regs, Phys(arch, V1)) == Frame(CALLER) && Get(m1.regs, Phys(arch, FP)) == Frame(FRAGMENT);
    RunTwo(arch, junk, Load(V1, FP, fp), Load(V0, V1, c.off), m);
    t := Step(arch, junk, Load(V0, V1, c.off), m1);
  }

  /** A new box; the value waits on the stack. */
  lemma MakesBox(arch: Arch, junk: map<int, Val>, fp: int, m: M, v: Val) returns (t: M)
    requires InFragment(arch, fp, m) && Get(m.regs, Phys(arch, V0)) == v
    ensures t == Run(arch, junk, [Push(V0), BoxAlloc], m)
    ensures InFragment(arch, fp, t) && Get(t.regs, Phys(arch, RET)) == Box(m.boxes)
    ensures t == m.(regs := t.regs, stack := m.stack + [v], boxes := m.boxes + 1)
  {
    RunTwo(arch, junk, Push(V0), BoxAlloc, m);
    t := Step(arch, junk, BoxAlloc, Step(arch, junk, Push(V0), m));
  }

  lemma CopyBoxed(arch: Arch, junk: map<int, Val>, fp: int, c: CapSlot, m: M)
    requires InFragment(arch, fp, m) && OwnBox(c) && c.slot != fp
    ensures var t := Run(arch, junk, CopyIn(fp, c), m);
      InFragment(arch, fp, t) && t.stack == m.stack && t.boxes == m.boxes + 1
      && t.mem == m.mem[Cell(m.boxes) := CallerSlot(m, c)][Slot(FRAGMENT, c.slot) := Box(m.boxes)]
  {
    var c1, c2, c3 := [Load(V1, FP, fp), Load(V0, V1, c.off)], [Push(V0), BoxAlloc],
      [Pop(V1), Store(RET, 0, V1), Store(FP, c.slot, RET)];
    assert CopyIn(fp, c) == c1 + (c2 + c3);
    hide CopyIn, Run, Step, Phys;
    var v := CallerSlot(m, c);
    var m1 := LoadsCaller(arch, junk, fp, c, m);
    var m2 := MakesBox(arch, junk, fp, m1, v);
    RunCat(arch, junk, c1, c2 + c3, m);
    RunCat(arch, junk, c2, c3, m1);
    StoreBoxed(arch, junk, c, m2, m.stack, v, m.boxes);
  }

  lemma StoreBoxed(arch: Arch, junk: map<int, Val>, c: CapSlot, m: M, stack: seq<Val>, v: Val, b: nat)
    requires m.ok && m.stack == stack + [v] && Get(m.regs, Phys(arch, RET)) == Box(b)
    requires Get(m.regs, Phys(arch, FP)) == Frame(FRAGMENT)
    ensures var t := Run(arch, junk, [Pop(V1), Store(RET, 0, V1), Store(FP, c.slot, RET)], m);
      t.ok && t.stack == stack && t.boxes == m.boxes && Get(t.regs, Phys(arch, FP)) == Frame(FRAGMENT)
      && t.mem == m.mem[Cell(b) := v][Slot(FRAGMENT, c.slot) := Box(b)]
  {
    var m1 := Step(arch, junk, Pop(V1), m);
    assert m.stack[..|m.stack| - 1] == stack;
    assert m1.ok && Get(m1.regs, Phys(arch, V1)) == v && Get(m1.regs, Phys(arch, RET)) == Box(b)
      && Get(m1.regs, Phys(arch, FP)) == Frame(FRAGMENT);
    RunThree(arch, junk, Pop(V1), Store(RET, 0, V1), Store(FP, c.slot, RET), m);
  }

  predicate HasCopy(m0: M, m: M, c: CapSlot) {
    if OwnBox(c) then
      var p := OwnSlot(m, c);
      p.Box? && m0.boxes <= p.b < m.boxes && Get(m.mem, Cell(p.b)) == CallerSlot(m0, c)
    else OwnSlot(m, c) == CallerSlot(m0, c)
  }

  ghost predicate SameCaller(m0: M, m: M) {
    && (forall off :: Get(m.mem, Slot(CALLER, off)) == Get(m0.mem, Slot(CALLER, off)))
    && (forall b :: 0 <= b < m0.boxes ==> Get(m.mem, Cell(b)) == Get(m0.mem, Cell(b)))
  }

  predicate OwnApart(m: M, slots: seq<CapSlot>) {
    forall i, j :: 0 <= i < j < |slots| && OwnBox(slots[i]) && OwnBox(slots[j]) ==>
      OwnSlot(m, slots[i]) != OwnSlot(m, slots[j])
  }

  /** Every capture so far has its copy: a value, a new box with the value, or the caller's box. */
  ghost predicate CopiedIn(arch: Arch, fp: int, m0: M, m: M, slots: seq<CapSlot>) {
    && InFragment(arch, fp, m) && m.stack == m0.stack && m0.boxes <= m.boxes && SameCaller(m0, m)
    && (forall i :: 0 <= i < |slots| ==> HasCopy(m0, m, slots[i])) && OwnApart(m, slots)
  }

  /** One more copy, given what the code for it has done to the memory. */
  lemma OneMoreCopy(arch: Arch, fp: int, m0: M, m: M, t: M, slots: seq<CapSlot>, c: CapSlot)
    requires CopiedIn(arch, fp, m0, m, slots) && Laid(fp, slots + [c]) && InFragment(arch, fp, t) && t.stack == m.stack
    requires if OwnBox(c) then
        t.boxes == m.boxes + 1
          && t.mem == m.mem[Cell(m.boxes) := CallerSlot(m, c)][Slot(FRAGMENT, c.slot) := Box(m.boxes)]
      else t.boxes == m.boxes && t.mem == m.mem[Slot(FRAGMENT, c.slot) := CallerSlot(m, c)]
    ensures CopiedIn(arch, fp, m0, t, slots + [c])
  {
    hide Phys, InFragment;
    var all := slots + [c];
    assert all[|slots|] == c;
    assert forall i :: 0 <= i < |slots| ==> all[i] == slots[i] && slots[i].slot != c.slot;
    forall i | 0 <= i < |slots| ensures HasCopy(m0, t, slots[i]) && OwnSlot(t, slots[i]) == OwnSlot(m, slots[i]) {
      assert HasCopy(m0, m, slots[i]);
    }
    forall i | 0 <= i < |slots| && OwnBox(slots[i]) && OwnBox(c) ensures OwnSlot(t, slots[i]) != OwnSlot(t, c) {
      assert HasCopy(m0, m, slots[i]);
    }
  }

  lemma CopiesOne(arch: Arch, junk: map<int, Val>, fp: int, m0: M, m: M, slots: seq<CapSlot>, c: CapSlot)
    requires CopiedIn(arch, fp, m0, m, slots) && Laid(fp, slots + [c])
    ensures CopiedIn(arch, fp, m0, Run(arch, junk, CopyIn(fp, c), m), slots + [c])
  {
    assert (slots + [c])[|slots|] == c;
    if OwnBox(c) { CopyBoxed(arch, junk, fp, c, m); } else { CopyPlain(arch, junk, fp, c, m); }
    hide Run, CopyIn, Phys, Step, CopiedIn, InFragment, Laid;
    OneMoreCopy(arch, fp, m0, m, Run(arch, junk, CopyIn(fp, c), m), slots, c);
  }

  lemma {:induction false} CopiesAll(arch: Arch, junk: map<int, Val>, fp: int, m: M, slots: seq<CapSlot>)
    requires InFragment(arch, fp, m) && Laid(fp, slots)
    ensures CopiedIn(arch, fp, m, Run(arch, junk, CopyIns(fp, slots), m), slots)
    decreases |slots|
  {
    if slots != [] {
      var k := |slots| - 1;
      assert slots == slots[..k] + [slots[k]];
      hide CopyIn, CopiedIn;
      CopiesAll(arch, junk, fp, m, slots[..k]);
      RunCat(arch, junk, CopyIns(fp, slots[..k]), CopyIn(fp, slots[k]), m);
      CopiesOne(arch, junk, fp, m, Run(arch, junk, CopyIns(fp, slots[..k]), m), slots[..k], slots[k]);
    }
  }

  // ---------- the fragment and its closures run ----------

  /** Who gets at a variable: the fragment itself, a closure the fragment has made, or a closure of the caller. */
  datatype Who = TheFragment | ItsClosure | CallersClosure

  datatype Event = Read(i: nat, who: Who) | Write(i: nat, who: Who, v: int)

  /** A closure of the fragment only uses captures that the caller has boxed or that are known to be used by one (that
      is what `closures` is for), one of the caller only those it has boxed itself. */
  predicate Allowed(captures: seq<Capture>, closures: set<string>, e: Event) {
    e.i < |captures| && match e.who
      case TheFragment => true
      case ItsClosure => captures[e.i].callerBoxed || captures[e.i].name in closures
      case CallersClosure => captures[e.i].callerBoxed
  }

  predicate AllAllowed(captures: seq<Capture>, closures: set<string>, events: seq<Event>) {
    forall k :: 0 <= k < |events| ==> Allowed(captures, closures, events[k])
  }

  function CallerCell(m: M, c: Capture): Val { Get(m.mem, Slot(CALLER, c.off)) }

  /** The frame cells are handed out in order; the first has the caller's frame pointer. */
  function OwnCell(m: M, i: nat): Val { Get(m.mem, Slot(FRAGMENT, CellAt(1 + i))) }

  /** The place an access goes to.  The fragment takes the names in `boxedVars` for boxed; a closure has the box pointer
      that was in the variable's cell, one of the caller that in the caller's. */
  function PlaceFor(m: M, captures: seq<Capture>, boxedVars: set<string>, i: nat, who: Who): Loc
    requires i < |captures|
  {
    match who
    case TheFragment =>
      if captures[i].name in boxedVars then Place(OwnCell(m, i), 0) else Slot(FRAGMENT, CellAt(1 + i))
    case ItsClosure => Place(OwnCell(m, i), 0)
    case CallersClosure => Place(CallerCell(m, captures[i]), 0)
  }

  function RunEvents(captures: seq<Capture>, boxedVars: set<string>, m: M, events: seq<Event>): (r: (M, seq<Val>))
    requires forall k :: 0 <= k < |events| ==> events[k].i < |captures|
    decreases |events|
  {
    if events == [] then (m, [])
    else match events[0]
      case Read(i, who) =>
        var (t, seen) := RunEvents(captures, boxedVars, m, events[1..]);
        (t, [Get(m.mem, PlaceFor(m, captures, boxedVars, i, who))] + seen)
      case Write(i, who, v) =>
        RunEvents(captures, boxedVars, m.(mem := m.mem[PlaceFor(m, captures, boxedVars, i, who) := Num(v)]),
                  events[1..])
  }

  /** The meaning: one cell for each variable. */
  function RunCells(cells: seq<Val>, events: seq<Event>): (r: (seq<Val>, seq<Val>))
    requires forall k :: 0 <= k < |events| ==> events[k].i < |cells|
    ensures |r.0| == |cells|
    decreases |events|
  {
    if events == [] then (cells, [])
    else match events[0]
      case Read(i, _) =>
        var (t, seen) := RunCells(cells, events[1..]);
        (t, [cells[i]] + seen)
      case Write(i, _, v) => RunCells(cells[i := Num(v)], events[1..])
  }

  function Home(m: M, c: CapSlot): Loc {
    if c.boxed then Place(OwnSlot(m, c), 0) else Slot(FRAGMENT, c.slot)
  }

  /** Every variable has a place of its own; boxed ones have a box, shared ones the caller's. */
  predicate Apart(m: M, slots: seq<CapSlot>) {
    && (forall i :: 0 <= i < |slots| ==>
         (slots[i].boxed ==> OwnSlot(m, slots[i]).Box?)
           && (slots[i].shared ==> CallerSlot(m, slots[i]) == OwnSlot(m, slots[i])))
    && (forall i, j :: 0 <= i < j < |slots| ==> Home(m, slots[i]) != Home(m, slots[j]))
  }

  predicate Agree(m: M, slots: seq<CapSlot>, cells: seq<Val>) {
    |cells| == |slots| && forall i :: 0 <= i < |slots| ==> Get(m.mem, Home(m, slots[i])) == cells[i]
  }

  /** Writing one variable's place. */
  lemma WritesOne(arch: Arch, fp: int, slots: seq<CapSlot>, m: M, cells: seq<Val>, i: nat, v: Val)
    requires InFragment(arch, fp, m) && Laid(fp, slots) && Apart(m, slots) && Agree(m, slots, cells) && i < |slots|
    ensures var t := m.(mem := m.mem[Home(m, slots[i]) := v]);
      InFragment(arch, fp, t) && Apart(t, slots) && Agree(t, slots, cells[i := v])
      && forall off :: Get(t.mem, Slot(CALLER, off)) == Get(m.mem, Slot(CALLER, off))
  {
    hide Phys;
    var h := Home(m, slots[i]);
    var t := m.(mem := m.mem[h := v]);
    assert h.Cell? || h == Slot(FRAGMENT, slots[i].slot);
    forall j | 0 <= j < |slots| ensures CallerSlot(t, slots[j]) == CallerSlot(m, slots[j])
      && Home(t, slots[j]) == Home(m, slots[j])
      && (slots[j].boxed ==> OwnSlot(t, slots[j]) == OwnSlot(m, slots[j])) {
      if h.Slot? && slots[j].boxed {
        assert slots[j].slot != slots[i].slot by { if j < i { assert slots[j].slot != slots[i].slot; }
          else { assert slots[i].boxed != slots[j].boxed; } }
      }
    }
    forall j | 0 <= j < |slots| ensures Get(t.mem, Home(t, slots[j])) == cells[i := v][j] {
      if j < i { assert Home(m, slots[j]) != Home(m, slots[i]); }
        else if j > i { assert Home(m, slots[i]) != Home(m, slots[j]); }
    }
  }

  /** The slots are those of the captures, and the boxed names those of the boxed slots. */
  predicate Fits(captures: seq<Capture>, closures: set<string>, boxedVars: set<string>, slots: seq<CapSlot>) {
    |slots| == |captures| && forall i :: 0 <= i < |slots| ==>
      && slots[i].off == captures[i].off && slots[i].slot == CellAt(1 + i)
      && slots[i].shared == captures[i].callerBoxed
      && slots[i].boxed == (captures[i].callerBoxed || captures[i].name in closures)
      && (captures[i].name in boxedVars <==> slots[i].boxed)
  }

  /** Every read sees the latest write, whoever made it. */
  lemma {:induction false} EventsRefine(arch: Arch, fp: int, captures: seq<Capture>, closures: set<string>,
      boxedVars: set<string>, slots: seq<CapSlot>, m: M, cells: seq<Val>, events: seq<Event>)
    requires InFragment(arch, fp, m) && Laid(fp, slots) && Apart(m, slots) && Agree(m, slots, cells)
    requires Fits(captures, closures, boxedVars, slots) && AllAllowed(captures, closures, events)
    ensures var (t, seen) := RunEvents(captures, boxedVars, m, events);
      var (after, want) := RunCells(cells, events);
      && seen == want && InFragment(arch, fp, t) && Apart(t, slots) && Agree(t, slots, after)
      && t == m.(mem := t.mem) && forall off :: Get(t.mem, Slot(CALLER, off)) == Get(m.mem, Slot(CALLER, off))
    decreases |events|
  {
    if events != [] {
      var e, rest := events[0], events[1..];
      assert Allowed(captures, closures, e);
      assert PlaceFor(m, captures, boxedVars, e.i, e.who) == Home(m, slots[e.i]);
      hide Allowed, Fits;
      match e
      case Read(i, who) => EventsRefine(arch, fp, captures, closures, boxedVars, slots, m, cells, rest);
      case Write(i, who, v) =>
        WritesOne(arch, fp, slots, m, cells, i, Num(v));
        var m' := m.(mem := m.mem[Home(m, slots[i]) := Num(v)]);
        EventsRefine(arch, fp, captures, closures, boxedVars, slots, m', cells[i := Num(v)], rest);
    }
  }

  // ---------- from entry to exit ----------

  /** What the caller sees of a variable. */
  function CallerView(m: M, c: Capture): Val {
    if c.callerBoxed then Get(m.mem, Place(CallerCell(m, c), 0)) else CallerCell(m, c)
  }

  function Views(m: M, captures: seq<Capture>): (cells: seq<Val>)
    ensures |cells| == |captures|
  {
    seq(|captures|, i requires 0 <= i < |captures| => CallerView(m, captures[i]))
  }

  /** The variables the caller has boxed have boxes, each its own. */
  predicate CallerBoxes(m: M, captures: seq<Capture>) {
    && (forall i :: 0 <= i < |captures| && captures[i].callerBoxed ==>
         CallerCell(m, captures[i]).Box? && CallerCell(m, captures[i]).b < m.boxes)
    && (forall i, j :: 0 <= i < j < |captures| && captures[i].callerBoxed && captures[j].callerBoxed ==>
         CallerCell(m, captures[i]) != CallerCell(m, captures[j]))
  }

  function SlotView(m: M, c: CapSlot): Val {
    if c.shared then Get(m.mem, Place(CallerSlot(m, c), 0)) else CallerSlot(m, c)
  }

  function SlotViews(m: M, slots: seq<CapSlot>): (cells: seq<Val>)
    ensures |cells| == |slots|
  {
    seq(|slots|, i requires 0 <= i < |slots| => SlotView(m, slots[i]))
  }

  predicate SlotBoxes(m: M, slots: seq<CapSlot>) {
    && (forall i :: 0 <= i < |slots| && slots[i].shared ==>
         CallerSlot(m, slots[i]).Box? && CallerSlot(m, slots[i]).b < m.boxes)
    && (forall i, j :: 0 <= i < j < |slots| && slots[i].shared && slots[j].shared ==>
         CallerSlot(m, slots[i]) != CallerSlot(m, slots[j]))
  }

  lemma SameViews(m: M, captures: seq<Capture>, closures: set<string>, boxedVars: set<string>, slots: seq<CapSlot>)
    requires Fits(captures, closures, boxedVars, slots)
    ensures SlotViews(m, slots) == Views(m, captures) && (CallerBoxes(m, captures) ==> SlotBoxes(m, slots))
    ensures forall i :: 0 <= i < |slots| ==>
      && CallerView(m, captures[i]) == SlotView(m, slots[i]) && CallerCell(m, captures[i]) == CallerSlot(m, slots[i])
      && OwnCell(m, i) == OwnSlot(m, slots[i])
  {
  }

  lemma StartsApart(arch: Arch, fp: int, m0: M, m: M, slots: seq<CapSlot>)
    requires CopiedIn(arch, fp, m0, m, slots) && Laid(fp, slots) && SlotBoxes(m0, slots)
    ensures Apart(m, slots) && Agree(m, slots, SlotViews(m0, slots))
  {
    hide Phys;
    forall i | 0 <= i < |slots|
      ensures (slots[i].boxed ==> OwnSlot(m, slots[i]).Box?)
      ensures (slots[i].shared ==> CallerSlot(m, slots[i]) == OwnSlot(m, slots[i]))
      ensures Get(m.mem, Home(m, slots[i])) == SlotView(m0, slots[i]) {
      assert HasCopy(m0, m, slots[i]);
    }
    forall i, j | 0 <= i < j < |slots| ensures Home(m, slots[i]) != Home(m, slots[j]) {
      assert HasCopy(m0, m, slots[i]) && HasCopy(m0, m, slots[j]);
    }
  }

  lemma CopyOutOne(arch: Arch, junk: map<int, Val>, fp: int, c: CapSlot, m: M)
    requires InFragment(arch, fp, m) && !c.shared && (c.boxed ==> OwnSlot(m, c).Box?)
    ensures var t := Run(arch, junk, CopyOut(fp, c), m);
      && InFragment(arch, fp, t) && t.mem == m.mem[Slot(CALLER, c.off) := Get(m.mem, Home(m, c))]
      && t == m.(regs := t.regs, mem := t.mem) && Get(t.regs, Phys(arch, V3)) == Get(m.regs, Phys(arch, V3))
  {
    var v := Get(m.mem, Home(m, c));
    var i, j := Load(V1, FP, fp), Load(V0, FP, c.slot);
    var m1 := Step(arch, junk, i, m);
    assert m1.ok && Get(m1.regs, Phys(arch, V1)) == Frame(CALLER) && Get(m1.regs, Phys(arch, FP)) == Frame(FRAGMENT);
    var m2 := Step(arch, junk, j, m1);
    RunTwo(arch, junk, i, j, m);
    assert InFragment(arch, fp, m2) && m2 == m.(regs := m2.regs) && Get(m2.regs, Phys(arch, V0)) == OwnSlot(m, c)
      && Get(m2.regs, Phys(arch, V1)) == Frame(CALLER) && Get(m2.regs, Phys(arch, V3)) == Get(m.regs, Phys(arch, V3));
    StoresBack(arch, junk, fp, c, m, m2, v);
    if c.boxed {
      assert CopyOut(fp, c) == [i, j] + [Load(V0, V0, 0), Store(V1, c.off, V0)];
      RunCat(arch, junk, [i, j], [Load(V0, V0, 0), Store(V1, c.off, V0)], m);
    } else {
      assert CopyOut(fp, c) == [i, j] + [Store(V1, c.off, V0)];
      RunCat(arch, junk, [i, j], [Store(V1, c.off, V0)], m);
    }
  }

  lemma StoresBack(arch: Arch, junk: map<int, Val>, fp: int, c: CapSlot, m: M, m2: M, v: Val)
    requires InFragment(arch, fp, m2) && m2 == m.(regs := m2.regs) && (c.boxed ==> OwnSlot(m, c).Box?)
    requires v == Get(m.mem, Home(m, c))
    requires Get(m2.regs, Phys(arch, V0)) == OwnSlot(m, c) && Get(m2.regs, Phys(arch, V1)) == Frame(CALLER)
    ensures var code := if c.boxed then [Load(V0, V0, 0), Store(V1, c.off, V0)] else [Store(V1, c.off, V0)];
      var t := Run(arch, junk, code, m2);
      && InFragment(arch, fp, t) && t.mem == m.mem[Slot(CALLER, c.off) := v]
      && t == m.(regs := t.regs, mem := t.mem) && Get(t.regs, Phys(arch, V3)) == Get(m2.regs, Phys(arch, V3))
  {
    if c.boxed {
      RunTwo(arch, junk, Load(V0, V0, 0), Store(V1, c.off, V0), m2);
    } else {
      assert [Store(V1, c.off, V0)][1..] == [];
      assert Run(arch, junk, [], Step(arch, junk, Store(V1, c.off, V0), m2)) ==
        Step(arch, junk, Store(V1, c.off, V0), m2);
    }
  }

  /** The captures that are not shared have been written back; nothing else has changed. */
  ghost predicate CopiedOut(arch: Arch, fp: int, m: M, t: M, slots: seq<CapSlot>) {
    && InFragment(arch, fp, t) && t == m.(regs := t.regs, mem := t.mem)
    && Get(t.regs, Phys(arch, V3)) == Get(m.regs, Phys(arch, V3))
    && (forall i :: 0 <= i < |slots| && !slots[i].shared ==> CallerSlot(t, slots[i]) == Get(m.mem, Home(m, slots[i])))
    && (forall l :: (forall i :: 0 <= i < |slots| && !slots[i].shared ==> l != Slot(CALLER, slots[i].off)) ==>
         Get(t.mem, l) == Get(m.mem, l))
  }

  lemma CopyOutShared(arch: Arch, junk: map<int, Val>, fp: int, c: CapSlot, m: M)
    requires c.shared
    ensures Run(arch, junk, CopyOut(fp, c), m) == m
  {
  }

  lemma CopiesOutOne(arch: Arch, junk: map<int, Val>, fp: int, m: M, t: M, slots: seq<CapSlot>, c: CapSlot)
    requires CopiedOut(arch, fp, m, t, slots) && Laid(fp, slots + [c]) && (c.boxed ==> OwnSlot(m, c).Box?)
    ensures CopiedOut(arch, fp, m, Run(arch, junk, CopyOut(fp, c), t), slots + [c])
  {
    hide Phys, Run, CopyOut;
    var u := Run(arch, junk, CopyOut(fp, c), t);
    assert (slots + [c])[|slots|] == c;
    OwnIsKept(arch, fp, m, t, slots, c);
    if c.shared { CopyOutShared(arch, junk, fp, c, t); } else { CopyOutOne(arch, junk, fp, c, t); }
    OneMoreOut(arch, fp, m, t, u, slots, c);
  }

  /** What has been written back so far is not what c is read from. */
  lemma OwnIsKept(arch: Arch, fp: int, m: M, t: M, slots: seq<CapSlot>, c: CapSlot)
    requires CopiedOut(arch, fp, m, t, slots) && (c.boxed ==> OwnSlot(m, c).Box?)
    ensures OwnSlot(t, c) == OwnSlot(m, c) && Home(t, c) == Home(m, c)
    ensures Get(t.mem, Home(m, c)) == Get(m.mem, Home(m, c))
  {
    hide Phys;
  }

  lemma OneMoreOut(arch: Arch, fp: int, m: M, t: M, u: M, slots: seq<CapSlot>, c: CapSlot)
    requires CopiedOut(arch, fp, m, t, slots) && Laid(fp, slots + [c]) && InFragment(arch, fp, u)
    requires u == t.(regs := u.regs, mem := u.mem) && Get(u.regs, Phys(arch, V3)) == Get(t.regs, Phys(arch, V3))
    requires u.mem == if c.shared then t.mem else t.mem[Slot(CALLER, c.off) := Get(m.mem, Home(m, c))]
    ensures CopiedOut(arch, fp, m, u, slots + [c])
  {
    hide Phys, Home, InFragment;
    var all := slots + [c];
    assert all[|slots|] == c;
    assert forall i :: 0 <= i < |slots| ==> all[i] == slots[i] && slots[i].off != c.off;
    forall l | forall i :: 0 <= i < |all| && !all[i].shared ==> l != Slot(CALLER, all[i].off)
      ensures Get(u.mem, l) == Get(m.mem, l)
    {
      assert forall i :: 0 <= i < |slots| && !slots[i].shared ==> l != Slot(CALLER, all[i].off);
      if !c.shared { assert l != Slot(CALLER, all[|slots|].off); }
    }
  }

  lemma {:induction false} CopiesOut(arch: Arch, junk: map<int, Val>, fp: int, m: M, slots: seq<CapSlot>)
    requires InFragment(arch, fp, m) && Laid(fp, slots) && forall i :: 0 <= i < |slots| && slots[i].boxed ==>
      OwnSlot(m, slots[i]).Box?
    ensures CopiedOut(arch, fp, m, Run(arch, junk, CopyOuts(fp, slots), m), slots)
    decreases |slots|
  {
    if slots != [] {
      var k := |slots| - 1;
      assert slots == slots[..k] + [slots[k]];
      hide CopyOut, CopiedOut;
      CopiesOut(arch, junk, fp, m, slots[..k]);
      RunCat(arch, junk, CopyOuts(fp, slots[..k]), CopyOut(fp, slots[k]), m);
      CopiesOutOne(arch, junk, fp, m, Run(arch, junk, CopyOuts(fp, slots[..k]), m), slots[..k], slots[k]);
    }
  }

  /** On entry the caller's frame pointer comes in A0 and the prologue has set up the fragment's frame. */
  predicate AtEntry(arch: Arch, m: M) {
    m.ok && Get(m.regs, Phys(arch, FP)) == Frame(FRAGMENT) && Get(m.regs, Phys(arch, A0)) == Frame(CALLER)
  }

  /** A layout lists each of the caller's variables once. */
  predicate LayoutOk(captures: seq<Capture>) {
    forall i, j :: 0 <= i < j < |captures| ==>
      captures[i].off != captures[j].off && captures[i].name != captures[j].name
  }

  lemma {:induction false} BoxedNamesAre(captures: seq<Capture>, closures: set<string>, n: nat, x: string)
    requires n <= |captures|
    ensures x in BoxedNames(captures, closures, n) <==>
      exists i :: 0 <= i < n && captures[i].name == x && (captures[i].callerBoxed || x in closures)
    decreases n
  {
    if n > 0 { BoxedNamesAre(captures, closures, n - 1, x); }
  }

  lemma SlotsFit(captures: seq<Capture>, closures: set<string>)
    requires LayoutOk(captures)
    ensures Fits(captures, closures, BoxedNames(captures, closures, |captures|), SlotsOf(captures, closures))
  {
    var n, slots := |captures|, SlotsOf(captures, closures);
    forall i | 0 <= i < n
      ensures captures[i].name in BoxedNames(captures, closures, n) <==>
        captures[i].callerBoxed || captures[i].name in closures
    {
      BoxedNamesAre(captures, closures, n, captures[i].name);
    }
  }

  lemma SlotsLaid(captures: seq<Capture>, closures: set<string>)
    requires LayoutOk(captures)
    ensures Laid(CellAt(0), SlotsOf(captures, closures))
  {
  }

  lemma EntryRuns(arch: Arch, junk: map<int, Val>, m: M, slots: seq<CapSlot>)
    requires AtEntry(arch, m) && Laid(CellAt(0), slots) && SlotBoxes(m, slots)
    ensures var t := Run(arch, junk, Entry(slots), m);
      InFragment(arch, CellAt(0), t) && Apart(t, slots) && Agree(t, slots, SlotViews(m, slots)) && t.stack == m.stack
      && forall off :: Get(t.mem, Slot(CALLER, off)) == Get(m.mem, Slot(CALLER, off))
  {
    var fp := CellAt(0);
    var first := [Store(FP, fp, A0)];
    var m1 := Step(arch, junk, first[0], m);
    assert first[1..] == [] && Run(arch, junk, [], m1) == m1;
    assert Run(arch, junk, first, m) == m1;
    assert InFragment(arch, fp, m1) && SlotViews(m1, slots) == SlotViews(m, slots) && SlotBoxes(m1, slots);
    RunCat(arch, junk, first, CopyIns(fp, slots), m);
    hide Run, Phys, CopyIns, Step;
    CopiesAll(arch, junk, fp, m1, slots);
    StartsApart(arch, fp, m1, Run(arch, junk, CopyIns(fp, slots), m1), slots);
  }

  lemma ExitRuns(arch: Arch, junk: map<int, Val>, m: M, slots: seq<CapSlot>, cells: seq<Val>)
    requires InFragment(arch, CellAt(0), m) && Laid(CellAt(0), slots) && Apart(m, slots) && Agree(m, slots, cells)
    ensures var t := Run(arch, junk, Exit(slots), m);
      && InFragment(arch, CellAt(0), t) && t.stack == m.stack
      && Get(t.regs, Phys(arch, RET)) == Get(m.regs, Phys(arch, RET))
      && forall i :: 0 <= i < |slots| ==>
           SlotView(t, slots[i]) == cells[i]
             && (slots[i].shared ==> CallerSlot(t, slots[i]) == CallerSlot(m, slots[i]))
  {
    var fp := CellAt(0);
    var first, last := [Mov(V3, RET)], [Mov(RET, V3)];
    var m1 := Step(arch, junk, first[0], m);
    assert first[1..] == [] && Run(arch, junk, [], m1) == m1;
    assert Run(arch, junk, first, m) == m1;
    assert InFragment(arch, fp, m1) && Get(m1.regs, Phys(arch, V3)) == Get(m.regs, Phys(arch, RET))
      && m1 == m.(regs := m1.regs);
    CopiesOut(arch, junk, fp, m1, slots);
    var m2 := Run(arch, junk, CopyOuts(fp, slots), m1);
    assert last[1..] == [] && Run(arch, junk, last, m2) == Step(arch, junk, last[0], m2);
    RunCat(arch, junk, first, CopyOuts(fp, slots), m);
    RunCat(arch, junk, first + CopyOuts(fp, slots), last, m);
    ViewsAfter(arch, fp, m, m1, m2, slots, cells);
  }

  lemma ViewsAfter(arch: Arch, fp: int, m: M, m1: M, t: M, slots: seq<CapSlot>, cells: seq<Val>)
    requires m1 == m.(regs := m1.regs) && CopiedOut(arch, fp, m1, t, slots) && Laid(fp, slots) && Apart(m, slots)
    requires Agree(m, slots, cells)
    ensures forall i :: 0 <= i < |slots| ==>
      SlotView(t, slots[i]) == cells[i] && (slots[i].shared ==> CallerSlot(t, slots[i]) == CallerSlot(m, slots[i]))
  {
    hide Phys;
    forall i | 0 <= i < |slots| ensures SlotView(t, slots[i]) == cells[i]
      && (slots[i].shared ==> CallerSlot(t, slots[i]) == CallerSlot(m, slots[i])) {
      var c := slots[i];
      if c.shared {
        assert forall j :: 0 <= j < |slots| && !slots[j].shared ==> Slot(CALLER, c.off) != Slot(CALLER, slots[j].off);
        assert CallerSlot(t, c) == CallerSlot(m, c);
        assert Get(t.mem, Home(m, c)) == Get(m.mem, Home(m, c));
      } else {
        assert CallerSlot(t, c) == Get(m1.mem, Home(m1, c));
      }
    }
  }

  lemma RegsAreFree(arch: Arch, m: M, regs: map<int, Val>, slots: seq<CapSlot>, cells: seq<Val>)
    requires InFragment(arch, CellAt(0), m) && Apart(m, slots) && Agree(m, slots, cells)
    requires Get(regs, Phys(arch, FP)) == Frame(FRAGMENT)
    ensures var t := m.(regs := regs); InFragment(arch, CellAt(0), t) && Apart(t, slots) && Agree(t, slots, cells)
  {
    hide Phys;
  }

  /** Direct eval is as if fragment, its closures and the caller's shared one cell for each captured variable: every
      read gives the latest write, and afterwards the caller sees the last one; a box the caller has stays in its slot,
      and the completion value comes through.  Between entry and exit the fragment may use the registers as it likes,
      the frame pointer apart. */
  lemma EvalIsTransparent(arch: Arch, junk: map<int, Val>, captures: seq<Capture>, closures: set<string>, m: M,
      events: seq<Event>, regs: map<int, Val>)
    requires AtEntry(arch, m) && LayoutOk(captures) && CallerBoxes(m, captures)
    requires AllAllowed(captures, closures, events) && Get(regs, Phys(arch, FP)) == Frame(FRAGMENT)
    ensures var slots, boxedVars := SlotsOf(captures, closures), BoxedNames(captures, closures, |captures|);
      var m1 := Run(arch, junk, Entry(slots), m);
      var (m2, seen) := RunEvents(captures, boxedVars, m1, events);
      var t := Run(arch, junk, Exit(slots), m2.(regs := regs));
      var (after, want) := RunCells(Views(m, captures), events);
      && seen == want && t.ok && t.stack == m.stack && Get(t.regs, Phys(arch, RET)) == Get(regs, Phys(arch, RET))
      && forall i :: 0 <= i < |captures| ==>
           && CallerView(t, captures[i]) == after[i]
           && (captures[i].callerBoxed ==> CallerCell(t, captures[i]) == CallerCell(m, captures[i]))
  {
    var slots, boxedVars := SlotsOf(captures, closures), BoxedNames(captures, closures, |captures|);
    SlotsLaid(captures, closures);
    SlotsFit(captures, closures);
    SameViews(m, captures, closures, boxedVars, slots);
    EntryRuns(arch, junk, m, slots);
    hide Run, Phys, Entry, Exit, Laid, SlotsOf, AtEntry, CallerBoxes, LayoutOk, BoxedNames, AllAllowed;
    var m1 := Run(arch, junk, Entry(slots), m);
    EventsRefine(arch, CellAt(0), captures, closures, boxedVars, slots, m1, Views(m, captures), events);
    var end := RunEvents(captures, boxedVars, m1, events).0;
    var m2 := end.(regs := regs);
    var cells := RunCells(Views(m, captures), events).0;
    RegsAreFree(arch, end, regs, slots, cells);
    hide Apart, Agree, InFragment, RunEvents, RunCells;
    ExitRuns(arch, junk, m2, slots, cells);
    SameViews(Run(arch, junk, Exit(slots), m2), captures, closures, boxedVars, slots);
  }

  /** A closure has got away with box p; it writes the variable, and the caller looks. */
  lemma CallerSees(m: M, c: Capture, p: Val, v: int)
    requires p.Box? && (c.callerBoxed ==> CallerCell(m, c) == p) && CallerView(m, c) != Num(v)
    ensures CallerView(m.(mem := m.mem[Place(p, 0) := Num(v)]), c) == Num(v) <==> c.callerBoxed
  {
  }

  /** After the eval a closure of the fragment that has got away, with the box that was in the variable's cell, writes
      the variable: the caller sees it exactly if the variable was boxed in the caller already. */
  lemma LateWrites(arch: Arch, junk: map<int, Val>, captures: seq<Capture>, closures: set<string>, m: M,
      events: seq<Event>, regs: map<int, Val>, i: nat, v: int)
    requires AtEntry(arch, m) && LayoutOk(captures) && CallerBoxes(m, captures)
    requires AllAllowed(captures, closures, events) && Get(regs, Phys(arch, FP)) == Frame(FRAGMENT)
    requires i < |captures| && (captures[i].callerBoxed || captures[i].name in closures)
    ensures var slots, boxedVars := SlotsOf(captures, closures), BoxedNames(captures, closures, |captures|);
      var m2 := RunEvents(captures, boxedVars, Run(arch, junk, Entry(slots), m), events).0;
      var t := Run(arch, junk, Exit(slots), m2.(regs := regs));
      var p, c := OwnCell(m2, i), captures[i];
      && p.Box?
      && (CallerView(t, c) != Num(v) ==>
            (CallerView(t.(mem := t.mem[Place(p, 0) := Num(v)]), c) == Num(v) <==> c.callerBoxed))
  {
    var slots, boxedVars := SlotsOf(captures, closures), BoxedNames(captures, closures, |captures|);
    SlotsLaid(captures, closures);
    SlotsFit(captures, closures);
    SameViews(m, captures, closures, boxedVars, slots);
    EntryRuns(arch, junk, m, slots);
    hide Run, Phys, Entry, Exit, Laid, SlotsOf, AtEntry, CallerBoxes, LayoutOk, BoxedNames, AllAllowed;
    var m1 := Run(arch, junk, Entry(slots), m);
    EventsRefine(arch, CellAt(0), captures, closures, boxedVars, slots, m1, Views(m, captures), events);
    var end := RunEvents(captures, boxedVars, m1, events).0;
    var m2 := end.(regs := regs);
    var cells := RunCells(Views(m, captures), events).0;
    RegsAreFree(arch, end, regs, slots, cells);
    BoxInCell(end, slots, i);
    hide Apart, Agree, InFragment, RunEvents, RunCells;
    ExitRuns(arch, junk, m2, slots, cells);
    var t := Run(arch, junk, Exit(slots), m2);
    SameViews(t, captures, closures, boxedVars, slots);
    SameViews(end, captures, closures, boxedVars, slots);
    if CallerView(t, captures[i]) != Num(v) { CallerSees(t, captures[i], OwnCell(end, i), v); }
  }

  lemma BoxInCell(m: M, slots: seq<CapSlot>, i: nat)
    requires Apart(m, slots) && i < |slots| && slots[i].boxed
    ensures OwnSlot(m, slots[i]).Box? && (slots[i].shared ==> CallerSlot(m, slots[i]) == OwnSlot(m, slots[i]))
  {
  }

  // ---------- the closures the walk finds ----------

  /** The names of a layout. */
  function Names(captures: seq<Capture>): (names: set<string>)
    ensures forall i :: 0 <= i < |captures| ==> captures[i].name in names
  {
    set i | 0 <= i < |captures| :: captures[i].name
  }

  /** A closure of the program only gets at names it uses, one of the caller only at those it has boxed. */
  predicate Happens(captures: seq<Capture>, program: Node, e: Event) {
    e.i < |captures| && match e.who
      case TheFragment => true
      case ItsClosure => ClosureUses(program, captures[e.i].name)
      case CallersClosure => captures[e.i].callerBoxed
  }

  ghost predicate Noticed(captures: seq<Capture>, inherited: set<string>, renamed: Node, e: Event)
    requires e.i < |captures|
  {
    e.who.ItsClosure? ==>
      var x := captures[e.i].name;
      Capturable(Names(captures), inherited, x) && NoneOverlooked(renamed, x)
  }

  /** The renaming of block scopes and capturesBoxedByInnerClosure are enough for `EvalIsTransparent`: boxes are made
      for all names that the fragment's closures use, as long as these are no built-in's and not overlooked. */
  method BoxedByInnerClosure(captures: seq<Capture>, program: Node, inherited: set<string>)
      returns (renamed: Node, closures: set<string>)
    requires Source(program)
    ensures Ren(Program(program), Program(renamed), PLAIN) && Separate(Program(renamed))
    ensures forall x :: x in closures <==> Capturable(Names(captures), inherited, x) && Found(renamed, x)
    ensures ClearProgram(program) ==>
      forall e :: Happens(captures, program, e) && Noticed(captures, inherited, renamed, e) ==>
        Allowed(captures, closures, e)
    ensures ClearProgram(program) ==>
      forall x :: x in closures && NothingExtra(renamed, x) && !Marks(renamed, x) ==> ClosureUses(program, x)
  {
    hide Found, ClosureUses, Ren, OldNames, Clear, Marks, Free;
    renamed := RenameBlockScopedBindings(program);
    closures := Visit(renamed, {}, Names(captures), inherited);
    if ClearProgram(program) {
      forall x ensures WalkAnswers(program, renamed, x) { WalkIsEnough(program, renamed, x); }
      BoxesAreEnough(captures, program, inherited, renamed, closures);
    }
  }

  lemma BoxesAreEnough(captures: seq<Capture>, program: Node, inherited: set<string>, renamed: Node,
      closures: set<string>)
    requires forall x :: x in closures <==> Capturable(Names(captures), inherited, x) && Found(renamed, x)
    requires forall x :: WalkAnswers(program, renamed, x)
    ensures forall e :: Happens(captures, program, e) && Noticed(captures, inherited, renamed, e) ==>
      Allowed(captures, closures, e)
    ensures forall x :: x in closures && NothingExtra(renamed, x) && !Marks(renamed, x) ==> ClosureUses(program, x)
  {
    hide Found, ClosureUses, NoneOverlooked, NothingExtra, Marks, Names, Capturable;
    forall x | x in closures && NothingExtra(renamed, x) && !Marks(renamed, x) ensures ClosureUses(program, x) {
      assert WalkAnswers(program, renamed, x);
    }
    forall e | Happens(captures, program, e) && Noticed(captures, inherited, renamed, e)
      ensures Allowed(captures, closures, e)
    {
      assert WalkAnswers(program, renamed, captures[e.i].name);
    }
  }

  ghost predicate WalkAnswers(program: Node, renamed: Node, x: string) {
    && (ClosureUses(program, x) && NoneOverlooked(renamed, x) ==> Found(renamed, x))
    && (Found(renamed, x) && NothingExtra(renamed, x) && !Marks(renamed, x) ==> ClosureUses(program, x))
  }

  /** Between the closures of the program as it was written and what the walk finds in the renamed one. */
  lemma WalkIsEnough(program: Node, renamed: Node, x: string)
    requires Source(program) && Ren(Program(program), Program(renamed), PLAIN) && ClearProgram(program)
    ensures WalkAnswers(program, renamed, x)
  {
    UsesKept(program, renamed, x);
    ClosuresFound(renamed, x);
    if ClosureUses(renamed, x) { UseIsInside(renamed, x); }
    if UsedInside(renamed, x) && !Marks(renamed, x) { InsideIsUse(renamed, x); }
  }
}
