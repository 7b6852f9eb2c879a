/** The two emission-time windows of the arm64 path: store-to-load forwarding in the virtual machine
    (vm/index.js) and the push/pop undo in the backend (backend/arm64.js).  Both decide by comparing the length of the
    code buffer, which the undo can shrink. */
module Windows {
  import opened Basics
  import opened VRegs

  type Word = int
  type Regs = r: seq<Word> | |r| == 32 witness seq(32, i => 0)

  /** `rest` stands for everything the instructions below do not name. */
  datatype St = St(regs: Regs, slots: map<int, Word>, stack: seq<Word>, rest: int)

  /** One machine instruction; registers are physical.  `Address` computes a far slot address into X16.  `Other` is
      every instruction the windows know nothing about. */
  datatype Ins =
    | MovReg(d: int, s: int)
    | Str(off: int, s: int)
    | Ldr(d: int, off: int)
    | PushReg(r: int)
    | PopReg(r: int)
    | Address(off: int)
    | Other(code: int)

  predicate Named(r: int) { 0 <= r < 32 }

  function Put(s: St, d: int, v: Word): St {
    if Named(d) then s.(regs := s.regs[d := v]) else s
  }

  function At(s: St, r: int): Word {
    if Named(r) then s.regs[r] else 0
  }

  function Slot(s: St, off: int): Word {
    if off in s.slots then s.slots[off] else 0
  }

  /** What an execution shows: its final state, and the state each `Other` instruction was given. */
  datatype Run = Run(state: St, seen: seq<(int, St)>)

  function Exec1(sem: (int, St) -> St, i: Ins, x: Run): Run {
    var s := x.state;
    match i
    case MovReg(d, r) => x.(state := Put(s, d, At(s, r)))
    case Str(off, r) => x.(state := s.(slots := s.slots[off := At(s, r)]))
    case Ldr(d, off) => x.(state := Put(s, d, Slot(s, off)))
    case PushReg(r) => x.(state := s.(stack := s.stack + [At(s, r)]))
    case PopReg(r) =>
      if s.stack == [] then x
      else x.(state := Put(s.(stack := s.stack[..|s.stack| - 1]), r, s.stack[|s.stack| - 1]))
    case Address(_) => x
    case Other(c) => Run(sem(c, s), x.seen + [(c, s)])
  }

  function Exec(sem: (int, St) -> St, code: seq<Ins>, s: St): Run {
    if code == [] then Run(s, [])
    else Exec1(sem, code[|code| - 1], Exec(sem, code[..|code| - 1], s))
  }

  /** From every state and under every meaning of the other instructions, the two blocks end in the same state and show
      the same states on the way. */
  ghost predicate Equivalent(code: seq<Ins>, plain: seq<Ins>) {
    forall sem, s :: Exec(sem, code, s) == Exec(sem, plain, s)
  }

  lemma ExecAppend(sem: (int, St) -> St, code: seq<Ins>, i: Ins, s: St)
    ensures Exec(sem, code + [i], s) == Exec1(sem, i, Exec(sem, code, s))
  {
    assert (code + [i])[..|code|] == code;
  }

  lemma BothAppend(code: seq<Ins>, plain: seq<Ins>, i: Ins)
    requires Equivalent(code, plain)
    ensures Equivalent(code + [i], plain + [i])
  {
    forall sem, s ensures Exec(sem, code + [i], s) == Exec(sem, plain + [i], s) {
      ExecAppend(sem, code, i, s);
      ExecAppend(sem, plain, i, s);
    }
  }

  /** Whenever control gets to the end of `code`, slot `off` holds what register r holds. */
  ghost predicate Forwardable(code: seq<Ins>, off: int, r: int) {
    forall sem, s :: Slot(Exec(sem, code, s).state, off) == At(Exec(sem, code, s).state, r)
  }

  /** How a virtual machine call is emitted when nothing is optimised. */
  function MovPlain(d: Reg, s: Reg): seq<Ins> {
    [MovReg(Phys(Arm64, d), Phys(Arm64, s))]
  }

  /** ldur/ldr reach [-256, 255] and aligned offsets below 32768; anything else goes through X16. */
  function AddressOf(off: int): seq<Ins> {
    if -256 <= off <= 255 || (0 <= off < 32768 && off % 8 == 0) then [] else [Address(off)]
  }

  function LoadPlain(d: Reg, off: int): seq<Ins> {
    AddressOf(off) + [Ldr(Phys(Arm64, d), off)]
  }

  function StorePlain(off: int, s: Reg): seq<Ins> {
    AddressOf(off) + [Str(off, Phys(Arm64, s))]
  }

  function Others(codes: seq<int>): seq<Ins> {
    seq(|codes|, i requires 0 <= i < |codes| => Other(codes[i]))
  }

  datatype PairPush = Closed | Open(vreg: Reg, start: int, end: int)

  /** Emitted and plain code between two labels. */
  datatype Block = Block(code: seq<Ins>, plain: seq<Ins>)

  function Codes(blocks: seq<Block>): seq<Ins> {
    if blocks == [] then [] else Codes(blocks[..|blocks| - 1]) + blocks[|blocks| - 1].code
  }

  function Plains(blocks: seq<Block>): seq<Ins> {
    if blocks == [] then [] else Plains(blocks[..|blocks| - 1]) + blocks[|blocks| - 1].plain
  }

  /** Virtual machine and backend in direct mode. */
  class Emitter {
    var code: seq<Ins>
    var sfOff: int
    var sfSrc: Reg
    var sfPos: int
    var pairPush: PairPush

    /** History: the finished blocks, what the current one would be without the windows, and whether a store has opened
        the forwarding window since it was last closed. */
    ghost var blocks: seq<Block>
    ghost var plain: seq<Ins>
    ghost var open: bool

    ghost function Base(): nat
      reads this
    {
      |Codes(blocks)|
    }

    /** The code of the block in progress. */
    ghost function Current(): seq<Ins>
      requires Base() <= |code|
      reads this
    {
      code[Base()..]
    }

    /** An open window ends behind its store; a closed one is behind the last label only if something follows it. */
    ghost predicate WindowFits()
      requires Base() <= |code|
      reads this
    {
      if open then Base() < sfPos <= |code| && Forwardable(code[Base()..sfPos], sfOff, Phys(Arm64, sfSrc))
      else sfOff == -1 && (sfPos <= Base() || sfPos < |code|)
    }

    ghost predicate Valid()
      reads this
    {
      && Codes(blocks) <= code
      && (forall k :: 0 <= k < |blocks| ==> Equivalent(blocks[k].code, blocks[k].plain))
      && Equivalent(Current(), plain)
      && WindowFits()
      && (pairPush.Open? && pairPush.end == |code| ==>
            && Base() <= pairPush.start < |code| && pairPush.start + 1 == pairPush.end
            && code[pairPush.start] == PushReg(Phys(Arm64, pairPush.vreg))
            && if open then sfPos <= pairPush.start else sfPos <= Base() || sfPos < pairPush.start)
      && (pairPush.Open? ==> pairPush.end <= |code|)
    }

    constructor ()
      ensures Valid() && code == [] && blocks == [] && plain == []
      ensures sfOff == -1 && !open && pairPush == Closed
    {
      code, sfOff, sfSrc, sfPos, pairPush := [], -1, V0, -1, Closed;
      blocks, plain, open := [], [], false;
      new;
    }

    /** Appends instructions that the plain code has as well. */
    method Emit(ins: seq<Ins>)
      requires Valid()
      modifies this`code, this`plain
      ensures Valid() && code == old(code) + ins && plain == old(plain) + ins
    {
      var i := 0;
      while i < |ins|
        invariant 0 <= i <= |ins| && Valid() && code == old(code) + ins[..i] && plain == old(plain) + ins[..i]
      {
        BothAppend(Current(), plain, ins[i]);
        assert (code + [ins[i]])[Base()..] == Current() + [ins[i]];
        assert open ==> (code + [ins[i]])[Base()..sfPos] == code[Base()..sfPos];
        code, plain := code + [ins[i]], plain + [ins[i]];
        i := i + 1;
      }
    }

    /** Appends one instruction to the emitted code against different plain code. */
    method Shortcut(ins: seq<Ins>, instead: seq<Ins>)
      requires Valid() && |ins| <= 1
      requires Equivalent(Current() + ins, plain + instead)
      modifies this`code, this`plain
      ensures Valid() && code == old(code) + ins && plain == old(plain) + instead
    {
      Appended(code, ins, Base(), sfPos);
      code, plain := code + ins, plain + instead;
    }

    /** mov between names of the same physical register emits nothing. */
    method Mov(d: Reg, s: Reg)
      requires Valid()
      modifies this`code, this`plain
      ensures Valid() && plain == old(plain) + MovPlain(d, s)
      ensures code == old(code) + (if Phys(Arm64, d) == Phys(Arm64, s) then [] else MovPlain(d, s))
    {
      if Phys(Arm64, d) == Phys(Arm64, s) {
        SelfMove(Current(), plain, Phys(Arm64, d));
        assert Current() + [] == Current();
        Shortcut([], MovPlain(d, s));
        return;
      }
      Emit(MovPlain(d, s));
    }

    /** A store to a frame slot opens the forwarding window. */
    method Store(off: int, src: Reg)
      requires Valid()
      modifies this`code, this`plain, this`sfOff, this`sfSrc, this`sfPos, this`open
      ensures Valid() && code == old(code) + StorePlain(off, src) && plain == old(plain) + StorePlain(off, src)
      ensures open && sfOff == off && sfSrc == src && sfPos == |code|
    {
      Emit(StorePlain(off, src));
      assert code[Base()..] == old(Current()) + AddressOf(off) + [Str(off, Phys(Arm64, src))];
      StoreForwards(old(Current()) + AddressOf(off), off, Phys(Arm64, src));
      assert code[Base()..|code|] == code[Base()..];
      sfOff, sfSrc, sfPos, open := off, src, |code|, true;
    }

    /** Any other store, of at least one instruction, closes it. */
    method StoreElsewhere(codes: seq<int>)
      requires Valid() && codes != []
      modifies this`code, this`plain, this`sfOff, this`open
      ensures Valid() && code == old(code) + Others(codes) && plain == old(plain) + Others(codes)
      ensures !open && sfOff == -1
    {
      Emit(Others(codes));
      sfOff, open := -1, false;
    }

    /** The load finds the marker of a closed window in the slot's offset, and the code as long as at the last store:
        that store is right in front of the last label. */
    ghost predicate Misfires(off: int)
      reads this
    {
      off == -1 == sfOff && sfPos == |code| == Base()
    }

    /** A load of the slot stored last, with nothing emitted since, reuses the register.  The code stays equivalent to
        the plain load except if the offset is the marker -1 and the window was closed by a label right behind the
        store. */
    method Load(d: Reg, off: int)
      requires Valid()
      modifies this`code, this`plain
      ensures plain == old(plain) + LoadPlain(d, off)
      ensures code == old(code) +
        if off == old(sfOff) && old(sfPos) == old(|code|) then
          if Phys(Arm64, d) == Phys(Arm64, old(sfSrc)) then [] else MovPlain(d, old(sfSrc))
        else LoadPlain(d, off)
      ensures Base() <= |code|
      ensures Equivalent(Current(), plain) <==> !old(Misfires(off))
      ensures Valid() <==> !old(Misfires(off))
    {
      hide Equivalent, Forwardable, Phys, MovPlain, LoadPlain, Codes;
      if off == sfOff && sfPos == |code| {
        ghost var ins := if Phys(Arm64, d) == Phys(Arm64, sfSrc) then [] else MovPlain(d, sfSrc);
        if open {
          assert code[Base()..sfPos] == Current();
          ForwardHit(Current(), plain, d, sfSrc, off);
        } else {
          assert Current() == [];
          MisfireShows(plain, d, sfSrc);
        }
        Appended(code, ins, Base(), sfPos);
        plain := plain + LoadPlain(d, off);
        if d == sfSrc {
          assert code + ins == code;
          return;
        }
        if Phys(Arm64, d) != Phys(Arm64, sfSrc) {
          code := code + MovPlain(d, sfSrc);
        }
        assert code == old(code) + ins;
        return;
      }
      Emit(LoadPlain(d, off));
    }

    /** A label emits nothing but may be reached from elsewhere: both windows close and a new block starts. */
    method Label()
      requires Valid()
      modifies this`sfOff, this`pairPush, this`blocks, this`plain, this`open
      ensures Valid() && plain == [] && blocks == old(blocks) + [Block(old(Current()), old(plain))]
      ensures sfOff == -1 && !open && pairPush == Closed && Base() == |code|
    {
      sfOff, pairPush, open := -1, Closed, false;
      ghost var done := Block(Current(), plain);
      assert (blocks + [done])[..|blocks|] == blocks;
      assert Codes(blocks + [done]) == code;
      blocks, plain := blocks + [done], [];
      assert Current() == [];
    }

    method Push(r: Reg)
      requires Valid()
      modifies this`code, this`plain, this`pairPush
      ensures Valid() && code == old(code) + [PushReg(Phys(Arm64, r))]
      ensures plain == old(plain) + [PushReg(Phys(Arm64, r))] && pairPush == Open(r, old(|code|), |code|)
    {
      var start := |code|;
      Emit([PushReg(Phys(Arm64, r))]);
      pairPush := Open(r, start, |code|);
    }

    /** A pop right behind its push takes the push back and moves the register instead. */
    method Pop(r: Reg)
      requires Valid()
      modifies this`code, this`plain, this`pairPush
      ensures Valid() && plain == old(plain) + [PopReg(Phys(Arm64, r))] && pairPush == Closed
      ensures code ==
        if old(pairPush).Open? && old(pairPush).end == old(|code|) then
          old(code)[..old(pairPush).start] +
            (if Phys(Arm64, r) == Phys(Arm64, old(pairPush).vreg) then [] else MovPlain(r, old(pairPush).vreg))
        else old(code) + [PopReg(Phys(Arm64, r))]
    {
      hide Equivalent, Forwardable, Phys, Codes;
      InRange(r);
      if pairPush.Open? { InRange(pairPush.vreg); }
      var p := pairPush;
      pairPush := Closed;
      if p.Open? && p.end == |code| {
        ghost var full := Current();
        PopBytes(p.start);
        assert full == Current() + [PushReg(Phys(Arm64, p.vreg))];
        UndonePush(Current(), plain, Phys(Arm64, r), Phys(Arm64, p.vreg));
        assert open ==> code[Base()..sfPos] == old(code)[Base()..sfPos];
        Moved(r, p.vreg);
        return;
      }
      Emit([PopReg(Phys(Arm64, r))]);
    }

    /** Takes instructions back one at a time. */
    method PopBytes(start: nat)
      requires start <= |code|
      modifies this`code
      ensures code == old(code)[..start]
    {
      while |code| > start
        invariant start <= |code| && code == old(code)[..|code|]
        decreases |code|
      {
        code := code[..|code| - 1];
      }
    }

    /** The move that replaces an undone push and its pop. */
    method Moved(d: Reg, v: Reg)
      requires Codes(blocks) <= code && pairPush == Closed
      requires forall k :: 0 <= k < |blocks| ==> Equivalent(blocks[k].code, blocks[k].plain)
      requires WindowFits()
      requires Equivalent(Current() + (if Phys(Arm64, d) == Phys(Arm64, v) then [] else MovPlain(d, v)),
        plain + [PopReg(Phys(Arm64, d))])
      modifies this`code, this`plain
      ensures Valid() && plain == old(plain) + [PopReg(Phys(Arm64, d))]
      ensures code == old(code) + (if Phys(Arm64, d) == Phys(Arm64, v) then [] else MovPlain(d, v))
    {
      var ins := if Phys(Arm64, d) == Phys(Arm64, v) then [] else MovPlain(d, v);
      Appended(code, ins, Base(), sfPos);
      code, plain := code + ins, plain + [PopReg(Phys(Arm64, d))];
    }

    /** Every other op: its instructions are emitted as they are (nop emits none). */
    method Direct(codes: seq<int>)
      requires Valid()
      modifies this`code, this`plain
      ensures Valid()
      ensures code == old(code) + Others(codes) && plain == old(plain) + Others(codes)
    {
      Emit(Others(codes));
    }
  }

  lemma Appended(code: seq<Ins>, ins: seq<Ins>, base: nat, to: int)
    requires base <= |code|
    ensures (code + ins)[base..] == code[base..] + ins
    ensures base <= to <= |code| ==> (code + ins)[base..to] == code[base..to]
  {
  }

  lemma SelfMove(code: seq<Ins>, plain: seq<Ins>, r: int)
    requires Equivalent(code, plain) && Named(r)
    ensures Equivalent(code, plain + [MovReg(r, r)])
  {
    forall sem, s ensures Exec(sem, code, s) == Exec(sem, plain + [MovReg(r, r)], s) {
      ExecAppend(sem, plain, MovReg(r, r), s);
      var t := Exec(sem, plain, s).state;
      assert t.regs[r := t.regs[r]] == t.regs;
    }
  }

  lemma StoreForwards(code: seq<Ins>, off: int, r: int)
    ensures Forwardable(code + [Str(off, r)], off, r)
  {
    forall sem, s
      ensures Slot(Exec(sem, code + [Str(off, r)], s).state, off) == At(Exec(sem, code + [Str(off, r)], s).state, r)
    {
      ExecAppend(sem, code, Str(off, r), s);
    }
  }

  /** What a plain load does: the address computation touches nothing that is modelled. */
  lemma LoadRuns(sem: (int, St) -> St, plain: seq<Ins>, d: Reg, off: int, s: St)
    ensures
      var x := Exec(sem, plain, s);
      Exec(sem, plain + LoadPlain(d, off), s) == x.(state := Put(x.state, Phys(Arm64, d), Slot(x.state, off)))
  {
    ExecAppend(sem, plain + AddressOf(off), Ldr(Phys(Arm64, d), off), s);
    assert plain + LoadPlain(d, off) == plain + AddressOf(off) + [Ldr(Phys(Arm64, d), off)];
    if AddressOf(off) == [] {
      assert plain + AddressOf(off) == plain;
    } else {
      ExecAppend(sem, plain, Address(off), s);
    }
  }

  lemma ForwardNothing(code: seq<Ins>, plain: seq<Ins>, d: Reg, off: int)
    requires Equivalent(code, plain) && Forwardable(code, off, Phys(Arm64, d))
    ensures Equivalent(code, plain + LoadPlain(d, off))
  {
    forall sem, s ensures Exec(sem, code, s) == Exec(sem, plain + LoadPlain(d, off), s) {
      LoadRuns(sem, plain, d, off, s);
      var t := Exec(sem, plain, s).state;
      assert t == Exec(sem, code, s).state;
      assert t.regs[Phys(Arm64, d) := t.regs[Phys(Arm64, d)]] == t.regs;
    }
  }

  lemma ForwardMove(code: seq<Ins>, plain: seq<Ins>, d: Reg, src: Reg, off: int)
    requires Equivalent(code, plain) && Forwardable(code, off, Phys(Arm64, src))
    ensures Equivalent(code + MovPlain(d, src), plain + LoadPlain(d, off))
  {
    forall sem, s ensures Exec(sem, code + MovPlain(d, src), s) == Exec(sem, plain + LoadPlain(d, off), s) {
      LoadRuns(sem, plain, d, off, s);
      ExecAppend(sem, code, MovReg(Phys(Arm64, d), Phys(Arm64, src)), s);
      assert Exec(sem, plain, s) == Exec(sem, code, s);
    }
  }

  lemma ForwardHit(code: seq<Ins>, plain: seq<Ins>, d: Reg, src: Reg, off: int)
    requires Equivalent(code, plain) && Forwardable(code, off, Phys(Arm64, src))
    ensures
      Equivalent(code + (if Phys(Arm64, d) == Phys(Arm64, src) then [] else MovPlain(d, src)),
        plain + LoadPlain(d, off))
  {
    if Phys(Arm64, d) == Phys(Arm64, src) {
      ForwardNothing(code, plain, d, off);
      assert code + [] == code;
    } else {
      ForwardMove(code, plain, d, src, off);
    }
  }

  /** At the start of a block a load of [FP - 1] does not find its value in any register. */
  lemma MisfireShows(plain: seq<Ins>, d: Reg, src: Reg)
    requires Equivalent([], plain)
    ensures
      !Equivalent([] + (if Phys(Arm64, d) == Phys(Arm64, src) then [] else MovPlain(d, src)), plain + LoadPlain(d, -1))
  {
    hide Phys;
    InRange(d);
    InRange(src);
    var ins := if Phys(Arm64, d) == Phys(Arm64, src) then [] else MovPlain(d, src);
    var s := St(seq(32, i => 0), map[-1 := 1], [], 0);
    var sem := (c: int, t: St) => t;
    LoadRuns(sem, plain, d, -1, s);
    assert Exec(sem, plain, s) == Exec(sem, [], s) == Run(s, []);
    assert Exec(sem, plain + LoadPlain(d, -1), s).state.regs[Phys(Arm64, d)] == 1;
    if ins != [] {
      ExecAppend(sem, [], MovReg(Phys(Arm64, d), Phys(Arm64, src)), s);
    }
    assert [] + ins == ins;
    assert Exec(sem, [] + ins, s).state.regs[Phys(Arm64, d)] == 0;
  }

  lemma InRange(r: Reg)
    ensures Named(Phys(Arm64, r))
  {
  }

  /** Push v; pop d leaves the stack alone and copies v to d. */
  lemma UndonePush(code: seq<Ins>, plain: seq<Ins>, d: int, v: int)
    requires Equivalent(code + [PushReg(v)], plain) && Named(d) && Named(v)
    ensures Equivalent(code + (if d == v then [] else [MovReg(d, v)]), plain + [PopReg(d)])
  {
    var ins := if d == v then [] else [MovReg(d, v)];
    forall sem, s ensures Exec(sem, code + ins, s) == Exec(sem, plain + [PopReg(d)], s) {
      ExecAppend(sem, plain, PopReg(d), s);
      ExecAppend(sem, code, PushReg(v), s);
      var x := Exec(sem, code, s);
      var t := x.state;
      assert Exec(sem, plain, s) == Exec(sem, code + [PushReg(v)], s);
      assert (t.stack + [At(t, v)])[..|t.stack|] == t.stack;
      if d == v {
        assert code + ins == code && t.regs[d := t.regs[d]] == t.regs;
      } else {
        ExecAppend(sem, code, MovReg(d, v), s);
      }
    }
  }

  // ---------- what the windows guarantee ----------

  lemma SeenBefore(sem: (int, St) -> St, i: Ins, before: seq<(int, St)>, x: Run)
    ensures Exec1(sem, i, Run(x.state, before + x.seen)) ==
      Run(Exec1(sem, i, x).state, before + Exec1(sem, i, x).seen)
  {
  }

  lemma {:induction false} ExecConcat(sem: (int, St) -> St, x: seq<Ins>, y: seq<Ins>, s: St)
    ensures Exec(sem, x + y, s) ==
      var r := Exec(sem, x, s);
      var t := Exec(sem, y, r.state);
      Run(t.state, r.seen + t.seen)
    decreases |y|
  {
    hide Exec1;
    if y == [] {
      assert x + y == x;
    } else {
      var n := |y| - 1;
      ExecConcat(sem, x, y[..n], s);
      assert x + y == (x + y[..n]) + [y[n]];
      SeenBefore(sem, y[n], Exec(sem, x, s).seen, Exec(sem, y[..n], Exec(sem, x, s).state));
      ExecAppend(sem, x + y[..n], y[n], s);
    }
  }

  /** For every sequence of calls: from any label to the end of the code, falling through the labels in between, the
      emitted code does what the plain code does. */
  lemma {:induction false} FallThroughAgrees(blocks: seq<Block>, current: seq<Ins>, plain: seq<Ins>, from: nat)
    requires from <= |blocks| && (forall k :: 0 <= k < |blocks| ==> Equivalent(blocks[k].code, blocks[k].plain))
    requires Equivalent(current, plain)
    ensures Equivalent(Codes(blocks[from..]) + current, Plains(blocks[from..]) + plain)
    decreases |blocks| - from
  {
    var cs := blocks[from..];
    if cs == [] {
      assert Codes(cs) + current == current && Plains(cs) + plain == plain;
    } else {
      var n := |cs| - 1;
      var c', p' := cs[n].code + current, cs[n].plain + plain;
      forall sem, s ensures Exec(sem, c', s) == Exec(sem, p', s) {
        ExecConcat(sem, cs[n].code, current, s);
        ExecConcat(sem, cs[n].plain, plain, s);
      }
      FallThroughAgrees(blocks[..|blocks| - 1], c', p', from);
      assert blocks[..|blocks| - 1][from..] == cs[..n];
      assert Codes(cs) + current == Codes(cs[..n]) + c' && Plains(cs) + plain == Plains(cs[..n]) + p';
    }
  }

  /** Three calls show it: a store, a label, and a load of [FP - 1]. */
  method SentinelIsNotASlot() returns (e: Emitter)
    ensures fresh(e) && e.Base() <= |e.code| && !Equivalent(e.Current(), e.plain)
  {
    e := new Emitter();
    e.Store(-56, V0);
    e.Label();
    e.Load(V1, -1);
  }

  // ---------- whole runs ----------

  /** How one pass through a block ends: by a jump to block `target`, or at its end. */
  datatype Visit = Jumped(target: nat, run: Run) | Fell(run: Run)

  /** Executes a block up to the first of the other instructions that jumps: `go` says where, given the instruction and
      the state it was given. */
  function Walk(sem: (int, St) -> St, go: (int, St) -> Option<nat>, code: seq<Ins>, s: St): Visit {
    if code == [] then Fell(Run(s, []))
    else
      var v, i := Walk(sem, go, code[..|code| - 1], s), code[|code| - 1];
      if v.Jumped? then v
      else
        var after := Exec1(sem, i, v.run);
        if i.Other? && go(i.code, v.run.state).Some? then Jumped(go(i.code, v.run.state).value, after) else Fell(after)
  }

  /** A run from the start of block k through n blocks, jumping or falling through from one to the next. */
  function Wander(sem: (int, St) -> St, go: (int, St) -> Option<nat>, code: seq<seq<Ins>>, k: nat, s: St, n: nat):
      (nat, Run)
    decreases n
  {
    if n == 0 || k >= |code| then (k, Run(s, []))
    else
      var v := Walk(sem, go, code[k], s);
      var (at, rest) := Wander(sem, go, code, if v.Jumped? then v.target else k + 1, v.run.state, n - 1);
      (at, Run(rest.state, v.run.seen + rest.seen))
  }

  /** The first of the instructions seen that jumps. */
  function FirstJump(go: (int, St) -> Option<nat>, seen: seq<(int, St)>): (k: nat)
    ensures k <= |seen| && (k < |seen| ==> go(seen[k].0, seen[k].1).Some?)
    ensures forall j :: 0 <= j < k ==> go(seen[j].0, seen[j].1).None?
  {
    if seen == [] then 0
    else
      var k := FirstJump(go, seen[..|seen| - 1]);
      if k < |seen| - 1 || go(seen[k].0, seen[k].1).Some? then k else k + 1
  }

  lemma SeenBy(sem: (int, St) -> St, i: Ins, x: Run)
    ensures i.Other? ==> Exec1(sem, i, x) == Run(sem(i.code, x.state), x.seen + [(i.code, x.state)])
    ensures !i.Other? ==> Exec1(sem, i, x).seen == x.seen
  {
  }

  lemma FirstOfMore(go: (int, St) -> Option<nat>, seen: seq<(int, St)>, e: (int, St))
    ensures var k := FirstJump(go, seen);
      FirstJump(go, seen + [e]) == if k < |seen| || go(e.0, e.1).Some? then k else k + 1
  {
    assert (seen + [e])[..|seen|] == seen;
  }

  /** The visit that straight execution x amounts to. */
  function VisitOf(sem: (int, St) -> St, go: (int, St) -> Option<nat>, x: Run): Visit {
    var k := FirstJump(go, x.seen);
    if k == |x.seen| then Fell(x)
    else Jumped(go(x.seen[k].0, x.seen[k].1).value, Run(sem(x.seen[k].0, x.seen[k].1), x.seen[..k + 1]))
  }

  /** Where a pass ends is determined by what straight execution shows. */
  lemma {:induction false} WalkIs(sem: (int, St) -> St, go: (int, St) -> Option<nat>, code: seq<Ins>, s: St)
    ensures Walk(sem, go, code, s) == VisitOf(sem, go, Exec(sem, code, s))
    decreases |code|
  {
    hide Exec1, FirstJump;
    if code == [] {
      NothingSeen(go);
    } else {
      var n := |code| - 1;
      WalkIs(sem, go, code[..n], s);
      var x := Exec(sem, code[..n], s);
      SeenBy(sem, code[n], x);
      if code[n].Other? {
        var e := (code[n].code, x.state);
        FirstOfMore(go, x.seen, e);
        var k := FirstJump(go, x.seen);
        if k < |x.seen| { assert (x.seen + [e])[..k + 1] == x.seen[..k + 1]; }
        assert (x.seen + [e])[..|x.seen| + 1] == x.seen + [e];
      }
    }
  }

  lemma NothingSeen(go: (int, St) -> Option<nat>)
    ensures FirstJump(go, []) == 0
  {
  }

  function CodesOf(blocks: seq<Block>): (c: seq<seq<Ins>>)
    ensures |c| == |blocks| && forall k :: 0 <= k < |blocks| ==> c[k] == blocks[k].code
  {
    seq(|blocks|, k requires 0 <= k < |blocks| => blocks[k].code)
  }

  function PlainsOf(blocks: seq<Block>): (c: seq<seq<Ins>>)
    ensures |c| == |blocks| && forall k :: 0 <= k < |blocks| ==> c[k] == blocks[k].plain
  {
    seq(|blocks|, k requires 0 <= k < |blocks| => blocks[k].plain)
  }

  /** For every meaning of the other instructions, jumps among them included, and from every label: after any number of
      blocks the emitted code is at the same label, in the same state, and has shown the same as the plain code. */
  lemma {:induction false} RunsAgree(sem: (int, St) -> St, go: (int, St) -> Option<nat>, blocks: seq<Block>, k: nat,
      s: St, n: nat)
    requires forall j :: 0 <= j < |blocks| ==> Equivalent(blocks[j].code, blocks[j].plain)
    ensures Wander(sem, go, CodesOf(blocks), k, s, n) == Wander(sem, go, PlainsOf(blocks), k, s, n)
    decreases n
  {
    hide Exec;
    if n > 0 && k < |blocks| {
      WalkIs(sem, go, blocks[k].code, s);
      WalkIs(sem, go, blocks[k].plain, s);
      assert Exec(sem, blocks[k].code, s) == Exec(sem, blocks[k].plain, s);
      var v := Walk(sem, go, blocks[k].code, s);
      RunsAgree(sem, go, blocks, if v.Jumped? then v.target else k + 1, v.run.state, n - 1);
    }
  }

  /** At any time the code emitted so far runs like the plain code, from any label and over any jumps. */
  lemma EmittedRuns(e: Emitter, sem: (int, St) -> St, go: (int, St) -> Option<nat>, k: nat, s: St, n: nat)
    requires e.Valid()
    ensures var all := e.blocks + [Block(e.Current(), e.plain)];
      Wander(sem, go, CodesOf(all), k, s, n) == Wander(sem, go, PlainsOf(all), k, s, n)
  {
    RunsAgree(sem, go, e.blocks + [Block(e.Current(), e.plain)], k, s, n);
  }
}
