/** The wasm32 assembler and the backend calls that feed it (asm/wasm32.js, backend/wasm32.js), and the module writer's
    two body builders (binary/wasm.js): what comes out is the segmented module of the program that was asked for. */
module Wasm32Asm {
  import opened Basics
  import opened WasmCore
  import opened Ladder
  import opened Segments
  import Leb128

  // ---------- what the backend is asked for, by label names ----------

  datatype SOp =
    | SWork(code: int)
    | SJmp(name: string)
    | SJcc(code: int, name: string)
    | SJmpVia(code: int)
    | SCall(name: string, back: string)
    | SCallVia(code: int, back: string)

  /** A token whose number may still be open. */
  datatype STok = Plain(tok: Tok) | ToLoop(cond: bool, extra: nat) | IndexOf(name: string) | AddressOf(name: string)

  function SymToks(op: SOp): seq<STok> {
    match op
    case SWork(c) => [Plain(Basic(c))]
    case SJmp(l) => [IndexOf(l), Plain(SetPc), ToLoop(false, 0)]
    case SJcc(c, l) => [IndexOf(l), Plain(SetPc), Plain(Cond(c)), ToLoop(true, 0)]
    case SJmpVia(c) => [Plain(PcFrom(c)), ToLoop(false, 0)]
    case SCall(l, back) => [AddressOf(back), Plain(SetLr), IndexOf(l), Plain(SetPc), ToLoop(false, 0)]
    case SCallVia(c, back) => [AddressOf(back), Plain(PcFrom(c)), Plain(SetLr), ToLoop(false, 0)]
  }

  function SymSlice(ops: seq<SOp>): seq<STok> {
    if ops == [] then [] else SymSlice(ops[..|ops| - 1]) + SymToks(ops[|ops| - 1])
  }

  // ---------- resolving names ----------

  /** A name defined twice means its last definition. */
  function LastIndex(names: seq<string>, name: string): (i: int)
    ensures -1 <= i < |names|
    ensures i >= 0 ==> names[i] == name && forall j :: i < j < |names| ==> names[j] != name
    ensures i < 0 ==> name !in names
  {
    if names == [] then -1
    else if names[|names| - 1] == name then |names| - 1
    else LastIndex(names[..|names| - 1], name)
  }

  predicate Defined(names: seq<string>, t: STok) {
    match t
    case IndexOf(l) => l in names
    case AddressOf(l) => l in names
    case _ => true
  }

  predicate OpDefined(names: seq<string>, op: SOp) {
    match op
    case SJmp(l) => l in names
    case SJcc(_, l) => l in names
    case SCall(l, back) => l in names && back in names
    case SCallVia(_, back) => back in names
    case _ => true
  }

  function Resolve(names: seq<string>, op: SOp): VOp
    requires OpDefined(names, op)
  {
    match op
    case SWork(c) => Work(c)
    case SJmp(l) => Jmp(LastIndex(names, l))
    case SJcc(c, l) => Jcc(c, LastIndex(names, l))
    case SJmpVia(c) => JmpVia(c)
    case SCall(l, back) => CallTo(LastIndex(names, l), LastIndex(names, back))
    case SCallVia(c, back) => CallVia(c, LastIndex(names, back))
  }

  predicate AllDefined(names: seq<string>, slices: seq<seq<SOp>>) {
    forall i, k :: 0 <= i < |slices| && 0 <= k < |slices[i]| ==> OpDefined(names, slices[i][k])
  }

  function Resolved(names: seq<string>, slices: seq<seq<SOp>>): (prog: Prog)
    requires AllDefined(names, slices)
    ensures |prog| == |slices|
  {
    seq(|slices|, i requires 0 <= i < |slices| =>
      seq(|slices[i]|, k requires 0 <= k < |slices[i]| => Resolve(names, slices[i][k])))
  }

  predicate Sorted(offs: seq<nat>) {
    forall i, j :: 0 <= i <= j < |offs| ==> offs[i] <= offs[j]
  }

  /** The last label at or before a position; 0 if there is none. */
  function LastBefore(offs: seq<nat>, off: nat): (li: nat)
    ensures if offs == [] || off < offs[0] then li == 0 || !Sorted(offs) else li < |offs| && offs[li] <= off
    ensures forall j :: li < j < |offs| ==> off < offs[j]
  {
    if offs == [] then 0
    else if offs[|offs| - 1] <= off then |offs| - 1
    else LastBefore(offs[..|offs| - 1], off)
  }

  /** The depth as computed: of the loop of li's own segment. */
  function RawDepth(n: nat, segSize: nat, li: nat): int
    requires segSize > 0
  {
    var base := li / segSize * segSize;
    Min(segSize, n - base) - 1 - (li - base)
  }

  /** What a branch placed after label li gets in the bytes set aside for it. */
  function DepthField(n: nat, segSize: nat, li: nat, extra: nat): nat
    requires segSize > 0
  {
    Low(U32(RawDepth(n, segSize, li) + extra), Pow2(7 * Leb128.UlebLen(segSize + 2)))
  }

  function Low(d: nat, p: nat): (r: nat)
    requires p > 0
    ensures d < p ==> r == d
  {
    d % p
  }

  /** For code behind a label nothing is lost in those bytes. */
  lemma DepthFits(n: nat, segSize: nat, li: nat, extra: nat)
    requires segSize > 0 && li < n && extra <= 2 && segSize < 0x8000_0000
    ensures DepthField(n, segSize, li, extra) == Depth(n, segSize, li) + extra
    ensures Depth(n, segSize, li) + extra < Pow2(7 * Leb128.UlebLen(segSize + 2))
  {
    DepthIs(n, segSize, li);
    Leb128.WideEnough(segSize + 2);
    hide Depth, RawDepth, Low;
  }

  lemma DepthIs(n: nat, segSize: nat, li: nat)
    requires segSize > 0 && li < n
    ensures Depth(n, segSize, li) == RawDepth(n, segSize, li) < segSize
  {
    SegOf(n, segSize, li);
  }

  function Patch(names: seq<string>, segSize: nat, li: nat, t: STok): Tok
    requires segSize > 0 && Defined(names, t)
  {
    match t
    case Plain(tok) => tok
    case ToLoop(cond, extra) =>
      var d := DepthField(|names|, segSize, li, extra);
      if cond then BrIf(d) else Br(d)
    case IndexOf(l) => ConstI(LastIndex(names, l))
    case AddressOf(l) => Const64(CODE_BASE + LastIndex(names, l))
  }

  /** toks is src with everything filled in. */
  predicate Filled(names: seq<string>, segSize: nat, li: nat, src: seq<STok>, toks: seq<Tok>)
    requires segSize > 0
  {
    |toks| == |src| && forall p :: 0 <= p < |src| ==>
      Defined(names, src[p]) && toks[p] == Patch(names, segSize, li, src[p])
  }

  lemma {:induction false} SlicePatched(names: seq<string>, segSize: nat, li: nat, ops: seq<SOp>, resolved: seq<VOp>,
      toks: seq<Tok>)
    requires segSize > 0 && li < |names| && segSize < 0x8000_0000
    requires |resolved| == |ops| && forall k :: 0 <= k < |ops| ==>
      OpDefined(names, ops[k]) && resolved[k] == Resolve(names, ops[k])
    requires Filled(names, segSize, li, SymSlice(ops), toks)
    ensures toks == SliceToks(resolved, Depth(|names|, segSize, li))
    decreases |ops|
  {
    hide SymToks, ToksOf, Depth, Resolve, Patch, OpDefined, Defined;
    if ops != [] {
      var n := |ops| - 1;
      var head, last := SymSlice(ops[..n]), SymToks(ops[n]);
      SplitFilled(names, segSize, li, head, last, toks);
      SlicePatched(names, segSize, li, ops[..n], resolved[..n], toks[..|head|]);
      OpPatched(names, segSize, li, ops[n], toks[|head|..]);
      assert toks == toks[..|head|] + toks[|head|..];
    }
  }

  lemma SplitFilled(names: seq<string>, segSize: nat, li: nat, a: seq<STok>, b: seq<STok>, toks: seq<Tok>)
    requires segSize > 0 && Filled(names, segSize, li, a + b, toks)
    ensures Filled(names, segSize, li, a, toks[..|a|]) && Filled(names, segSize, li, b, toks[|a|..])
  {
    hide Patch, Defined;
    assert forall p :: 0 <= p < |a| ==> (a + b)[p] == a[p];
    assert forall p :: 0 <= p < |b| ==> (a + b)[|a| + p] == b[p];
  }

  lemma OpPatched(names: seq<string>, segSize: nat, li: nat, op: SOp, toks: seq<Tok>)
    requires segSize > 0 && li < |names| && segSize < 0x8000_0000 && OpDefined(names, op)
    requires Filled(names, segSize, li, SymToks(op), toks)
    ensures toks == ToksOf(Resolve(names, op), Depth(|names|, segSize, li))
  {
    DepthFits(|names|, segSize, li, 0);
    hide Depth, DepthField;
    var want := ToksOf(Resolve(names, op), Depth(|names|, segSize, li));
    assert |want| == |toks|;
    forall q | 0 <= q < |toks| ensures toks[q] == want[q] {
      assert toks[q] == Patch(names, segSize, li, SymToks(op)[q]);
    }
  }

  // ---------- fixups ----------

  datatype Fixup = BrFixup(offset: nat, extra: nat) | PcFixup(offset: nat, name: string) | Abs64Fixup(offset: nat,
    name: string)

  function Placeholder(t: STok): Tok {
    match t
    case Plain(tok) => tok
    case ToLoop(cond, _) => if cond then BrIf(0) else Br(0)
    case IndexOf(_) => ConstI(0)
    case AddressOf(_) => Const64(0)
  }

  function FixupOf(p: nat, t: STok): seq<Fixup> {
    match t
    case Plain(_) => []
    case ToLoop(_, extra) => [BrFixup(p, extra)]
    case IndexOf(l) => [PcFixup(p, l)]
    case AddressOf(l) => [Abs64Fixup(p, l)]
  }

  function FixupsOf(src: seq<STok>): seq<Fixup> {
    if src == [] then [] else FixupsOf(src[..|src| - 1]) + FixupOf(|src| - 1, src[|src| - 1])
  }

  /** How many fixups come before position p. */
  function Turn(src: seq<STok>, p: nat): nat
    requires p <= |src|
  {
    |FixupsOf(src[..p])|
  }

  /** Every open position has its fixup, ... */
  lemma {:induction false} HasFixup(src: seq<STok>, p: nat)
    requires p < |src| && !src[p].Plain?
    ensures Turn(src, p) < |FixupsOf(src)| && FixupOf(p, src[p]) == [FixupsOf(src)[Turn(src, p)]]
    decreases |src|
  {
    var n := |src| - 1;
    if p < n {
      assert src[..n][..p] == src[..p];
      HasFixup(src[..n], p);
    }
  }

  /** ... and every fixup its open position. */
  lemma {:induction false} HasPosition(src: seq<STok>, i: nat)
    requires i < |FixupsOf(src)|
    ensures var p := FixupsOf(src)[i].offset; p < |src| && !src[p].Plain? && Turn(src, p) == i
    decreases |src|
  {
    var n := |src| - 1;
    if i < |FixupsOf(src[..n])| {
      HasPosition(src[..n], i);
      var p := FixupsOf(src)[i].offset;
      assert src[..n][..p] == src[..p];
    }
  }

  // ---------- resolving ----------

  /** Binary search for the label a position belongs to. */
  method SegmentOf(offs: seq<nat>, off: nat) returns (lo: nat)
    requires Sorted(offs)
    ensures lo == LastBefore(offs, off)
  {
    lo := 0;
    var hi: int := |offs| - 1;
    if hi < 0 || off < offs[0] { return; }
    while lo < hi
      invariant 0 <= lo <= hi < |offs| && offs[lo] <= off
      invariant forall j :: hi < j < |offs| ==> off < offs[j]
    {
      var mid := (lo + hi + 1) / 2;
      if offs[mid] <= off { lo := mid; } else { hi := mid - 1; }
    }
  }

  /** The numbering of the labels; a later definition of a name replaces an earlier one. */
  method LabelIndex(names: seq<string>) returns (idx: map<string, nat>)
    ensures forall l :: l in idx <==> l in names
    ensures forall l :: l in idx ==> idx[l] == LastIndex(names, l)
  {
    idx := map[];
    var i := 0;
    while i < |names|
      invariant i <= |names|
      invariant forall l :: l in idx <==> l in names[..i]
      invariant forall l :: l in idx ==> idx[l] == LastIndex(names[..i], l)
    {
      assert names[..i + 1][..i] == names[..i];
      idx := idx[names[i] := i];
      i := i + 1;
    }
    assert names[..i] == names;
  }

  // ---------- the assembler ----------

  function Append(slices: seq<seq<SOp>>, op: SOp): (r: seq<seq<SOp>>)
    ensures |r| == |slices|
  {
    if slices == [] then [] else slices[..|slices| - 1] + [slices[|slices| - 1] + [op]]
  }

  predicate IsCall(op: SOp) {
    op.SCall? || op.SCallVia?
  }

  /** A call ends its slice, and its return label opens the next. */
  predicate CallsClose(names: seq<string>, slices: seq<seq<SOp>>) {
    forall i, k :: 0 <= i < |slices| && 0 <= k < |slices[i]| && IsCall(slices[i][k]) ==>
      k == |slices[i]| - 1 && i + 1 < |names| && names[i + 1] == slices[i][k].back
  }

  function SliceEnd(offs: seq<nat>, i: nat, end: nat): nat {
    if i + 1 < |offs| then offs[i + 1] else end
  }

  predicate SliceIs(src: seq<STok>, offs: seq<nat>, i: nat, ops: seq<SOp>) {
    i < |offs| && offs[i] <= SliceEnd(offs, i, |src|) <= |src|
      && src[offs[i]..SliceEnd(offs, i, |src|)] == SymSlice(ops)
  }

  predicate AllSlices(src: seq<STok>, offs: seq<nat>, slices: seq<seq<SOp>>) {
    |slices| == |offs| && forall i :: 0 <= i < |slices| ==> SliceIs(src, offs, i, slices[i])
  }

  class Wasm32Assembler {
    var code: seq<Tok>
    var names: seq<string>
    var offs: seq<nat>
    var fixups: seq<Fixup>
    var retCounter: nat
    const segSize: nat
    ghost var src: seq<STok>
    ghost var slices: seq<seq<SOp>>

    /** The buffer holds what was asked for, with placeholders for what is open. */
    ghost predicate Tracks()
      reads this
    {
      && segSize > 0 && |code| == |src| && fixups == FixupsOf(src)
      && (forall p :: 0 <= p < |src| ==> code[p] == Placeholder(src[p]))
      && |names| == |offs| && Sorted(offs) && (offs != [] ==> offs[|offs| - 1] <= |code|)
    }

    ghost predicate Valid()
      reads this
    {
      Tracks() && AllSlices(src, offs, slices) && CallsClose(names, slices)
    }

    constructor (segSize: nat)
      requires segSize > 0
      ensures Valid() && code == [] && names == [] && this.segSize == segSize
    {
      this.segSize := segSize;
      code, names, offs, fixups, retCounter := [], [], [], [], 0;
      src, slices := [], [];
    }

    method Emit(t: Tok)
      requires Tracks()
      modifies this`code, this`src
      ensures Tracks() && src == old(src) + [Plain(t)]
    {
      code := code + [t];
      src := src + [Plain(t)];
    }

    method AddPcFixup(name: string)
      requires Tracks()
      modifies this`code, this`src, this`fixups
      ensures Tracks() && src == old(src) + [IndexOf(name)]
    {
      fixups := fixups + [PcFixup(|code|, name)];
      code := code + [ConstI(0)];
      src := src + [IndexOf(name)];
    }

    method AddAbs64Fixup(name: string)
      requires Tracks()
      modifies this`code, this`src, this`fixups
      ensures Tracks() && src == old(src) + [AddressOf(name)]
    {
      fixups := fixups + [Abs64Fixup(|code|, name)];
      code := code + [Const64(0)];
      src := src + [AddressOf(name)];
    }

    method AddBrDepthFixup(cond: bool, extra: nat)
      requires Tracks()
      modifies this`code, this`src, this`fixups
      ensures Tracks() && src == old(src) + [ToLoop(cond, extra)]
    {
      fixups := fixups + [BrFixup(|code|, extra)];
      code := code + [if cond then BrIf(0) else Br(0)];
      src := src + [ToLoop(cond, extra)];
    }

    method Label(name: string)
      requires Tracks() && AllSlices(src, offs, slices) && CallsClose(names + [name], slices)
      modifies this`names, this`offs, this`slices
      ensures Valid() && names == old(names) + [name] && offs == old(offs) + [|code|] && slices == old(slices) + [[]]
    {
      LabelOpens(src, offs, slices);
      names := names + [name];
      offs := offs + [|code|];
      slices := slices + [[]];
    }

    // ----- the backend's calls -----

    method Work(c: int)
      requires Valid()
      modifies this
      ensures Valid() && names == old(names) && offs == old(offs) && slices == Append(old(slices), SWork(c))
    {
      Emit(Basic(c));
      OpDone(old(src), SWork(c));
    }

    /** pc := index of a label that may not be known yet. */
    method SetPcTo(name: string)
      requires Tracks()
      modifies this`code, this`src, this`fixups
      ensures Tracks() && src == old(src) + [IndexOf(name), Plain(SetPc)]
    {
      AddPcFixup(name);
      Emit(SetPc);
    }

    method Jump(name: string)
      requires Valid()
      modifies this
      ensures Valid() && names == old(names) && offs == old(offs) && slices == Append(old(slices), SJmp(name))
    {
      SetPcTo(name);
      AddBrDepthFixup(false, 0);
      OpDone(old(src), SJmp(name));
    }

    /** pc is set whether or not the branch is taken. */
    method JumpIf(c: int, name: string)
      requires Valid()
      modifies this
      ensures Valid() && names == old(names) && offs == old(offs) && slices == Append(old(slices), SJcc(c, name))
    {
      hide AllSlices, CallsClose, FixupsOf, Append;
      SetPcTo(name);
      Emit(Cond(c));
      AddBrDepthFixup(true, 0);
      OpDone(old(src), SJcc(c, name));
    }

    /** Also `ret`, through the link register. */
    method JumpIndirect(c: int)
      requires Valid()
      modifies this
      ensures Valid() && names == old(names) && offs == old(offs) && slices == Append(old(slices), SJmpVia(c))
    {
      Emit(PcFrom(c));
      AddBrDepthFixup(false, 0);
      OpDone(old(src), SJmpVia(c));
    }

    method NextReturnLabel() returns (name: string)
      modifies this`retCounter
      ensures name == "_wret" + Shown(old(retCounter)) && retCounter == old(retCounter) + 1
    {
      name := "_wret" + Shown(retCounter);
      retCounter := retCounter + 1;
    }

    method EmitCall(name: string, ret: string)
      requires Tracks()
      modifies this`code, this`src, this`fixups
      ensures Tracks() && src == old(src) + SymToks(SCall(name, ret))
    {
      hide FixupsOf, Sorted, Placeholder, FixupOf, Tracks;
      AddAbs64Fixup(ret);
      Emit(SetLr);
      SetPcTo(name);
      AddBrDepthFixup(false, 0);
    }

    method Call(name: string) returns (ghost back: string)
      requires Valid()
      modifies this
      ensures Valid() && retCounter == old(retCounter) + 1 && back == "_wret" + Shown(old(retCounter))
      ensures names == old(names) + [back] && offs == old(offs) + [|code|]
      ensures slices == Append(old(slices), SCall(name, back)) + [[]]
    {
      var ret := NextReturnLabel();
      back := ret;
      assert Tracks() && AllSlices(src, offs, slices) && CallsClose(names, slices);
      hide FixupsOf, Sorted, Placeholder, FixupOf, Tracks, SymToks, Append, CallsClose, AllSlices;
      EmitCall(name, ret);
      CallDone(old(src), SCall(name, back));
      Label(ret);
    }

    /** The target is read before the link register is written: the register may be the link register. */
    method EmitCallIndirect(c: int, ret: string)
      requires Tracks()
      modifies this`code, this`src, this`fixups
      ensures Tracks() && src == old(src) + SymToks(SCallVia(c, ret))
    {
      hide FixupsOf, Sorted, Placeholder, FixupOf, Tracks;
      AddAbs64Fixup(ret);
      Emit(PcFrom(c));
      Emit(SetLr);
      AddBrDepthFixup(false, 0);
    }

    method CallIndirect(c: int) returns (ghost back: string)
      requires Valid()
      modifies this
      ensures Valid() && retCounter == old(retCounter) + 1 && back == "_wret" + Shown(old(retCounter))
      ensures names == old(names) + [back] && offs == old(offs) + [|code|]
      ensures slices == Append(old(slices), SCallVia(c, back)) + [[]]
    {
      var ret := NextReturnLabel();
      back := ret;
      assert Tracks() && AllSlices(src, offs, slices) && CallsClose(names, slices);
      hide FixupsOf, Sorted, Placeholder, FixupOf, Tracks, SymToks, Append, CallsClose, AllSlices;
      EmitCallIndirect(c, ret);
      CallDone(old(src), SCallVia(c, back));
      Label(ret);
    }

    ghost method OpDone(was: seq<STok>, op: SOp)
      requires Tracks() && AllSlices(was, offs, slices) && CallsClose(names, slices) && src == was + SymToks(op)
      requires !IsCall(op)
      modifies this`slices
      ensures Valid() && slices == Append(old(slices), op)
    {
      OpAppended(was, src, offs, slices, op);
      slices := Append(slices, op);
    }

    ghost method CallDone(was: seq<STok>, op: SOp)
      requires Tracks() && AllSlices(was, offs, slices) && CallsClose(names, slices) && src == was + SymToks(op)
      requires IsCall(op)
      modifies this`slices
      ensures Tracks() && AllSlices(src, offs, slices) && CallsClose(names + [op.back], slices)
      ensures slices == Append(old(slices), op)
    {
      OpAppended(was, src, offs, slices, op);
      CallAppended(names, slices, op);
      slices := Append(slices, op);
    }

    // ----- resolving -----

    /** The code after resolution. */
    ghost predicate Fixed()
      reads this
    {
      && segSize > 0 && |code| == |src| && |names| == |offs| && Sorted(offs)
      && AllSlices(src, offs, slices) && CallsClose(names, slices) && Patched(names, segSize, offs, src, code)
    }

    /** One fixup: fails if its label has not been defined. */
    method PatchFixup(fixup: Fixup, idx: map<string, nat>) returns (ok: bool)
      requires segSize > 0 && |names| == |offs| && Sorted(offs) && |code| == |src|
      requires fixup.offset < |src| && FixupOf(fixup.offset, src[fixup.offset]) == [fixup]
      requires code[fixup.offset] == Placeholder(src[fixup.offset])
      requires forall l :: l in idx <==> l in names
      requires forall l :: l in idx ==> idx[l] == LastIndex(names, l)
      modifies this`code
      ensures ok <==> Defined(names, src[fixup.offset])
      ensures var p := fixup.offset; ok ==> code == old(code)[p := Patch(names, segSize, LastBefore(offs, p), src[p])]
      ensures |code| == |src|
    {
      match fixup {
        case BrFixup(off, extra) =>
          var li := SegmentOf(offs, off);
          var depth := DepthField(|names|, segSize, li, extra);
          code := code[off := if code[off].BrIf? then BrIf(depth) else Br(depth)];
        case PcFixup(off, name) =>
          if name !in idx { return false; }
          code := code[off := ConstI(idx[name])];
        case Abs64Fixup(off, name) =>
          if name !in idx { return false; }
          code := code[off := Const64(CODE_BASE + idx[name])];
      }
      ok := true;
    }

    /** Fails exactly when a label that is asked for has not been defined. */
    method FixupAll() returns (ok: bool)
      requires Valid()
      modifies this`code
      ensures ok <==> forall p :: 0 <= p < |src| ==> Defined(names, src[p])
      ensures ok ==> Fixed()
    {
      hide Patch, Defined, Placeholder, FixupOf, FixupsOf, Turn, LastBefore, LastIndex, SymSlice;
      var idx := LabelIndex(names);
      forall p | 0 <= p < |src| && !src[p].Plain?
        ensures Turn(src, p) < |fixups| && FixupOf(p, src[p]) == [fixups[Turn(src, p)]]
        ensures fixups[Turn(src, p)].offset == p {
        HasFixup(src, p);
        FixupNames(p, src[p]);
      }
      forall p | 0 <= p < |src| && src[p].Plain?
        ensures Defined(names, src[p]) && Placeholder(src[p]) == Patch(names, segSize, LastBefore(offs, p), src[p]) {
        PlainIsDone(names, segSize, LastBefore(offs, p), src[p]);
      }
      var i := 0;
      while i < |fixups|
        invariant i <= |fixups| && |code| == |src|
        invariant forall p :: 0 <= p < |src| && (src[p].Plain? || Turn(src, p) >= i) ==> code[p] == Placeholder(src[p])
        invariant forall p :: 0 <= p < |src| && !src[p].Plain? && Turn(src, p) < i ==>
          Defined(names, src[p]) && code[p] == Patch(names, segSize, LastBefore(offs, p), src[p])
      {
        HasPosition(src, i);
        ok := PatchFixup(fixups[i], idx);
        if !ok { return; }
        i := i + 1;
      }
      ok := true;
    }
  }

  /** Every position holds what its label's place in the module requires. */
  predicate Patched(names: seq<string>, segSize: nat, offs: seq<nat>, src: seq<STok>, code: seq<Tok>)
    requires segSize > 0
  {
    |code| == |src| &&
    forall p :: 0 <= p < |src| ==>
      Defined(names, src[p]) && code[p] == Patch(names, segSize, LastBefore(offs, p), src[p])
  }

  lemma FixupNames(p: nat, t: STok)
    requires !t.Plain?
    ensures |FixupOf(p, t)| == 1 && FixupOf(p, t)[0].offset == p
  {
  }

  lemma PlainIsDone(names: seq<string>, segSize: nat, li: nat, t: STok)
    requires t.Plain? && segSize > 0
    ensures Defined(names, t) && Placeholder(t) == Patch(names, segSize, li, t)
  {
  }

  lemma LabelOpens(src: seq<STok>, offs: seq<nat>, slices: seq<seq<SOp>>)
    requires AllSlices(src, offs, slices)
    ensures AllSlices(src, offs + [|src|], slices + [[]])
  {
    forall i | 0 <= i < |slices| ensures SliceIs(src, offs + [|src|], i, slices[i]) {
      assert SliceIs(src, offs, i, slices[i]);
    }
    assert SliceIs(src, offs + [|src|], |slices|, []);
  }

  lemma CallAppended(names: seq<string>, slices: seq<seq<SOp>>, op: SOp)
    requires CallsClose(names, slices) && IsCall(op) && |names| == |slices|
    ensures CallsClose(names + [op.back], Append(slices, op))
  {
  }

  lemma OpAppended(was: seq<STok>, now: seq<STok>, offs: seq<nat>, slices: seq<seq<SOp>>, op: SOp)
    requires AllSlices(was, offs, slices) && Sorted(offs) && now == was + SymToks(op)
    ensures AllSlices(now, offs, Append(slices, op))
  {
    hide SymToks;
    var r, last := Append(slices, op), |slices| - 1;
    forall i | 0 <= i < |r| ensures SliceIs(now, offs, i, r[i]) {
      assert SliceIs(was, offs, i, slices[i]);
      if i < last {
        SameSlice(was, SymToks(op), offs, i, slices[i]);
      } else {
        GrownSlice(was, offs, i, slices[i], op);
      }
    }
  }

  lemma SameSlice(was: seq<STok>, more: seq<STok>, offs: seq<nat>, i: nat, ops: seq<SOp>)
    requires SliceIs(was, offs, i, ops) && i + 1 < |offs|
    ensures SliceIs(was + more, offs, i, ops)
  {
    assert (was + more)[offs[i]..offs[i + 1]] == was[offs[i]..offs[i + 1]];
  }

  lemma GrownSlice(was: seq<STok>, offs: seq<nat>, i: nat, ops: seq<SOp>, op: SOp)
    requires SliceIs(was, offs, i, ops) && i + 1 == |offs|
    ensures SliceIs(was + SymToks(op), offs, i, ops + [op])
  {
    hide SymToks;
    assert (ops + [op])[..|ops|] == ops;
    assert (was + SymToks(op))[offs[i]..] == was[offs[i]..] + SymToks(op);
  }
}
