/** The module writer (binary/wasm.js): loops that assemble the segment functions and the trampoline out of the resolved
    code buffer, and the whole way from the backend's calls to the running module. */
module WasmWriter {
  import opened Basics
  import opened WasmCore
  import opened Ladder
  import opened Segments
  import opened Wasm32Asm

  /** Slice of label gi in the resolved code; the last of a segment goes on to store the next label's index. */
  function CodeSlice(code: seq<Tok>, offs: seq<nat>, first: nat, n: nat, j: nat): seq<Tok>
    requires first + n <= |offs| && j < n
    requires offs[first + j] <= SliceEnd(offs, first + j, |code|) <= |code|
  {
    code[offs[first + j]..SliceEnd(offs, first + j, |code|)] + if j == n - 1 then [ConstI(first + n), SetPc] else []
  }

  predicate Cuttable(code: seq<Tok>, offs: seq<nat>) {
    forall i :: 0 <= i < |offs| ==> offs[i] <= SliceEnd(offs, i, |code|) <= |code|
  }

  function CodeSlices(code: seq<Tok>, offs: seq<nat>, first: nat, n: nat): (s: seq<seq<Tok>>)
    requires first + n <= |offs| && Cuttable(code, offs)
    ensures |s| == n
  {
    seq(n, j requires 0 <= j < n => CodeSlice(code, offs, first, n, j))
  }

  /** The rungs built so far, without what the last slice goes on to do. */
  function PlainRungs(code: seq<Tok>, offs: seq<nat>, first: nat, j: nat): seq<Tok>
    requires first + j <= |offs| && Cuttable(code, offs)
  {
    if j == 0 then []
    else PlainRungs(code, offs, first, j - 1) + [End] + code[offs[first + j - 1]..SliceEnd(offs, first + j - 1, |code|)]
  }

  lemma {:induction false} PlainRungsAre(code: seq<Tok>, offs: seq<nat>, first: nat, n: nat, j: nat)
    requires first + n <= |offs| && Cuttable(code, offs) && j <= n && n > 0
    ensures Rungs(CodeSlices(code, offs, first, n)[..j]) == PlainRungs(code, offs, first, j) + if j == n then
      [ConstI(first + n), SetPc] else []
    decreases j
  {
    hide SliceEnd;
    if j > 0 {
      var s := CodeSlices(code, offs, first, n);
      PlainRungsAre(code, offs, first, n, j - 1);
      RungsGrow(s, j - 1);
      var cut, tail := code[offs[first + j - 1]..SliceEnd(offs, first + j - 1, |code|)],
        if j == n then [ConstI(first + n), SetPc] else [];
      assert s[j - 1] == cut + tail;
      hide Rungs, CodeSlices, CodeSlice;
      Regroup(PlainRungs(code, offs, first, j - 1), [End], cut, tail);
    }
  }

  /** block_exit, loop, and one block for each of n targets. */
  method PushBlocks(n: nat) returns (body: seq<Tok>)
    ensures body == [Block, Loop] + Blocks(n)
  {
    body := [Block, Loop];
    var i := 0;
    while i < n
      invariant i <= n && body == [Block, Loop] + Blocks(i)
    {
      assert Blocks(i) + [Block] == Blocks(i + 1);
      body := body + [Block];
      i := i + 1;
    }
  }

  method PushRange(head: seq<Tok>, code: seq<Tok>, start: nat, end: nat) returns (body: seq<Tok>)
    requires start <= end <= |code|
    ensures body == head + code[start..end]
  {
    body := head;
    var j := start;
    assert code[start..j] == [];
    while j < end
      invariant start <= j <= end && body == head + code[start..j]
    {
      assert code[start..j] + [code[j]] == code[start..j + 1];
      body := body + [code[j]];
      j := j + 1;
    }
  }

  /** The slices of labels first .. first + n - 1, each behind the `end` of its block. */
  method PushSlices(head: seq<Tok>, code: seq<Tok>, offs: seq<nat>, first: nat, n: nat) returns (body: seq<Tok>)
    requires first + n <= |offs| && Cuttable(code, offs)
    ensures body == head + PlainRungs(code, offs, first, n)
  {
    body := head;
    var i := 0;
    while i < n
      invariant i <= n && body == head + PlainRungs(code, offs, first, i)
    {
      var gi := first + i;
      var segEnd := if gi + 1 < |offs| then offs[gi + 1] else |code|;
      body := body + [End];
      body := PushRange(body, code, offs[gi], segEnd);
      i := i + 1;
    }
  }

  method BuildSegmentBody(code: seq<Tok>, offs: seq<nat>, k: nat, segSize: nat, nLabels: nat)
    returns (body: seq<Tok>, ghost first: nat, ghost n: nat)
    requires segSize > 0 && nLabels == |offs| && Cuttable(code, offs) && k < SegCount(nLabels, segSize)
    ensures first == k * segSize && n == SegLen(nLabels, segSize, k) > 0 && first + n <= nLabels
    ensures body == Build(SegDispatch(n, first), CodeSlices(code, offs, first, n), [End])
  {
    SegBounds(nLabels, segSize, k);
    var from: nat := k * segSize;
    var count: nat := if segSize < nLabels - from then segSize else nLabels - from;
    body := SegmentBody(code, offs, from, count);
    first, n := from, count;
  }

  method SegmentBody(code: seq<Tok>, offs: seq<nat>, first: nat, n: nat) returns (body: seq<Tok>)
    requires first + n <= |offs| && Cuttable(code, offs) && n > 0
    ensures body == Build(SegDispatch(n, first), CodeSlices(code, offs, first, n), [End])
  {
    hide PlainRungs, CodeSlices, Blocks, Rungs;
    body := PushBlocks(n);
    body := body + [GetPc];
    if first > 0 {
      body := body + [ConstI(first), Sub];
    }
    body := body + [BrTable(n, n + 1)];
    ghost var head := [Block, Loop] + Blocks(n) + SegDispatch(n, first);
    assert body == head;
    body := PushSlices(body, code, offs, first, n);
    ghost var slices := CodeSlices(code, offs, first, n);
    PlainRungsAre(code, offs, first, n, n);
    assert slices[..n] == slices;
    body := body + [ConstI(first + n), SetPc, End, End, End];
    assert body == head + Rungs(slices) + [End, End] + [End];
  }

  method BuildTrampolineBody(numSegs: nat, segSize: nat) returns (body: seq<Tok>)
    ensures body == Trampoline(numSegs, segSize)
  {
    body := PushBlocks(numSegs);
    body := body + [GetPc, ConstI(segSize), DivU, BrTable(numSegs, numSegs + 1)];
    var head := [Block, Loop] + Blocks(numSegs) + TrampDispatch(numSegs, segSize);
    var slices := TrampSlices(numSegs);
    var i := 0;
    while i < numSegs
      invariant i <= numSegs && body == head + Rungs(slices[..i])
    {
      RungsGrow(slices, i);
      body := body + [End, Call(1 + i), Br(numSegs - 1 - i)];
      i := i + 1;
    }
    assert slices[..numSegs] == slices;
    body := body + [End, End, Unreachable, End];
    assert body == head + Rungs(slices) + [End, End] + [Unreachable, End];
  }

  // ---------- the whole module ----------

  /** The slices cut from resolved code are those of the resolved program. */
  lemma SlicesAreResolved(names: seq<string>, offs: seq<nat>, segSize: nat, src: seq<STok>, code: seq<Tok>,
      slices: seq<seq<SOp>>, i: nat)
    requires 0 < segSize < 0x8000_0000 && |names| == |offs| && Sorted(offs) && AllSlices(src, offs, slices)
    requires i < |offs|
    requires Patched(names, segSize, offs, src, code) && AllDefined(names, slices)
    ensures offs[i] <= SliceEnd(offs, i, |code|) <= |code|
    ensures code[offs[i]..SliceEnd(offs, i, |code|)] ==
      SliceToks(Resolved(names, slices)[i], Depth(|names|, segSize, i))
  {
    assert SliceIs(src, offs, i, slices[i]);
    CutIsFilled(names, offs, segSize, src, code, i, SymSlice(slices[i]));
    hide Patched, AllSlices, Sorted, SymSlice, SliceToks, Depth, SliceEnd, Filled, Patch, Defined;
    SlicePatched(names, segSize, i, slices[i], Resolved(names, slices)[i], code[offs[i]..SliceEnd(offs, i, |code|)]);
  }

  lemma CutIsFilled(names: seq<string>, offs: seq<nat>, segSize: nat, src: seq<STok>, code: seq<Tok>, i: nat,
      sym: seq<STok>)
    requires segSize > 0 && Sorted(offs) && i < |offs| && Patched(names, segSize, offs, src, code)
    requires offs[i] <= SliceEnd(offs, i, |src|) <= |src| && src[offs[i]..SliceEnd(offs, i, |src|)] == sym
    ensures Filled(names, segSize, i, sym, code[offs[i]..SliceEnd(offs, i, |code|)])
  {
    hide Patch, Defined, LastBefore;
    var a, b := offs[i], SliceEnd(offs, i, |src|);
    forall p | 0 <= p < |sym| ensures Defined(names, sym[p]) && code[a..b][p] == Patch(names, segSize, i, sym[p]) {
      assert sym[p] == src[a..b][p] == src[a + p];
      InSlice(offs, i, a + p, |src|);
    }
  }

  lemma InSlice(offs: seq<nat>, i: nat, off: nat, end: nat)
    requires Sorted(offs) && i < |offs| && offs[i] <= off < SliceEnd(offs, i, end)
    ensures LastBefore(offs, off) == i
  {
  }

  lemma {:induction false} TokensDefined(names: seq<string>, ops: seq<SOp>, k: nat)
    requires k < |ops| && forall p :: 0 <= p < |SymSlice(ops)| ==> Defined(names, SymSlice(ops)[p])
    ensures OpDefined(names, ops[k])
    decreases |ops|
  {
    var n := |ops| - 1;
    var head, last := SymSlice(ops[..n]), SymToks(ops[n]);
    assert SymSlice(ops) == head + last;
    if k < n {
      assert forall p :: 0 <= p < |head| ==> (head + last)[p] == head[p];
      TokensDefined(names, ops[..n], k);
    } else {
      assert forall q :: 0 <= q < |last| ==> (head + last)[|head| + q] == last[q];
      match ops[n]
      case SCall(l, back) => assert Defined(names, last[0]) && Defined(names, last[2]);
      case SCallVia(_, back) => assert Defined(names, last[0]);
      case SJmp(l) => assert Defined(names, last[0]);
      case SJcc(_, l) => assert Defined(names, last[0]);
      case _ =>
    }
  }

  /** Once the fixups have gone through, every label any operation names is defined. */
  lemma NamesDefined(names: seq<string>, offs: seq<nat>, segSize: nat, src: seq<STok>, code: seq<Tok>,
      slices: seq<seq<SOp>>)
    requires segSize > 0 && AllSlices(src, offs, slices) && Patched(names, segSize, offs, src, code)
    ensures AllDefined(names, slices)
  {
    hide Patch, OpDefined, Defined, LastBefore;
    forall i, k | 0 <= i < |slices| && 0 <= k < |slices[i]| ensures OpDefined(names, slices[i][k]) {
      assert SliceIs(src, offs, i, slices[i]);
      var a, b := offs[i], SliceEnd(offs, i, |src|);
      forall p | 0 <= p < |SymSlice(slices[i])| ensures Defined(names, SymSlice(slices[i])[p]) {
        assert src[a..b][p] == src[a + p];
      }
      TokensDefined(names, slices[i], k);
    }
  }

  lemma ResolvedTargets(names: seq<string>, slices: seq<seq<SOp>>)
    requires AllDefined(names, slices) && |names| == |slices|
    ensures Targeted(Resolved(names, slices))
  {
    var prog := Resolved(names, slices);
    forall i, k | 0 <= i < |prog| && 0 <= k < |prog[i]| ensures OpTargeted(prog[i][k], |prog|) {
      assert OpDefined(names, slices[i][k]);
    }
  }

  lemma SegmentIsCut(names: seq<string>, offs: seq<nat>, segSize: nat, src: seq<STok>, code: seq<Tok>,
      slices: seq<seq<SOp>>,
      k: nat, first: nat, n: nat)
    requires 0 < segSize < 0x8000_0000 && |names| == |offs| && Sorted(offs) && AllSlices(src, offs, slices)
    requires Patched(names, segSize, offs, src, code) && AllDefined(names, slices) && Cuttable(code, offs)
    requires Sized(Resolved(names, slices), segSize) && k < SegCount(|names|, segSize)
    requires first == k * segSize && n == SegLen(|names|, segSize, k) && first + n <= |names|
    ensures SegCode(Resolved(names, slices), segSize, k) == CodeSlices(code, offs, first, n)
  {
    forall j | 0 <= j < n ensures SegCode(Resolved(names, slices), segSize, k)[j] ==
      CodeSlice(code, offs, first, n, j) {
      SliceIsCut(names, offs, segSize, src, code, slices, k, first, n, j);
    }
    hide Patched, AllSlices, Sorted, SliceToks, AllDefined, SegCount, Depth, SliceEnd, Cuttable, CodeSlice, SegSlices,
      Resolved;
  }

  predicate StartsAt(segSize: nat, k: nat, first: nat) {
    first == k * segSize
  }

  lemma SliceIsCut(names: seq<string>, offs: seq<nat>, segSize: nat, src: seq<STok>, code: seq<Tok>,
      slices: seq<seq<SOp>>,
      k: nat, first: nat, n: nat, j: nat)
    requires 0 < segSize < 0x8000_0000 && |names| == |offs| && Sorted(offs) && AllSlices(src, offs, slices)
    requires Patched(names, segSize, offs, src, code) && AllDefined(names, slices) && Cuttable(code, offs)
    requires Sized(Resolved(names, slices), segSize) && k < SegCount(|names|, segSize)
    requires StartsAt(segSize, k, first) && n == SegLen(|names|, segSize, k) && first + n <= |names| && j < n
    ensures SegCode(Resolved(names, slices), segSize, k)[j] == CodeSlice(code, offs, first, n, j)
  {
    assert |slices| == |names|;
    SegCodeAt(Resolved(names, slices), segSize, k, first, n, j);
    SlicesAreResolved(names, offs, segSize, src, code, slices, first + j);
    PlaceOf(|names|, segSize, k, first, j);
    hide Resolved, SegCode, StartsAt, Patched, AllSlices, Sorted, SliceToks, AllDefined, SegCount, SegLen, Depth,
      SliceEnd, Cuttable;
  }

  lemma SegCodeAt(prog: Prog, segSize: nat, k: nat, first: nat, n: nat, j: nat)
    requires Sized(prog, segSize) && k < SegCount(|prog|, segSize)
    requires StartsAt(segSize, k, first) && n == SegLen(|prog|, segSize, k) && j < n && first + n <= |prog|
    ensures SegCode(prog, segSize, k)[j] == SliceToks(prog[first + j], n - 1 - j) + if j == n - 1 then
      [ConstI(first + n), SetPc] else []
  {
    hide SegCount, SegLen, SliceToks;
  }

  lemma PlaceOf(n: nat, segSize: nat, k: nat, first: nat, j: nat)
    requires segSize > 0 && k < SegCount(n, segSize) && StartsAt(segSize, k, first) && j < SegLen(n, segSize, k)
    requires first + j < n
    ensures Depth(n, segSize, first + j) == SegLen(n, segSize, k) - 1 - j
  {
    DivIs(first + j, segSize, k);
  }

  /** Refuses a program whose first label is not `_start` at offset 0; otherwise the module is the segmented form of the
      resolved program. */
  method Generate(asm: Wasm32Assembler) returns (r: Option<Module>)
    requires asm.Fixed() && |asm.names| + asm.segSize < 0x8000_0000
    ensures r.Some? <==> asm.names != [] && asm.names[0] == "_start" && asm.offs[0] == 0
    ensures AllDefined(asm.names, asm.slices) && Targeted(Resolved(asm.names, asm.slices))
    ensures r.Some? ==> r.value == Linked(Resolved(asm.names, asm.slices), asm.segSize)
  {
    var names, offs, segSize, code := asm.names, asm.offs, asm.segSize, asm.code;
    ghost var src, slices := asm.src, asm.slices;
    NamesDefined(names, offs, segSize, src, code, slices);
    ResolvedTargets(names, slices);
    if names == [] || names[0] != "_start" || offs[0] != 0 { return None; }
    ghost var prog := Resolved(names, slices);
    forall i | 0 <= i < |offs| ensures offs[i] <= SliceEnd(offs, i, |code|) <= |code| {
      SlicesAreResolved(names, offs, segSize, src, code, slices, i);
    }
    var numSegs := SegCount(|names|, segSize);
    var segs: seq<seq<Tok>> := [];
    var k := 0;
    hide Patched, AllSlices, Sorted, Segment, CodeSlices, SegCount, SegLen, Targeted, AllDefined, Resolved, Cuttable;
    while k < numSegs
      invariant k <= numSegs && |segs| == k
      invariant forall i :: 0 <= i < k ==> segs[i] == Segment(prog, segSize, i)
    {
      var body, first, n := BuildSegmentBody(code, offs, k, segSize, |names|);
      SegmentIsCut(names, offs, segSize, src, code, slices, k, first, n);
      SegmentIs(prog, segSize, k, first, n);
      segs := segs + [body];
      k := k + 1;
    }
    var tramp := BuildTrampolineBody(numSegs, segSize);
    r := Some(Module(segs, tramp));
    assert r.value.segs == Linked(prog, segSize).segs;
  }

  lemma SegmentIs(prog: Prog, segSize: nat, k: nat, first: nat, n: nat)
    requires Sized(prog, segSize) && k < SegCount(|prog|, segSize) && first == k * segSize
    requires n == SegLen(|prog|, segSize, k)
    ensures Segment(prog, segSize, k) == Build(SegDispatch(n, first), SegCode(prog, segSize, k), [End])
  {
  }

  /** A call returns right behind itself: its return label is the next one, unless another label of that
      name follows. */
  lemma ReturnsBehindItself(names: seq<string>, slices: seq<seq<SOp>>, i: nat, k: nat)
    requires CallsClose(names, slices) && AllDefined(names, slices) && i < |slices| && k < |slices[i]|
    requires IsCall(slices[i][k])
    requires forall j :: i + 1 < j < |names| ==> names[j] != slices[i][k].back
    ensures Resolved(names, slices)[i][k].back == i + 1
  {
    assert OpDefined(names, slices[i][k]);
  }
}
