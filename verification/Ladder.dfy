/** The shape shared by segment functions and the trampoline (binary/wasm.js): a block to leave by, the dispatch loop,
    one block per target, the dispatch, and then the targets' code, each behind the `end` of its block. */
module Ladder {
  import opened WasmCore

  predicate Flat(toks: seq<Tok>) {
    forall i :: 0 <= i < |toks| ==> !Structural(toks[i])
  }

  function Blocks(n: nat): (b: seq<Tok>)
    ensures |b| == n && forall i :: 0 <= i < n ==> b[i] == Block
  {
    seq(n, _ => Block)
  }

  function Rungs(slices: seq<seq<Tok>>): seq<Tok> {
    if slices == [] then []
    else Rungs(slices[..|slices| - 1]) + [End] + slices[|slices| - 1]
  }

  function Build(dispatch: seq<Tok>, slices: seq<seq<Tok>>, rest: seq<Tok>): seq<Tok> {
    [Block, Loop] + Blocks(|slices|) + dispatch + Rungs(slices) + [End, End] + rest
  }

  /** Position of the `end` in front of slice i; i == n is the end of the loop and i == n + 1 that of the
      outer block. */
  function EndPos(dispatch: seq<Tok>, slices: seq<seq<Tok>>, i: nat): nat
    requires i <= |slices| + 1
  {
    if i <= |slices| then 2 + |slices| + |dispatch| + |Rungs(slices[..i])|
    else 2 + |slices| + |dispatch| + |Rungs(slices)| + 1
  }

  predicate Wellformed(dispatch: seq<Tok>, slices: seq<seq<Tok>>) {
    Flat(dispatch) && forall i :: 0 <= i < |slices| ==> Flat(slices[i])
  }

  lemma RungsGrow(slices: seq<seq<Tok>>, i: nat)
    requires i < |slices|
    ensures Rungs(slices[..i + 1]) == Rungs(slices[..i]) + [End] + slices[i]
  {
    assert slices[..i + 1][..i] == slices[..i];
  }

  /** Each slice is where its position says. */
  lemma {:induction false} RungsHold(slices: seq<seq<Tok>>, i: nat)
    requires i < |slices|
    ensures var p := |Rungs(slices[..i])|;
      p + 1 + |slices[i]| <= |Rungs(slices)| && Rungs(slices)[p] == End
        && Rungs(slices)[p + 1..p + 1 + |slices[i]|] == slices[i]
      && |Rungs(slices[..i + 1])| == p + 1 + |slices[i]|
    decreases |slices|
  {
    RungsGrow(slices, i);
    var n := |slices| - 1;
    if i < n {
      RungsHold(slices[..n], i);
      assert slices[..n][..i] == slices[..i];
    } else {
      assert slices[..i + 1] == slices;
    }
  }

  lemma Within<T>(whole: seq<T>, part: seq<T>, b: nat, p: nat, piece: seq<T>)
    requires b + |part| <= |whole| && whole[b..b + |part|] == part
    requires p + |piece| <= |part| && part[p..p + |piece|] == piece
    ensures b + p + |piece| <= |whole| && whole[b + p..b + p + |piece|] == piece
  {
    forall q | 0 <= q < |piece| ensures whole[b + p + q] == piece[q] {
      assert part[p + q] == whole[b..b + |part|][p + q];
      assert piece[q] == part[p..p + |piece|][q];
    }
  }

  lemma RungsPlaced(dispatch: seq<Tok>, slices: seq<seq<Tok>>, rest: seq<Tok>)
    ensures var code, b := Build(dispatch, slices, rest), 2 + |slices| + |dispatch|;
      b + |Rungs(slices)| + 2 <= |code| && code[b..b + |Rungs(slices)|] == Rungs(slices)
  {
  }

  lemma SliceAt(dispatch: seq<Tok>, slices: seq<seq<Tok>>, rest: seq<Tok>, i: nat)
    requires i < |slices|
    ensures var code, p := Build(dispatch, slices, rest), EndPos(dispatch, slices, i);
      EndPos(dispatch, slices, i + 1) == p + 1 + |slices[i]| < |code| && code[p] == End
        && code[p + 1..p + 1 + |slices[i]|] == slices[i]
  {
    RungsHold(slices, i);
    hide Rungs;
    var code, b := Build(dispatch, slices, rest), 2 + |slices| + |dispatch|;
    RungsPlaced(dispatch, slices, rest);
    hide Build;
    var p := |Rungs(slices[..i])|;
    Within(code, Rungs(slices), b, p, [End]);
    Within(code, Rungs(slices), b, p + 1, slices[i]);
    assert code[b + p] == code[b + p..b + p + 1][0];
    if i + 1 == |slices| { assert slices[..i + 1] == slices; }
  }

  lemma TailAt(dispatch: seq<Tok>, slices: seq<seq<Tok>>, rest: seq<Tok>)
    ensures var code, p := Build(dispatch, slices, rest), EndPos(dispatch, slices, |slices|);
      && EndPos(dispatch, slices, |slices| + 1) == p + 1 && |code| == p + 2 + |rest|
      && code[p] == End && code[p + 1] == End && code[p + 2..] == rest
  {
    assert slices[..|slices|] == slices;
  }

  lemma HeadAt(dispatch: seq<Tok>, slices: seq<seq<Tok>>, rest: seq<Tok>)
    ensures var code, n := Build(dispatch, slices, rest), |slices|;
      && code[0] == Block && code[1] == Loop && (forall p :: 2 <= p < 2 + n ==> code[p] == Block)
      && code[2 + n..2 + n + |dispatch|] == dispatch && EndPos(dispatch, slices, 0) == 2 + n + |dispatch| < |code|
  {
  }

  // ---------- which end closes which block ----------

  lemma {:induction false} SkipFlat(code: seq<Tok>, i: nat, j: nat, d: nat)
    requires i <= j <= |code| && forall k :: i <= k < j ==> !Structural(code[k])
    ensures Match(code, i, d) == Match(code, j, d)
    decreases j - i
  {
    if i < j {
      SkipFlat(code, i + 1, j, d);
    }
  }

  lemma {:induction false} EndsClose(dispatch: seq<Tok>, slices: seq<seq<Tok>>, rest: seq<Tok>, i: nat, d: nat)
    requires Wellformed(dispatch, slices) && i + d <= |slices| + 1
    ensures Match(Build(dispatch, slices, rest), EndPos(dispatch, slices, i), d) == EndPos(dispatch, slices, i + d)
    decreases d
  {
    hide Build, Rungs, EndPos;
    var code, p := Build(dispatch, slices, rest), EndPos(dispatch, slices, i);
    TailAt(dispatch, slices, rest);
    if i < |slices| {
      SliceAt(dispatch, slices, rest, i);
      if d > 0 {
        assert forall k :: p + 1 <= k < p + 1 + |slices[i]| ==> code[k] == slices[i][k - p - 1];
        SkipFlat(code, p + 1, p + 1 + |slices[i]|, d - 1);
        EndsClose(dispatch, slices, rest, i + 1, d - 1);
      }
    } else if d > 0 {
      EndsClose(dispatch, slices, rest, i + 1, d - 1);
    }
  }

  /** The block opened at 2 + b closes in front of slice n - 1 - b; the loop and the outer block close after them. */
  lemma {:induction false} BlocksClose(dispatch: seq<Tok>, slices: seq<seq<Tok>>, rest: seq<Tok>, b: nat, d: nat)
    requires Wellformed(dispatch, slices) && b <= |slices| && d + |slices| - b <= |slices| + 1
    ensures Match(Build(dispatch, slices, rest), 2 + b, d) == EndPos(dispatch, slices, d + |slices| - b)
    decreases |slices| - b
  {
    var code, n := Build(dispatch, slices, rest), |slices|;
    HeadAt(dispatch, slices, rest);
    if b < n {
      BlocksClose(dispatch, slices, rest, b + 1, d + 1);
    } else {
      assert forall k :: 2 + n <= k < 2 + n + |dispatch| ==> code[k] == dispatch[k - 2 - n];
      SkipFlat(code, 2 + n, 2 + n + |dispatch|, d);
      EndsClose(dispatch, slices, rest, 0, d);
    }
  }

  /** The control stack at the dispatch. */
  function Ctrl(dispatch: seq<Tok>, slices: seq<seq<Tok>>): (c: seq<Frame>)
    ensures |c| == 2 + |slices|
  {
    [BlockFrame(EndPos(dispatch, slices, |slices| + 1) + 1), LoopFrame(1)] +
    seq(|slices|, b requires 0 <= b < |slices| => BlockFrame(EndPos(dispatch, slices, |slices| - 1 - b) + 1))
  }

  /** Inside slice i only the blocks of later slices, the loop and the outer block are open. */
  function CtrlAt(dispatch: seq<Tok>, slices: seq<seq<Tok>>, i: nat): seq<Frame>
    requires i < |slices|
  {
    Ctrl(dispatch, slices)[..|slices| + 1 - i]
  }

  /** Falling out of slice i drops into slice i + 1. */
  lemma FallInto(dispatch: seq<Tok>, slices: seq<seq<Tok>>, i: nat)
    requires i + 1 < |slices|
    ensures var c := CtrlAt(dispatch, slices, i);
      c != [] && c[..|c| - 1] == CtrlAt(dispatch, slices, i + 1)
  {
  }

  // ---------- entering and dispatching ----------

  predicate Runs(m: Module, w: W, dispatch: seq<Tok>, slices: seq<seq<Tok>>, rest: seq<Tok>) {
    w.status == Going && CodeOf(m, w.mode) == Build(dispatch, slices, rest) && Wellformed(dispatch, slices)
  }

  /** From the loop head to the dispatch. */
  lemma {:induction false} OpenBlocks(sem: Sem, m: Module, w: W, dispatch: seq<Tok>, slices: seq<seq<Tok>>,
      rest: seq<Tok>, b: nat)
    requires Runs(m, w, dispatch, slices, rest) && b <= |slices|
    requires w.cur == Local(2 + b, Ctrl(dispatch, slices)[..2 + b], [])
    ensures Run(sem, m, w, |slices| - b) == w.(cur := Local(2 + |slices|, Ctrl(dispatch, slices), []))
    decreases |slices| - b
  {
    hide Build, EndPos;
    var full := Ctrl(dispatch, slices);
    HeadAt(dispatch, slices, rest);
    if b < |slices| {
      BlocksClose(dispatch, slices, rest, b + 1, 0);
      assert full[..2 + b] + [full[2 + b]] == full[..3 + b];
      OpenBlocks(sem, m, Step(sem, m, w), dispatch, slices, rest, b + 1);
    } else {
      assert full[..2 + b] == full;
    }
  }

  lemma FromLoop(sem: Sem, m: Module, w: W, dispatch: seq<Tok>, slices: seq<seq<Tok>>, rest: seq<Tok>)
    requires Runs(m, w, dispatch, slices, rest)
    requires w.cur == Local(1, Ctrl(dispatch, slices)[..1], [])
    ensures Run(sem, m, w, 1 + |slices|) == w.(cur := Local(2 + |slices|, Ctrl(dispatch, slices), []))
  {
    HeadAt(dispatch, slices, rest);
    assert Ctrl(dispatch, slices)[..1] + [LoopFrame(1)] == Ctrl(dispatch, slices)[..2];
    OpenBlocks(sem, m, Step(sem, m, w), dispatch, slices, rest, 0);
  }

  lemma OpensOuter(sem: Sem, m: Module, w: W, dispatch: seq<Tok>, slices: seq<seq<Tok>>, rest: seq<Tok>)
    requires Runs(m, w, dispatch, slices, rest)
    requires w.cur == Local(0, [], [])
    ensures Step(sem, m, w) == w.(cur := Local(1, Ctrl(dispatch, slices)[..1], []))
  {
    HeadAt(dispatch, slices, rest);
    var code := Build(dispatch, slices, rest);
    BlocksClose(dispatch, slices, rest, 0, 1);
    assert Match(code, 1, 0) == Match(code, 2, 1);
    assert [BlockFrame(EndPos(dispatch, slices, |slices| + 1) + 1)] == Ctrl(dispatch, slices)[..1];
  }

  lemma FromStart(sem: Sem, m: Module, w: W, dispatch: seq<Tok>, slices: seq<seq<Tok>>, rest: seq<Tok>)
    requires Runs(m, w, dispatch, slices, rest)
    requires w.cur == Local(0, [], [])
    ensures Run(sem, m, w, 2 + |slices|) == w.(cur := Local(2 + |slices|, Ctrl(dispatch, slices), []))
  {
    OpensOuter(sem, m, w, dispatch, slices, rest);
    FromLoop(sem, m, Step(sem, m, w), dispatch, slices, rest);
  }

  /** A branch by index lands behind the end of that slice's block; the default lands behind everything. */
  lemma BranchLands(w: W, dispatch: seq<Tok>, slices: seq<seq<Tok>>, i: nat)
    requires w.cur.ctrl == Ctrl(dispatch, slices)
    ensures i < |slices| ==>
      Branch(w, i) == w.(cur := Local(EndPos(dispatch, slices, i) + 1, CtrlAt(dispatch, slices, i), []))
    ensures Branch(w, |slices| + 1) == w.(cur := Local(EndPos(dispatch, slices, |slices| + 1) + 1, [], []))
  {
  }

  /** Inside slice i the depth n - 1 - i leads to the loop head. */
  lemma LoopDepth(w: W, dispatch: seq<Tok>, slices: seq<seq<Tok>>, i: nat)
    requires i < |slices| && w.cur.ctrl == CtrlAt(dispatch, slices, i)
    ensures Branch(w, |slices| - 1 - i) == w.(cur := Local(1, Ctrl(dispatch, slices)[..1], []))
  {
  }

  /** The end of slice j opens slice j + 1. */
  lemma FallOut(sem: Sem, m: Module, w: W, dispatch: seq<Tok>, slices: seq<seq<Tok>>, rest: seq<Tok>, j: nat)
    requires Runs(m, w, dispatch, slices, rest) && j + 1 < |slices|
    requires w.cur == Local(EndPos(dispatch, slices, j) + 1 + |slices[j]|, CtrlAt(dispatch, slices, j), [])
    ensures Step(sem, m, w) ==
      w.(cur := Local(EndPos(dispatch, slices, j + 1) + 1, CtrlAt(dispatch, slices, j + 1), []))
  {
    hide Build, EndPos, Ctrl, CtrlAt;
    SliceAt(dispatch, slices, rest, j);
    SliceAt(dispatch, slices, rest, j + 1);
    FallInto(dispatch, slices, j);
  }

  /** The end of the last slice leaves the loop and the outer block. */
  lemma FallOff(sem: Sem, m: Module, w: W, dispatch: seq<Tok>, slices: seq<seq<Tok>>, rest: seq<Tok>)
    requires Runs(m, w, dispatch, slices, rest) && slices != []
    requires w.cur == Local(EndPos(dispatch, slices, |slices|), CtrlAt(dispatch, slices, |slices| - 1), [])
    ensures Run(sem, m, w, 2) == w.(cur := Local(EndPos(dispatch, slices, |slices|) + 2, [], []))
  {
    var c, p := Ctrl(dispatch, slices), EndPos(dispatch, slices, |slices|);
    assert w.cur.ctrl == c[..2] && c[..2][..1] == c[..1] && c[..1][..0] == [];
    hide Build, EndPos, Ctrl, CtrlAt;
    TailAt(dispatch, slices, rest);
    var w1 := w.(cur := Local(p + 1, c[..1], []));
    assert Step(sem, m, w) == w1;
    assert Run(sem, m, w, 2) == Run(sem, m, w1, 1);
    RunOne(sem, m, w1);
  }
}
