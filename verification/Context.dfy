/** The compilation context's frame layout (compiler/core/context.js): local cells below the register save area. */
module Context {
  const CALLEE_SAVED_AREA: int := 48

  /** The k-th cell of a frame. */
  function CellAt(k: nat): int {
    -CALLEE_SAVED_AREA - 8 * (k + 1)
  }

  /** Cells are distinct, apart, and below the save area. */
  lemma CellsApart(j: nat, k: nat)
    ensures j != k ==> CellAt(j) + 8 <= CellAt(k) || CellAt(k) + 8 <= CellAt(j)
    ensures CellAt(k) + 8 <= -CALLEE_SAVED_AREA
  {
  }
}
