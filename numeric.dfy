/** Small numeric helpers both frame games use: the `clamp` each of them
    defines, and the slot of a grid position in a row-major list. */
module Numeric {
  function Max(a: real, b: real): real { if a < b then b else a }
  function Min(a: real, b: real): real { if a < b then a else b }

  /** `Math.min(max, Math.max(min, value))`. */
  function Clamp(value: real, lo: real, hi: real): (r: real)
    ensures r <= hi
    ensures lo <= hi ==> lo <= r
    ensures lo <= value <= hi ==> r == value
    ensures r == value || r == lo || r == hi
    ensures value < lo <= hi ==> r == lo
    ensures lo <= hi < value ==> r == hi
    ensures hi < lo ==> r == hi
  {
    Min(hi, Max(lo, value))
  }

  /** The storage slot of grid position (row, col) in a grid `cols` wide. */
  function Slot(cols: nat, row: nat, col: nat): nat { row * cols + col }

  lemma SlotBelow(r: nat, c: nat, n: nat, cols: nat)
    requires r < n && c < cols
    ensures Slot(cols, r, c) < n * cols
  {
    assert r * cols + c < r * cols + cols == (r + 1) * cols;
    assert (r + 1) * cols <= n * cols;
  }
}
