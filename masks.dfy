/**
 * Binary masks as robot_tracker.py reads them: a grid indexed m[x][y] whose
 * first axis has `|m|` entries (numpy's shape[0], which the source calls
 * `width`) and whose second axis has `h` entries (`height`). A cell is
 * foreground when its value is positive.
 */
module Masks {

  type Mask = seq<seq<int>>

  /** Every column of `m` has exactly `h` entries. */
  predicate IsGrid(m: Mask, h: int) {
    forall x :: 0 <= x < |m| ==> |m[x]| == h
  }

  predicate InBounds(m: Mask, h: int, x: int, y: int) {
    0 <= x < |m| && 0 <= y < h
  }

  /** Foreground test `mask[x, y] > 0` at an in-bounds cell. */
  predicate Fg(m: Mask, h: int, x: int, y: int)
    requires IsGrid(m, h) && InBounds(m, h, x, y)
  {
    m[x][y] > 0
  }

  /**
   * numpy's reading of an integer index on an axis of length n: a negative
   * index counts from the end, so `-n <= i < n` is accepted and anything
   * else raises IndexError.
   */
  function PyIndex(i: int, n: int): (r: int)
    requires -n <= i < n
    ensures 0 <= r < n && (r == i || r == i + n)
  {
    if i < 0 then i + n else i
  }
}
