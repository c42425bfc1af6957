/**
 * Bounding boxes and the running tally (pixel count, coordinate sums, box)
 * that every scan of robot_tracker.py accumulates: `limits`, the per-colour
 * counters of `color_det_count`, the counters of `DFS2` and the `data[a]`
 * records of `yellow_det_count` all follow the same update rule.
 */
module Boxes {

  /** A grid position (x, y); x indexes the first axis of a mask. */
  type Cell = (int, int)

  /** A box (minx, miny, maxx, maxy), both ends inclusive. */
  datatype Box = Box(minX: int, minY: int, maxX: int, maxY: int)

  /** The all-zero box, which `limits` reads as "no point seen yet". */
  const EmptyBox: Box := Box(0, 0, 0, 0)

  predicate WellFormed(b: Box) {
    b.minX <= b.maxX && b.minY <= b.maxY
  }

  predicate Contains(b: Box, c: Cell) {
    b.minX <= c.0 <= b.maxX && b.minY <= c.1 <= b.maxY
  }

  /** Every corner coordinate of `b` lies in the rectangle [x0,x1] x [y0,y1]. */
  predicate BoxInside(b: Box, x0: int, y0: int, x1: int, y1: int) {
    x0 <= b.minX <= x1 && x0 <= b.maxX <= x1 && y0 <= b.minY <= y1 && y0 <= b.maxY <= y1
  }

  function Min(a: int, b: int): int { if a <= b then a else b }
  function Max(a: int, b: int): int { if a <= b then b else a }

  /**
   * `limits(a, b, minx, miny, maxx, maxy)`: an all-zero box is replaced by the
   * point; otherwise each axis is widened by an if/elif pair. On a
   * well-formed box the elif never loses a point, so the result is exactly
   * the smallest box holding the old box and the point.
   */
  function Limits(a: int, b: int, box: Box): (r: Box)
    ensures box == EmptyBox ==> r == Box(a, b, a, b)
    ensures WellFormed(box) && box != EmptyBox ==>
      r == Box(Min(a, box.minX), Min(b, box.minY), Max(a, box.maxX), Max(b, box.maxY))
    ensures WellFormed(box) ==> WellFormed(r) && Contains(r, (a, b))
  {
    if box.minX == 0 && box.minY == 0 && box.maxX == 0 && box.maxY == 0 then
      Box(a, b, a, b)
    else
      var minX := if a < box.minX then a else box.minX;
      var maxX := if a < box.minX then box.maxX else if a > box.maxX then a else box.maxX;
      var minY := if b < box.minY then b else box.minY;
      var maxY := if b < box.minY then box.maxY else if b > box.maxY then b else box.maxY;
      Box(minX, minY, maxX, maxY)
  }

  /** Growing a well-formed box twice by the same point changes nothing further. */
  lemma LimitsIdempotent(a: int, b: int, box: Box)
    requires WellFormed(box)
    ensures Limits(a, b, Limits(a, b, box)) == Limits(a, b, box)
  {
  }

  /** On a box that is not well formed the elif of `limits` can drop the point. */
  lemma LimitsIllFormedCounterexample()
    ensures !Contains(Limits(3, 0, Box(5, 0, 2, 1)), (3, 0))
  {
  }

  /** The running record of one scan. */
  datatype Tally = Tally(pixels: int, cumX: int, cumY: int, box: Box)

  const ZeroTally: Tally := Tally(0, 0, 0, EmptyBox)

  /** One foreground visit: count it, add its coordinates, grow the box. */
  function Visit(t: Tally, c: Cell): Tally {
    Tally(t.pixels + 1, t.cumX + c.0, t.cumY + c.1, Limits(c.0, c.1, t.box))
  }

  /** The tally after visiting `cells` in order, from the all-zero record. */
  function TallyOf(cells: seq<Cell>): (t: Tally)
    ensures t.pixels == |cells|
    decreases |cells|
  {
    if cells == [] then ZeroTally
    else Visit(TallyOf(cells[..|cells| - 1]), cells[|cells| - 1])
  }

  lemma TallyOfSnoc(cells: seq<Cell>, c: Cell)
    ensures TallyOf(cells + [c]) == Visit(TallyOf(cells), c)
  {
    assert (cells + [c])[..|cells|] == cells;
  }

  predicate AllInside(cells: seq<Cell>, x0: int, y0: int, x1: int, y1: int) {
    forall i :: 0 <= i < |cells| ==> x0 <= cells[i].0 <= x1 && y0 <= cells[i].1 <= y1
  }

  /**
   * When every visited cell lies in [x0,x1] x [y0,y1], the coordinate sums lie
   * between n*x0 and n*x1 (n*y0 and n*y1), and a non-empty visit leaves a box
   * whose corners lie in the rectangle too (even across the all-zero reset).
   */
  lemma {:induction false} TallyBounds(cells: seq<Cell>, x0: int, y0: int, x1: int, y1: int)
    requires AllInside(cells, x0, y0, x1, y1)
    ensures var t := TallyOf(cells);
      x0 * |cells| <= t.cumX <= x1 * |cells| && y0 * |cells| <= t.cumY <= y1 * |cells|
    ensures |cells| > 0 ==> BoxInside(TallyOf(cells).box, x0, y0, x1, y1)
  {
    if cells != [] {
      var n := |cells|;
      var pre := cells[..n - 1];
      var c := cells[n - 1];
      assert AllInside(pre, x0, y0, x1, y1) by {
        forall i | 0 <= i < |pre| ensures x0 <= pre[i].0 <= x1 && y0 <= pre[i].1 <= y1 {
          assert pre[i] == cells[i];
        }
      }
      TallyBounds(pre, x0, y0, x1, y1);
      var t0 := TallyOf(pre);
      assert TallyOf(cells) == Visit(t0, c);
      MulSucc(x0, n - 1);
      MulSucc(x1, n - 1);
      MulSucc(y0, n - 1);
      MulSucc(y1, n - 1);
    }
  }

  lemma MulSucc(a: int, m: int)
    ensures a * (m + 1) == a * m + a
  {
  }

  /** A floor mean of values in [lo, hi] stays in [lo, hi]. */
  lemma MeanBounds(sum: int, n: int, lo: int, hi: int)
    requires n > 0 && lo * n <= sum <= hi * n
    ensures lo <= sum / n <= hi
  {
    var q, r := sum / n, sum % n;
    assert sum == q * n + r && 0 <= r < n;
    if q < lo {
      MulMonotone(q + 1, lo, n);
      MulSucc(n, q);
    }
    if q > hi {
      MulMonotone(hi + 1, q, n);
      MulSucc(n, hi);
    }
  }

  lemma MulMonotone(a: int, b: int, n: int)
    requires a <= b && n >= 0
    ensures a * n <= b * n
  {
    assert b * n - a * n == (b - a) * n;
  }

  /**
   * If no visited cell is (0, 0) the all-zero reset of `limits` never fires
   * after the first visit, so a non-empty visit leaves a well-formed box that
   * holds every visited cell.
   */
  lemma {:induction false} TallyBoxCovers(cells: seq<Cell>)
    requires forall i :: 0 <= i < |cells| ==> cells[i] != (0, 0)
    ensures |cells| > 0 ==> TallyOf(cells).box != EmptyBox && WellFormed(TallyOf(cells).box)
    ensures forall i :: 0 <= i < |cells| ==> Contains(TallyOf(cells).box, cells[i])
  {
    if cells != [] {
      var n := |cells|;
      var pre := cells[..n - 1];
      assert forall i :: 0 <= i < |pre| ==> pre[i] == cells[i];
      TallyBoxCovers(pre);
      var c := cells[n - 1];
      var b := TallyOf(pre).box;
      if pre == [] {
        assert b == EmptyBox;
      } else {
        var r := Limits(c.0, c.1, b);
        assert Contains(r, (b.minX, b.minY)) && Contains(r, (b.maxX, b.maxY));
      }
    }
  }
}
