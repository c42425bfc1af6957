/**
 * The heading-marker scan `yellow_det_count` of robot_tracker.py (lines
 * 545-628): for each body record a window of 1.6 times the body's box
 * around the body's centre is scanned for yellow foreground, and the tally
 * of each window is packed with `assignment` into the matching yellow slot.
 *
 * The window ends are `int(c - 1.6 * d)` and `int(c + 1.6 * d)`; here 1.6 is
 * the exact ratio 8/5 and `int` truncates toward zero. numpy reads a
 * negative index from the end of its axis, and an index outside [-n, n)
 * raises IndexError, which the source catches per slot by zeroing that slot.
 */
module HeadingWindow {
  import opened Boxes
  import opened Masks
  import opened Records
  import opened DirectCount

  /** Python's `int(a / b)` for b > 0: the quotient truncated toward zero. */
  function TruncDiv(a: int, b: int): (q: int)
    requires b > 0
    ensures a >= 0 ==> q * b <= a < (q + 1) * b
    ensures a < 0 ==> (q - 1) * b < a <= q * b
  {
    if a >= 0 then a / b else -((-a) / b)
  }

  /** The window ends of lines 572-575 on one axis: [int(c - 1.6 d), int(c + 1.6 d)). */
  function Span(c: int, d: int): (sp: (int, int))
    ensures d >= 0 ==> sp.0 <= c <= sp.1
  {
    (TruncDiv(5 * c - 8 * d, 5), TruncDiv(5 * c + 8 * d, 5))
  }

  /** A window [x0, x1) x [y0, y1) of the yellow mask. */
  datatype Window = Window(x0: int, x1: int, y0: int, y1: int)

  /**
   * Lines 564-575: the body's box extents and centre divided (floor
   * division) by the scale s, then the span on each axis.
   */
  function WindowOf(body: CircleData, s: int): Window
    requires s > 0 && |body.centerMass| >= 2
  {
    var difX := (body.box.maxX - body.box.minX) / s;
    var difY := (body.box.maxY - body.box.minY) / s;
    var cx, cy := body.centerMass[0] / s, body.centerMass[1] / s;
    var sx, sy := Span(cx, difX), Span(cy, difY);
    Window(sx.0, sx.1, sy.0, sy.1)
  }

  /** numpy accepts index (x, y) on the mask. */
  predicate Indexable(m: Mask, h: int, x: int, y: int) {
    -|m| <= x < |m| && -h <= y < h
  }

  /** `opening_yellow[x, y]`, with numpy's reading of negative indices. */
  function PixelAt(m: Mask, h: int, x: int, y: int): int
    requires IsGrid(m, h) && Indexable(m, h, x, y)
  {
    m[PyIndex(x, |m|)][PyIndex(y, h)]
  }

  /** The foreground cells (x, y) of row y with x0 <= x < x, as the loop meets them. */
  function WinRow(m: Mask, h: int, y: int, x0: int, x: int): seq<Cell>
    requires IsGrid(m, h) && (x <= x0 || (-|m| <= x0 && x <= |m| && -h <= y < h))
    decreases x - x0
  {
    if x <= x0 then []
    else WinRow(m, h, y, x0, x - 1) + (if PixelAt(m, h, x - 1, y) > 0 then [(x - 1, y)] else [])
  }

  /** The foreground cells of rows y0 .. y - 1 of a window, row by row. */
  function WinCells(m: Mask, h: int, w: Window, y: int): seq<Cell>
    requires IsGrid(m, h)
    requires y <= w.y0 || w.x1 <= w.x0 || (-|m| <= w.x0 && w.x1 <= |m| && -h <= w.y0 && y <= h)
    decreases y - w.y0
  {
    if y <= w.y0 || w.x1 <= w.x0 then []
    else WinCells(m, h, w, y - 1) + WinRow(m, h, y - 1, w.x0, w.x1)
  }

  /** The scan reads no cell, or only cells numpy accepts. */
  predicate InRange(m: Mask, h: int, w: Window) {
    w.x1 <= w.x0 || w.y1 <= w.y0 || (-|m| <= w.x0 && w.x1 <= |m| && -h <= w.y0 && w.y1 <= h)
  }

  /**
   * The slot tally of lines 577-601: the tally of the window's foreground
   * cells, or all zeros when the scan raises IndexError.
   */
  function WindowTally(m: Mask, h: int, w: Window): (t: Tally)
    requires IsGrid(m, h)
    ensures t.pixels >= 0 && (t.pixels == 0 ==> t == ZeroTally)
  {
    if InRange(m, h, w) then
      TallyOfPackable(WinCells(m, h, w, w.y1));
      TallyOf(WinCells(m, h, w, w.y1))
    else ZeroTally
  }

  /** The scan of lines 577-601 for one slot, stopping at the first IndexError. */
  method ScanWindow(m: Mask, h: nat, w: Window) returns (t: Tally)
    requires IsGrid(m, h)
    ensures t == WindowTally(m, h, w)
  {
    t := ZeroTally;
    var ok := true;
    var y := w.y0;
    while y < w.y1 && ok
      invariant w.y0 <= y && (y <= w.y1 || y == w.y0)
      invariant ok && w.y0 < y && w.x0 < w.x1 ==> 0 <= w.x0 + |m| && w.x1 <= |m| && 0 <= w.y0 + h && y <= h
      invariant ok ==> t == TallyOf(WinCells(m, h, w, y))
      invariant !ok ==> !InRange(m, h, w)
    {
      ghost var before := WinCells(m, h, w, y);
      t, ok := ScanWindowRow(m, h, w, y, t, before);
      if ok && w.x0 < w.x1 {
        assert WinCells(m, h, w, y + 1) == before + WinRow(m, h, y, w.x0, w.x1);
      }
      y := y + 1;
    }
    if !ok {
      // Line 603: the slot's data is reset.
      t := ZeroTally;
    }
  }

  /** The inner loop of lines 578-601 over row y of the window. */
  method ScanWindowRow(m: Mask, h: nat, w: Window, y: int, t0: Tally, ghost before: seq<Cell>)
    returns (t: Tally, ok: bool)
    requires IsGrid(m, h) && w.y0 <= y < w.y1 && t0 == TallyOf(before)
    ensures ok && w.x0 < w.x1 ==> 0 <= w.x0 + |m| && w.x1 <= |m| && 0 <= y + h && y < h
    ensures ok ==> t == TallyOf(before + WinRow(m, h, y, w.x0, w.x1))
    ensures !ok ==> !InRange(m, h, w)
  {
    t, ok := t0, true;
    var x := w.x0;
    assert before + WinRow(m, h, y, w.x0, x) == before;
    while x < w.x1 && ok
      invariant w.x0 <= x && (x <= w.x1 || x == w.x0)
      invariant ok && w.x0 < x ==> 0 <= w.x0 + |m| && x <= |m| && 0 <= y + h && y < h
      invariant ok ==> t == TallyOf(before + WinRow(m, h, y, w.x0, x))
      invariant !ok ==> !InRange(m, h, w)
      decreases w.x1 - x, ok
    {
      t, ok := ScanWindowCell(m, h, w, y, x, t, before);
      if ok {
        x := x + 1;
      }
    }
  }

  /** Lines 580-601 for one cell (x, y): IndexError, or the cell added when it is foreground. */
  method ScanWindowCell(m: Mask, h: nat, w: Window, y: int, x: int, t0: Tally, ghost before: seq<Cell>)
    returns (t: Tally, ok: bool)
    requires IsGrid(m, h) && w.y0 <= y < w.y1 && w.x0 <= x < w.x1
    requires w.x0 < x ==> 0 <= w.x0 + |m| && x <= |m| && 0 <= y + h && y < h
    requires t0 == TallyOf(before + WinRow(m, h, y, w.x0, x))
    ensures ok ==> 0 <= w.x0 + |m| && x + 1 <= |m| && 0 <= y + h && y < h
    ensures ok ==> t == TallyOf(before + WinRow(m, h, y, w.x0, x + 1))
    ensures !ok ==> !InRange(m, h, w)
  {
    t, ok := t0, true;
    if !Indexable(m, h, x, y) {
      ok := false;
    } else if PixelAt(m, h, x, y) > 0 {
      TallyOfSnoc(before + WinRow(m, h, y, w.x0, x), (x, y));
      assert before + WinRow(m, h, y, w.x0, x + 1) == before + WinRow(m, h, y, w.x0, x) + [(x, y)];
      t := Visit(t, (x, y));
    } else {
      assert WinRow(m, h, y, w.x0, x + 1) == WinRow(m, h, y, w.x0, x);
    }
  }

  /** A window row holds exactly its foreground cells, read through numpy's indexing. */
  lemma {:induction false} WinRowMembers(m: Mask, h: int, y: int, x0: int, x: int)
    requires IsGrid(m, h) && (x <= x0 || (-|m| <= x0 && x <= |m| && -h <= y < h))
    ensures forall c :: c in WinRow(m, h, y, x0, x) <==>
      x0 <= c.0 < x && c.1 == y && Indexable(m, h, c.0, c.1) && PixelAt(m, h, c.0, c.1) > 0
    decreases x - x0
  {
    if x > x0 {
      WinRowMembers(m, h, y, x0, x - 1);
    }
  }

  /** Both ends of a span lie within 1 of c -/+ 1.6 d, rounded toward zero, around c. */
  lemma SpanBrackets(c: int, d: int)
    requires d >= 0
    ensures var sp := Span(c, d);
      && sp.0 <= c <= sp.1
      && -5 < 5 * sp.0 - (5 * c - 8 * d) < 5 && -5 < 5 * sp.1 - (5 * c + 8 * d) < 5
  {
  }

  /** `int()` truncates: int(-1 - 1.6) is -2 where a floor would give -3. */
  lemma SpanTruncatesTowardZero()
    ensures Span(-1, 1) == (-2, 0)
  {
  }

  /** A body box that is a single column gives an empty window, hence the all-zero tally. */
  lemma FlatBodyGivesZeroTally(m: Mask, h: int, body: CircleData, s: int)
    requires IsGrid(m, h) && s > 0 && |body.centerMass| >= 2
    requires body.box.maxX == body.box.minX
    ensures WindowOf(body, s).x0 == WindowOf(body, s).x1 == body.centerMass[0] / s
    ensures WindowTally(m, h, WindowOf(body, s)) == ZeroTally
  {
    var cx := body.centerMass[0] / s;
    assert (body.box.maxX - body.box.minX) / s == 0;
    TruncExact(cx);
  }

  /** A body box that is a single row gives an empty window too, hence the all-zero tally. */
  lemma ShortBodyGivesZeroTally(m: Mask, h: int, body: CircleData, s: int)
    requires IsGrid(m, h) && s > 0 && |body.centerMass| >= 2
    requires body.box.maxY == body.box.minY
    ensures WindowOf(body, s).y0 == WindowOf(body, s).y1 == body.centerMass[1] / s
    ensures WindowTally(m, h, WindowOf(body, s)) == ZeroTally
  {
    var cy := body.centerMass[1] / s;
    assert (body.box.maxY - body.box.minY) / s == 0;
    TruncExact(cy);
  }

  /** A multiple of 5 divides exactly either way. */
  lemma TruncExact(c: int)
    ensures TruncDiv(5 * c, 5) == c
  {
    if c < 0 {
      assert -(5 * c) == 5 * -c;
    }
  }

  /** A window index outside [-n, n) zeros the slot. */
  lemma OutOfRangeGivesZeroTally(m: Mask, h: int, w: Window, x: int, y: int)
    requires IsGrid(m, h) && w.x0 <= x < w.x1 && w.y0 <= y < w.y1 && !Indexable(m, h, x, y)
    ensures WindowTally(m, h, w) == ZeroTally
  {
  }

  /**
   * A negative index wraps instead of being clipped: column -1 reads the
   * last column, and the tally adds the index as written (-1), not the
   * column read.
   */
  lemma NegativeIndexWraps(m: Mask, h: int)
    requires IsGrid(m, h) && |m| > 0 && h > 0 && m[|m| - 1][0] > 0
    ensures PixelAt(m, h, -1, 0) == m[|m| - 1][0]
    ensures WindowTally(m, h, Window(-1, 0, 0, 1)) == Tally(1, -1, 0, Box(-1, 0, -1, 0))
  {
    var w := Window(-1, 0, 0, 1);
    assert WinRow(m, h, 0, -1, 0) == [(-1, 0)] by {
      assert WinRow(m, h, 0, -1, -1) == [];
    }
    assert WinCells(m, h, w, 1) == WinCells(m, h, w, 0) + WinRow(m, h, 0, -1, 0);
    assert WinCells(m, h, w, 1) == [(-1, 0)];
    TallyOfSnoc([], (-1, 0));
    assert [] + [(-1, 0)] == [(-1, 0)];
  }

  /** The tally of slot a: the window of body a, or all zeros for a slot with no body. */
  function SlotTally(m: Mask, h: int, colours: seq<CircleData>, a: int, s: int): Tally
    requires IsGrid(m, h) && s > 0
    requires forall i :: 0 <= i < |colours| ==> |colours[i].centerMass| >= 2
  {
    if 0 <= a < |colours| then WindowTally(m, h, WindowOf(colours[a], s)) else ZeroTally
  }

  /** Lines 611-626: slot a's tally packed by `assignment` with the yellow flag set. */
  function YellowRecord(rec: CircleData, m: Mask, h: int, colours: seq<CircleData>, a: int, s: int): CircleData
    requires IsGrid(m, h) && s > 0
    requires forall i :: 0 <= i < |colours| ==> |colours[i].centerMass| >= 2
  {
    PackTally(rec, SlotTally(m, h, colours, a, s), 1, s)
  }

  /**
   * A slot whose scan reads outside the mask gets the all-zero record with
   * centre [0, 0]; its correspondence and orientation are kept.
   */
  lemma OutOfRangeSlotRecord(rec: CircleData, m: Mask, h: int, colours: seq<CircleData>, a: int, s: int)
    requires IsGrid(m, h) && s > 0
    requires forall i :: 0 <= i < |colours| ==> |colours[i].centerMass| >= 2
    requires 0 <= a < |colours| && !InRange(m, h, WindowOf(colours[a], s))
    ensures var r := YellowRecord(rec, m, h, colours, a, s);
      r.pixNumber == 0 && r.centerMass == [0, 0] && r.box == EmptyBox &&
      r.correspondence == rec.correspondence && r.orientation == rec.orientation
  {
  }

  /**
   * `yellow_det_count`: one window per body (at most three), then
   * `assignment` into yellow slots 0, 1 and 2; any further slot is kept.
   */
  method YellowDetCount(yellow: seq<CircleData>, colours: seq<CircleData>, m: Mask, h: nat, s: int)
    returns (out: seq<CircleData>)
    requires IsGrid(m, h) && s > 0 && |yellow| >= 3 && |colours| <= 3
    requires forall i :: 0 <= i < |colours| ==> |colours[i].centerMass| >= 2
    ensures |out| == |yellow|
    ensures forall a :: 0 <= a < 3 ==> out[a] == YellowRecord(yellow[a], m, h, colours, a, s)
    ensures forall a :: 3 <= a < |yellow| ==> out[a] == yellow[a]
  {
    var data := [ZeroTally, ZeroTally, ZeroTally];
    for a := 0 to |colours|
      invariant |data| == 3
      invariant forall j :: 0 <= j < 3 ==> data[j] == (if j < a then SlotTally(m, h, colours, j, s) else ZeroTally)
    {
      var w := WindowOf(colours[a], s);
      var t := ScanWindow(m, h, w);
      data := data[a := t];
    }
    out := yellow;
    for a := 0 to 3
      invariant |out| == |yellow|
      invariant forall j :: 0 <= j < a ==> out[j] == YellowRecord(yellow[j], m, h, colours, j, s)
      invariant forall j :: a <= j < |yellow| ==> out[j] == yellow[j]
    {
      out := out[a := PackTally(yellow[a], data[a], 1, s)];
    }
  }
}
