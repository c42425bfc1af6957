/**
 * Direct counting, `color_det_count` of robot_tracker.py (lines 296-351): one
 * row-major pass over the half-open rectangle [minx, maxx) x [miny, maxy)
 * that accumulates, per colour, the pixel count, the coordinate sums and the
 * box, and then packs each colour with `assignment`.
 */
module DirectCount {
  import opened Boxes
  import opened Masks
  import opened Records

  /** The foreground cells (x, y) of row y with x0 <= x < x, left to right. */
  function RowCells(m: Mask, h: int, y: int, x0: int, x: int): seq<Cell>
    requires IsGrid(m, h) && 0 <= y < h && 0 <= x0 && (x <= x0 || x <= |m|)
    decreases x - x0
  {
    if x <= x0 then []
    else RowCells(m, h, y, x0, x - 1) + (if m[x - 1][y] > 0 then [(x - 1, y)] else [])
  }

  /** The foreground cells of [x0, x1) x [y0, y), in the scan order of lines 308-309. */
  function RectCells(m: Mask, h: int, x0: int, x1: int, y0: int, y: int): seq<Cell>
    requires IsGrid(m, h) && 0 <= x0 && x1 <= |m| && 0 <= y0 && (y <= y0 || y <= h)
    decreases y - y0
  {
    if y <= y0 then []
    else RectCells(m, h, x0, x1, y0, y - 1) + RowCells(m, h, y - 1, x0, x1)
  }

  /** The foreground cells of [x0, x1) x [y0, y1) as a set. */
  function FgSet(m: Mask, h: int, x0: int, x1: int, y0: int, y1: int): set<Cell>
    requires IsGrid(m, h) && 0 <= x0 && x1 <= |m| && 0 <= y0 && y1 <= h
  {
    set x, y | x0 <= x < x1 && y0 <= y < y1 && m[x][y] > 0 :: (x, y)
  }

  predicate NoDup(s: seq<Cell>) {
    forall i, j :: 0 <= i < j < |s| ==> s[i] != s[j]
  }

  lemma {:induction false} RowCellsMembers(m: Mask, h: int, y: int, x0: int, x: int)
    requires IsGrid(m, h) && 0 <= y < h && 0 <= x0 && x <= |m|
    ensures forall c :: c in RowCells(m, h, y, x0, x) <==> x0 <= c.0 < x && c.1 == y && m[c.0][c.1] > 0
    decreases x - x0
  {
    if x > x0 {
      RowCellsMembers(m, h, y, x0, x - 1);
    }
  }

  lemma {:induction false} RowCellsNoDup(m: Mask, h: int, y: int, x0: int, x: int)
    requires IsGrid(m, h) && 0 <= y < h && 0 <= x0 && x <= |m|
    ensures NoDup(RowCells(m, h, y, x0, x))
    decreases x - x0
  {
    if x > x0 {
      RowCellsNoDup(m, h, y, x0, x - 1);
      RowCellsMembers(m, h, y, x0, x - 1);
    }
  }

  lemma {:induction false} RectCellsMembers(m: Mask, h: int, x0: int, x1: int, y0: int, y: int)
    requires IsGrid(m, h) && 0 <= x0 && x1 <= |m| && 0 <= y0 && y <= h
    ensures forall c :: c in RectCells(m, h, x0, x1, y0, y) <==>
      x0 <= c.0 < x1 && y0 <= c.1 < y && m[c.0][c.1] > 0
    decreases y - y0
  {
    if y > y0 {
      RectCellsMembers(m, h, x0, x1, y0, y - 1);
      RowCellsMembers(m, h, y - 1, x0, x1);
      var a := RectCells(m, h, x0, x1, y0, y - 1);
      var b := RowCells(m, h, y - 1, x0, x1);
      assert RectCells(m, h, x0, x1, y0, y) == a + b;
      forall c ensures c in a + b <==> c in a || c in b {
      }
    }
  }

  lemma {:induction false} RectCellsNoDup(m: Mask, h: int, x0: int, x1: int, y0: int, y: int)
    requires IsGrid(m, h) && 0 <= x0 && x1 <= |m| && 0 <= y0 && y <= h
    ensures NoDup(RectCells(m, h, x0, x1, y0, y))
    decreases y - y0
  {
    if y > y0 {
      RectCellsNoDup(m, h, x0, x1, y0, y - 1);
      RowCellsNoDup(m, h, y - 1, x0, x1);
      RectCellsBelow(m, h, x0, x1, y0, y - 1);
      RowCellsOnRow(m, h, y - 1, x0, x1);
      NoDupConcat(RectCells(m, h, x0, x1, y0, y - 1), RowCells(m, h, y - 1, x0, x1), y - 1);
    }
  }

  /** Every cell of RectCells(.., y) lies above row y. */
  lemma RectCellsBelow(m: Mask, h: int, x0: int, x1: int, y0: int, y: int)
    requires IsGrid(m, h) && 0 <= x0 && x1 <= |m| && 0 <= y0 && y <= h
    ensures forall i :: 0 <= i < |RectCells(m, h, x0, x1, y0, y)| ==> RectCells(m, h, x0, x1, y0, y)[i].1 < y
  {
    var r := RectCells(m, h, x0, x1, y0, y);
    RectCellsMembers(m, h, x0, x1, y0, y);
    forall i | 0 <= i < |r| ensures r[i].1 < y {
      assert r[i] in r;
    }
  }

  /** Every cell of RowCells(.., y, ..) lies on row y. */
  lemma RowCellsOnRow(m: Mask, h: int, y: int, x0: int, x: int)
    requires IsGrid(m, h) && 0 <= y < h && 0 <= x0 && x <= |m|
    ensures forall j :: 0 <= j < |RowCells(m, h, y, x0, x)| ==> RowCells(m, h, y, x0, x)[j].1 == y
  {
    var r := RowCells(m, h, y, x0, x);
    RowCellsMembers(m, h, y, x0, x);
    forall j | 0 <= j < |r| ensures r[j].1 == y {
      assert r[j] in r;
    }
  }

  lemma NoDupConcat(a: seq<Cell>, b: seq<Cell>, row: int)
    requires NoDup(a) && NoDup(b)
    requires forall i :: 0 <= i < |a| ==> a[i].1 < row
    requires forall j :: 0 <= j < |b| ==> b[j].1 == row
    ensures NoDup(a + b)
  {
    forall i, j | 0 <= i < j < |a + b| ensures (a + b)[i] != (a + b)[j] {
      if i < |a| && j >= |a| {
        assert (a + b)[i] == a[i] && (a + b)[j] == b[j - |a|];
      }
    }
  }

  /** A sequence without repeats has as many elements as its set. */
  lemma {:induction false} NoDupCardinality(s: seq<Cell>)
    requires NoDup(s)
    ensures |set c | c in s| == |s|
  {
    if s != [] {
      var t := s[..|s| - 1];
      var last := s[|s| - 1];
      assert NoDup(t);
      NoDupCardinality(t);
      assert (set c | c in s) == (set c | c in t) + {last};
      assert last !in (set c | c in t);
    }
  }

  /**
   * The scan visits each foreground cell of the half-open rectangle exactly
   * once: no repeats, nothing outside it (so row maxy and column maxx are
   * never counted), nothing inside it missed.
   */
  lemma RectCellsExact(m: Mask, h: int, x0: int, x1: int, y0: int, y1: int)
    requires IsGrid(m, h) && 0 <= x0 && x1 <= |m| && 0 <= y0 && y1 <= h
    ensures (set c | c in RectCells(m, h, x0, x1, y0, y1)) == FgSet(m, h, x0, x1, y0, y1)
    ensures |RectCells(m, h, x0, x1, y0, y1)| == |FgSet(m, h, x0, x1, y0, y1)|
  {
    RectCellsMembers(m, h, x0, x1, y0, y1);
    RectCellsNoDup(m, h, x0, x1, y0, y1);
    NoDupCardinality(RectCells(m, h, x0, x1, y0, y1));
  }

  /** One colour's pass of lines 308-335, as a loop pair. */
  method CountRect(m: Mask, h: nat, x0: int, y0: int, x1: int, y1: int) returns (t: Tally)
    requires IsGrid(m, h) && 0 <= x0 && x1 <= |m| && 0 <= y0 && y1 <= h
    ensures t == TallyOf(RectCells(m, h, x0, x1, y0, y1))
    ensures t.pixels == |FgSet(m, h, x0, x1, y0, y1)|
  {
    t := ZeroTally;
    var y := y0;
    while y < y1
      invariant y0 <= y || y1 <= y0
      invariant y <= y1 || y == y0
      invariant t == TallyOf(RectCells(m, h, x0, x1, y0, y))
    {
      t := CountRow(m, h, y, x0, x1, t, RectCells(m, h, x0, x1, y0, y));
      assert RectCells(m, h, x0, x1, y0, y + 1) == RectCells(m, h, x0, x1, y0, y) + RowCells(m, h, y, x0, x1);
      y := y + 1;
    }
    assert |RectCells(m, h, x0, x1, y0, y1)| == |FgSet(m, h, x0, x1, y0, y1)| by {
      RectCellsExact(m, h, x0, x1, y0, y1);
    }
  }

  /** One row of the count: the cells of row y from x0 to x1 visited after `before`. */
  method CountRow(m: Mask, h: nat, y: int, x0: int, x1: int, t0: Tally, ghost before: seq<Cell>)
    returns (t: Tally)
    requires IsGrid(m, h) && 0 <= x0 && x1 <= |m| && 0 <= y < h
    requires t0 == TallyOf(before)
    ensures t == TallyOf(before + RowCells(m, h, y, x0, x1))
  {
    t := t0;
    var x := x0;
    assert before + RowCells(m, h, y, x0, x0) == before;
    while x < x1
      invariant x0 <= x && (x <= x1 || x == x0)
      invariant t == TallyOf(before + RowCells(m, h, y, x0, x))
    {
      if m[x][y] > 0 {
        TallyOfSnoc(before + RowCells(m, h, y, x0, x), (x, y));
        assert before + RowCells(m, h, y, x0, x + 1) == before + RowCells(m, h, y, x0, x) + [(x, y)];
        t := Visit(t, (x, y));
      } else {
        assert RowCells(m, h, y, x0, x + 1) == RowCells(m, h, y, x0, x);
      }
      x := x + 1;
    }
    if x1 <= x0 {
      assert RowCells(m, h, y, x0, x1) == [];
    }
  }

  /** `assignment` applied to a tally. */
  function PackTally(rec: CircleData, t: Tally, yellow: int, s: int): CircleData
    requires t.pixels >= 0 && (t.cumX != 0 && t.cumY != 0 ==> t.pixels > 0)
  {
    Assignment(rec, t.box, t.pixels, t.cumX, t.cumY, yellow, s)
  }

  lemma TallyOfPackable(cells: seq<Cell>)
    ensures TallyOf(cells).pixels >= 0
    ensures TallyOf(cells).pixels == 0 ==> TallyOf(cells) == ZeroTally
  {
  }

  /** The colour record that direct counting produces for one mask. */
  function DirectRecord(rec: CircleData, m: Mask, h: nat, roi: Box, s: int): CircleData
    requires IsGrid(m, h) && 0 <= roi.minX && roi.maxX <= |m| && 0 <= roi.minY && roi.maxY <= h
  {
    var t := TallyOf(RectCells(m, h, roi.minX, roi.maxX, roi.minY, roi.maxY));
    TallyOfPackable(RectCells(m, h, roi.minX, roi.maxX, roi.minY, roi.maxY));
    PackTally(rec, t, 0, s)
  }

  /**
   * The centre direct counting stores: [0, 0] when either coordinate sum is
   * 0, otherwise a point whose coordinates are s times a column and a row of
   * the scanned rectangle, and the box corners lie in that rectangle.
   */
  lemma DirectRecordCentroid(rec: CircleData, m: Mask, h: nat, roi: Box, s: int)
    requires IsGrid(m, h) && 0 <= roi.minX && roi.maxX <= |m| && 0 <= roi.minY && roi.maxY <= h
    requires s > 0
    ensures var t := TallyOf(RectCells(m, h, roi.minX, roi.maxX, roi.minY, roi.maxY));
      var r := DirectRecord(rec, m, h, roi, s);
      && r.pixNumber == |FgSet(m, h, roi.minX, roi.maxX, roi.minY, roi.maxY)|
      && (t.cumX == 0 || t.cumY == 0 ==> r.centerMass == [0, 0])
      && (t.cumX != 0 && t.cumY != 0 ==>
            s * roi.minX <= r.centerMass[0] <= s * (roi.maxX - 1) &&
            s * roi.minY <= r.centerMass[1] <= s * (roi.maxY - 1))
      && (t.pixels > 0 ==>
            BoxInside(t.box, roi.minX, roi.minY, roi.maxX - 1, roi.maxY - 1))
  {
    var cells := RectCells(m, h, roi.minX, roi.maxX, roi.minY, roi.maxY);
    assert |cells| == |FgSet(m, h, roi.minX, roi.maxX, roi.minY, roi.maxY)| by {
      RectCellsExact(m, h, roi.minX, roi.maxX, roi.minY, roi.maxY);
    }
    RectCellsInside(m, h, roi.minX, roi.maxX, roi.minY, roi.maxY);
    TallyCentroid(rec, cells, roi.minX, roi.minY, roi.maxX - 1, roi.maxY - 1, s);
  }

  lemma RectCellsInside(m: Mask, h: int, x0: int, x1: int, y0: int, y1: int)
    requires IsGrid(m, h) && 0 <= x0 && x1 <= |m| && 0 <= y0 && y1 <= h
    ensures AllInside(RectCells(m, h, x0, x1, y0, y1), x0, y0, x1 - 1, y1 - 1)
  {
    var cells := RectCells(m, h, x0, x1, y0, y1);
    RectCellsMembers(m, h, x0, x1, y0, y1);
    forall i | 0 <= i < |cells|
      ensures x0 <= cells[i].0 <= x1 - 1 && y0 <= cells[i].1 <= y1 - 1
    {
      assert cells[i] in cells;
    }
  }

  /**
   * The centre `assignment` stores for cells inside [x0,x1] x [y0,y1] lies in
   * the scaled rectangle, and so do the corners of the box.
   */
  lemma TallyCentroid(rec: CircleData, cells: seq<Cell>, x0: int, y0: int, x1: int, y1: int, s: int)
    requires AllInside(cells, x0, y0, x1, y1) && s > 0
    ensures var t := TallyOf(cells);
      var r := PackTally(rec, t, 0, s);
      && r.pixNumber == t.pixels
      && (t.cumX != 0 && t.cumY != 0 ==>
            s * x0 <= r.centerMass[0] <= s * x1 && s * y0 <= r.centerMass[1] <= s * y1)
      && (t.pixels > 0 ==> BoxInside(t.box, x0, y0, x1, y1))
  {
    TallyBounds(cells, x0, y0, x1, y1);
    TallyOfPackable(cells);
    var t := TallyOf(cells);
    if t.cumX != 0 && t.cumY != 0 {
      var qx, qy := t.cumX / t.pixels, t.cumY / t.pixels;
      MeanBounds(t.cumX, t.pixels, x0, x1);
      MeanBounds(t.cumY, t.pixels, y0, y1);
      MulMonotone(x0, qx, s);
      MulMonotone(qx, x1, s);
      MulMonotone(y0, qy, s);
      MulMonotone(qy, y1, s);
      assert PackTally(rec, t, 0, s).centerMass == [qx * s, qy * s];
    }
  }

  /**
   * `color_det_count`: the three body colours over the same rectangle, then
   * `assignment` per colour into slots 0, 1, 2. The source interleaves the
   * three colours in one pass; their counters never interact, so one pass
   * per colour gives the same records.
   */
  method ColorDetCount(recs: seq<CircleData>, roi: Box, red: Mask, green: Mask, blue: Mask, h: nat, s: int)
    returns (out: seq<CircleData>)
    requires |recs| == 3
    requires IsGrid(red, h) && IsGrid(green, h) && IsGrid(blue, h) && |green| == |red| && |blue| == |red|
    requires 0 <= roi.minX && roi.maxX <= |red| && 0 <= roi.minY && roi.maxY <= h
    ensures out == [DirectRecord(recs[0], red, h, roi, s),
                    DirectRecord(recs[1], green, h, roi, s),
                    DirectRecord(recs[2], blue, h, roi, s)]
  {
    var tr := CountRect(red, h, roi.minX, roi.minY, roi.maxX, roi.maxY);
    var tg := CountRect(green, h, roi.minX, roi.minY, roi.maxX, roi.maxY);
    var tb := CountRect(blue, h, roi.minX, roi.minY, roi.maxX, roi.maxY);
    TallyOfPackable(RectCells(red, h, roi.minX, roi.maxX, roi.minY, roi.maxY));
    TallyOfPackable(RectCells(green, h, roi.minX, roi.maxX, roi.minY, roi.maxY));
    TallyOfPackable(RectCells(blue, h, roi.minX, roi.maxX, roi.minY, roi.maxY));
    out := [PackTally(recs[0], tr, 0, s), PackTally(recs[1], tg, 0, s), PackTally(recs[2], tb, 0, s)];
  }
}
