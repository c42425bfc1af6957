/**
 * The region-of-interest scan of robot_tracker.py (lines 863-885, repeated
 * per colour in `color_det_dfs` and, for rows only, in `thres_adj`): rows are
 * scanned for any foreground, then columns, each axis on its own, and the
 * quarter-frame test chooses between direct counting and labelling.
 */
module Roi {
  import opened Boxes
  import opened Masks

  /** Row y holds foreground (`max(mask[:, y]) > 0`). */
  predicate RowOccupied(m: Mask, h: int, y: int)
    requires IsGrid(m, h) && 0 <= y < h
  {
    exists x :: 0 <= x < |m| && m[x][y] > 0
  }

  /** Column x holds foreground (`max(mask[x, :]) > 0`). */
  predicate ColOccupied(m: Mask, h: int, x: int)
    requires IsGrid(m, h) && 0 <= x < |m|
  {
    exists y :: 0 <= y < h && m[x][y] > 0
  }

  function RowProfile(m: Mask, h: nat): (occ: seq<bool>)
    requires IsGrid(m, h)
    ensures |occ| == h && forall y :: 0 <= y < h ==> occ[y] == RowOccupied(m, h, y)
  {
    seq(h, y requires 0 <= y < h => RowOccupied(m, h, y))
  }

  function ColProfile(m: Mask, h: nat): (occ: seq<bool>)
    requires IsGrid(m, h)
    ensures |occ| == |m| && forall x :: 0 <= x < |m| ==> occ[x] == ColOccupied(m, h, x)
  {
    seq(|m|, x requires 0 <= x < |m| => ColOccupied(m, h, x))
  }

  /**
   * One step of the scan at index i: the first occupied index replaces a
   * (0, 0) pair, later ones raise the upper end.
   */
  function ScanStep(i: int, occupied: bool, lo: int, hi: int): (int, int) {
    if !occupied then (lo, hi)
    else if hi == 0 && lo == 0 then (i, i)
    else if i > hi then (lo, i)
    else (lo, hi)
  }

  /** The pair (rel_min, rel_max) after scanning `occ` from index 0 upwards. */
  function Extent(occ: seq<bool>): (e: (int, int))
    ensures 0 <= e.0 <= e.1 && (occ != [] ==> e.1 < |occ|)
    decreases |occ|
  {
    if occ == [] then (0, 0)
    else
      var e := Extent(occ[..|occ| - 1]);
      ScanStep(|occ| - 1, occ[|occ| - 1], e.0, e.1)
  }

  /** `hi` is the last occupied index of `occ`, or 0 when none is occupied. */
  predicate IsLastOccupied(occ: seq<bool>, hi: int) {
    if exists j :: 0 <= j < |occ| && occ[j] then
      0 <= hi < |occ| && occ[hi] && forall j :: hi < j < |occ| ==> !occ[j]
    else hi == 0
  }

  /**
   * `lo` is the first occupied index at or above 1, or 0 when there is none:
   * an occupied index 0 reads as the "nothing yet" pair and is overwritten
   * by the next occupied index.
   */
  predicate IsFirstOccupiedAfterZero(occ: seq<bool>, lo: int) {
    if exists j :: 1 <= j < |occ| && occ[j] then
      1 <= lo < |occ| && occ[lo] && forall j :: 1 <= j < lo ==> !occ[j]
    else lo == 0
  }

  /** What the scan computes, stated without the scan. */
  lemma {:induction false} ExtentCharacterized(occ: seq<bool>)
    ensures IsLastOccupied(occ, Extent(occ).1)
    ensures IsFirstOccupiedAfterZero(occ, Extent(occ).0)
    ensures 0 <= Extent(occ).0 <= Extent(occ).1
    decreases |occ|
  {
    if occ != [] {
      var n := |occ|;
      var pre := occ[..n - 1];
      ExtentCharacterized(pre);
      assert forall j :: 0 <= j < n - 1 ==> pre[j] == occ[j];
      var e := Extent(pre);
      if occ[n - 1] && !(e.1 == 0 && e.0 == 0) {
        assert exists j :: 1 <= j < |pre| && pre[j];
      }
    }
  }

  /** An empty profile gives (0, 0). */
  lemma ExtentOfEmpty(occ: seq<bool>)
    requires forall j :: 0 <= j < |occ| ==> !occ[j]
    ensures Extent(occ) == (0, 0)
  {
    ExtentCharacterized(occ);
  }

  /** An occupied index 0 is forgotten as soon as a later index is occupied. */
  lemma ExtentForgetsZero(occ: seq<bool>, j: int)
    requires 1 <= j < |occ| && occ[j]
    ensures 1 <= Extent(occ).0 <= j <= Extent(occ).1
  {
    ExtentCharacterized(occ);
  }

  /** The row/column loop (lines 864-874 and 876-885), on one axis's profile. */
  method ScanExtent(occ: seq<bool>) returns (lo: int, hi: int)
    ensures (lo, hi) == Extent(occ)
  {
    lo, hi := 0, 0;
    var i := 0;
    while i < |occ|
      invariant 0 <= i <= |occ|
      invariant (lo, hi) == Extent(occ[..i])
    {
      assert occ[..i + 1][..i] == occ[..i];
      if occ[i] {
        if hi == 0 && lo == 0 {
          lo, hi := i, i;
        } else if i > hi {
          hi := i;
        }
      }
      i := i + 1;
    }
    assert occ[..i] == occ;
  }

  /** The search rectangle (rel_minx, rel_miny, rel_maxx, rel_maxy) of a mask. */
  function RoiOf(m: Mask, h: nat): (roi: Box)
    requires IsGrid(m, h)
    ensures WellFormed(roi) && 0 <= roi.minX && 0 <= roi.minY
    ensures roi.maxX <= Max(|m| - 1, 0) && roi.maxY <= Max(h - 1, 0)
  {
    ExtentCharacterized(RowProfile(m, h));
    ExtentCharacterized(ColProfile(m, h));
    var ys := Extent(RowProfile(m, h));
    var xs := Extent(ColProfile(m, h));
    Box(xs.0, ys.0, xs.1, ys.1)
  }

  /** Both scans of lines 863-885 in sequence. */
  method ScanRoi(m: Mask, h: nat) returns (roi: Box)
    requires IsGrid(m, h)
    ensures roi == RoiOf(m, h)
    ensures WellFormed(roi) && 0 <= roi.minX && 0 <= roi.minY
    ensures roi.maxX <= Max(|m| - 1, 0) && roi.maxY <= Max(h - 1, 0)
  {
    var minY, maxY := ScanExtent(RowProfile(m, h));
    var minX, maxX := ScanExtent(ColProfile(m, h));
    roi := Box(minX, minY, maxX, maxY);
  }

  /** A mask with no foreground gives the rectangle (0, 0, 0, 0). */
  lemma RoiOfEmptyMask(m: Mask, h: nat)
    requires IsGrid(m, h)
    requires forall x, y :: 0 <= x < |m| && 0 <= y < h ==> m[x][y] <= 0
    ensures RoiOf(m, h) == EmptyBox
  {
    ExtentOfEmpty(RowProfile(m, h));
    ExtentOfEmpty(ColProfile(m, h));
  }

  /**
   * Every foreground cell off row 0 and column 0 lies in the closed
   * rectangle; a foreground cell in row 0 or column 0 may lie outside it.
   */
  lemma RoiCoversInterior(m: Mask, h: nat, x: int, y: int)
    requires IsGrid(m, h) && 1 <= x < |m| && 1 <= y < h && m[x][y] > 0
    ensures Contains(RoiOf(m, h), (x, y))
  {
    var rows := RowProfile(m, h);
    var cols := ColProfile(m, h);
    assert rows[y];
    assert cols[x];
    ExtentForgetsZero(rows, y);
    ExtentForgetsZero(cols, x);
    ExtentCharacterized(rows);
    ExtentCharacterized(cols);
  }

  /**
   * The rows of the rectangle end at the last foreground row, and the
   * rectangle starts at the first foreground row at or after row 1.
   */
  lemma RoiRows(m: Mask, h: nat)
    requires IsGrid(m, h)
    ensures IsLastOccupied(RowProfile(m, h), RoiOf(m, h).maxY)
    ensures IsFirstOccupiedAfterZero(RowProfile(m, h), RoiOf(m, h).minY)
    ensures IsLastOccupied(ColProfile(m, h), RoiOf(m, h).maxX)
    ensures IsFirstOccupiedAfterZero(ColProfile(m, h), RoiOf(m, h).minX)
  {
    ExtentCharacterized(RowProfile(m, h));
    ExtentCharacterized(ColProfile(m, h));
  }

  /**
   * The quarter-frame test of line 892: direct counting is chosen exactly
   * when both spans, plus one, fit four times into the frame's extent.
   */
  function UseDirectCount(roi: Box, width: int, height: int): (r: bool)
    ensures r <==> 4 * (roi.maxY - roi.minY + 1) <= height && 4 * (roi.maxX - roi.minX + 1) <= width
  {
    (roi.maxY - roi.minY) < height / 4 && (roi.maxX - roi.minX) < width / 4
  }

  /**
   * The diameter estimate of `thres_adj` (lines 1353-1368): the row half of
   * the scan only, rel_maxy - rel_miny.
   */
  function DiameterPixels(m: Mask, h: nat): (d: int)
    requires IsGrid(m, h)
    ensures d >= 0
    ensures (forall y :: 0 <= y < h ==> !RowOccupied(m, h, y)) ==> d == 0
  {
    ExtentCharacterized(RowProfile(m, h));
    var ys := Extent(RowProfile(m, h));
    ys.1 - ys.0
  }
}
