/**
 * The per-slot record `circle_data` of robot_tracker.py (lines 48-64), the
 * component entries that the labelling path appends, and the two packing
 * helpers `assignment` and `assignment2` (lines 90-119).
 *
 * The source scales every coordinate by `int(1/default.multiple)`; here that
 * integer is the parameter `s` (1 with the shipped `multiple = 1.0`).
 */
module Records {
  import opened Boxes

  /**
   * One tracked slot. `centerMass` is the Python list `_center_mass`: empty
   * in a fresh record, two entries once a packing helper has run.
   */
  datatype CircleData = CircleData(
    box: Box,
    pixNumber: int,
    cumulativeX: int,
    cumulativeY: int,
    centerMass: seq<int>,
    correspondence: int,
    orientation: int)

  /** `circle_data()`: every number 0, no centre yet. */
  const NewCircleData: CircleData := CircleData(EmptyBox, 0, 0, 0, [], 0, 0)

  /** The box with every corner multiplied by the scale; a non-negative scale keeps it well-formed. */
  function ScaleBox(b: Box, s: int): (r: Box)
    ensures s >= 0 && WellFormed(b) ==> WellFormed(r)
  {
    Box(b.minX * s, b.minY * s, b.maxX * s, b.maxY * s)
  }

  /**
   * `assignment`: store a tally's box (scaled), count and sums, and a centre
   * that is [0, 0] whenever either sum is 0 and otherwise the floor mean of
   * each axis times `s`. The `yellow` flag selects between two identical
   * branches. Correspondence and orientation are kept.
   */
  function Assignment(rec: CircleData, box: Box, pix: int, cumX: int, cumY: int, yellow: int, s: int): (r: CircleData)
    requires pix >= 0
    requires cumX != 0 && cumY != 0 ==> pix > 0
    ensures |r.centerMass| == 2
    ensures r.box == ScaleBox(box, s) && r.pixNumber == pix
    ensures r.cumulativeX == cumX && r.cumulativeY == cumY
    ensures r.correspondence == rec.correspondence && r.orientation == rec.orientation
    ensures cumX == 0 || cumY == 0 ==> r.centerMass == [0, 0]
    ensures cumX != 0 && cumY != 0 ==> r.centerMass == [(cumX / pix) * s, (cumY / pix) * s]
  {
    var center :=
      if cumX == 0 || cumY == 0 then [0, 0]
      else if yellow == 0 then [(cumX / pix) * s, (cumY / pix) * s]
      else [(cumX / pix) * s, (cumY / pix) * s];
    rec.(box := ScaleBox(box, s), pixNumber := pix, cumulativeX := cumX, cumulativeY := cumY,
         centerMass := center)
  }

  /**
   * The stored centre is s times the floor mean: s * cumX / pix rounded down
   * to a multiple of s, in both coordinates.
   */
  lemma AssignmentCentre(rec: CircleData, box: Box, pix: int, cumX: int, cumY: int, yellow: int, s: int)
    requires pix >= 0
    requires cumX != 0 && cumY != 0 ==> pix > 0
    ensures var r := Assignment(rec, box, pix, cumX, cumY, yellow, s);
      s > 0 && cumX != 0 && cumY != 0 ==>
        r.centerMass[0] * pix <= s * cumX < (r.centerMass[0] + s) * pix &&
        r.centerMass[1] * pix <= s * cumY < (r.centerMass[1] + s) * pix
  {
    FloorMeanScaled(cumX, pix, s);
    FloorMeanScaled(cumY, pix, s);
  }

  /** (q * s) * n <= s * sum < (q * s + s) * n for q = sum / n. */
  lemma FloorMeanScaled(sum: int, n: int, s: int)
    ensures n > 0 && s > 0 ==> (sum / n) * s * n <= s * sum < ((sum / n) * s + s) * n
  {
    if n > 0 && s > 0 {
      var q := sum / n;
      assert q * n <= sum < q * n + n;
      assert s * (q * n) <= s * sum by { MulMonotone(q * n, sum, s); }
      assert s * sum < s * (q * n + n) by {
        assert s * (q * n + n) - s * sum == s * (q * n + n - sum);
      }
      assert q * s * n == s * (q * n);
      assert (q * s + s) * n == s * (q * n + n);
    }
  }

  /** The `yellow` argument of `assignment` makes no difference. */
  lemma AssignmentIgnoresYellowFlag(rec: CircleData, box: Box, pix: int, cumX: int, cumY: int, s: int)
    requires pix >= 0 && (cumX != 0 && cumY != 0 ==> pix > 0)
    ensures Assignment(rec, box, pix, cumX, cumY, 0, s) == Assignment(rec, box, pix, cumX, cumY, 1, s)
  {
  }

  /** A tally in which every pixel lies in the first column gets the centre [0, 0]. */
  lemma AssignmentZeroColumnQuirk(rec: CircleData, s: int)
    ensures Assignment(rec, Box(0, 4, 0, 6), 3, 0, 15, 0, s).centerMass == [0, 0]
  {
  }

  /**
   * `assignment2`: store an already averaged component, box and centre
   * scaled by `s`; the sums are left as they were.
   */
  function Assignment2(rec: CircleData, box: Box, pix: int, center: (int, int), s: int): (r: CircleData)
    ensures r.box == ScaleBox(box, s) && r.pixNumber == pix
    ensures r.centerMass == [center.0 * s, center.1 * s]
    ensures r.cumulativeX == rec.cumulativeX && r.cumulativeY == rec.cumulativeY
    ensures r.correspondence == rec.correspondence && r.orientation == rec.orientation
  {
    rec.(box := ScaleBox(box, s), pixNumber := pix, centerMass := [center.0 * s, center.1 * s])
  }

  /**
   * `get_center_mass`: the floor means of the stored sums. The source divides
   * by the pixel count without a guard, so a zero count is excluded.
   */
  function GetCenterMass(rec: CircleData): (c: (int, int))
    requires rec.pixNumber > 0
    ensures c.0 * rec.pixNumber <= rec.cumulativeX < (c.0 + 1) * rec.pixNumber
    ensures c.1 * rec.pixNumber <= rec.cumulativeY < (c.1 + 1) * rec.pixNumber
  {
    (rec.cumulativeX / rec.pixNumber, rec.cumulativeY / rec.pixNumber)
  }

  /**
   * One entry of a colour's component list in `color_det_dfs`:
   * [pixels, mean x, mean y, minx, miny, maxx, maxy].
   */
  datatype Candidate = Candidate(pixels: int, meanX: int, meanY: int, box: Box)

  /**
   * Lines 495-506 (and the green and blue copies): pack the first surviving
   * component, or an all-zero record with centre [0, 0] when none survived.
   */
  function PackFirst(rec: CircleData, cs: seq<Candidate>, s: int): (r: CircleData)
    ensures |cs| > 0 ==> r == Assignment2(rec, cs[0].box, cs[0].pixels, (cs[0].meanX, cs[0].meanY), s)
    ensures |cs| == 0 ==> r.box == EmptyBox && r.pixNumber == 0 && r.centerMass == [0, 0]
    ensures r.correspondence == rec.correspondence && r.orientation == rec.orientation
  {
    if |cs| > 0 then Assignment2(rec, cs[0].box, cs[0].pixels, (cs[0].meanX, cs[0].meanY), s)
    else Assignment2(rec, EmptyBox, 0, (0, 0), s)
  }

  /**
   * Lines 936-938: a slot whose centre list is still empty is given the
   * frame centre [width / 2, height / 2].
   */
  function WithDefaultCenter(rec: CircleData, width: int, height: int): (r: CircleData)
    ensures |rec.centerMass| != 0 ==> r == rec
    ensures |rec.centerMass| == 0 ==> r.centerMass == [width / 2, height / 2]
  {
    if |rec.centerMass| == 0 then rec.(centerMass := [width / 2, height / 2]) else rec
  }

  /**
   * Every record that has been through `assignment` already has a centre, so
   * the frame-centre default of lines 936-938 never applies to it.
   */
  lemma DefaultCenterNeverAfterAssignment(rec: CircleData, box: Box, pix: int, cumX: int, cumY: int, s: int, width: int, height: int)
    requires pix >= 0 && (cumX != 0 && cumY != 0 ==> pix > 0)
    ensures var a := Assignment(rec, box, pix, cumX, cumY, 1, s);
      WithDefaultCenter(a, width, height) == a
  {
  }
}
