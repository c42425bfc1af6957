/**
 * The labelling path `color_det_dfs` of robot_tracker.py (lines 357-542):
 * per colour, the search rectangle of the row/column scan, a fresh all-zero
 * label grid, one `DFS2` call for every unlabelled foreground cell of the
 * half-open rectangle in row-major order (lines 394-403), then
 * `reducing_color` and the packing of the first surviving component.
 */
module Labelling {
  import opened Boxes
  import opened Masks
  import opened Records
  import opened Roi
  import opened Reducers
  import opened FloodFill

  /** Lines 402-403: [pixels, floor mean x, floor mean y, box] of one tally. */
  function ComponentEntry(t: Tally): (e: Candidate)
    requires t.pixels > 0
    ensures e.pixels == t.pixels && e.box == t.box
    ensures e.meanX * t.pixels <= t.cumX < (e.meanX + 1) * t.pixels
    ensures e.meanY * t.pixels <= t.cumY < (e.meanY + 1) * t.pixels
  {
    Candidate(t.pixels, t.cumX / t.pixels, t.cumY / t.pixels, t.box)
  }

  /** p comes strictly before q in the row-major order of the scan. */
  predicate ScanBefore(p: Cell, q: Cell) {
    p.1 < q.1 || (p.1 == q.1 && p.0 < q.0)
  }

  /**
   * In label grid g every label lies in [0, |walks|], a labelled cell is
   * foreground, every visited cell of walk k carries label k + 1, and a cell
   * with label k + 1 is a visited cell of walk k.
   */
  ghost predicate LabelledGrid(img: Mask, h: int, g: seq<seq<int>>, walks: seq<seq<Cell>>)
    requires IsGrid(img, h) && IsGrid(g, h) && |g| == |img|
  {
    && (forall x, y :: InBounds(img, h, x, y) ==> 0 <= g[x][y] <= |walks| && (g[x][y] > 0 ==> img[x][y] > 0))
    && (forall k, i :: 0 <= k < |walks| && 0 <= i < |walks[k]| ==>
          InBounds(img, h, walks[k][i].0, walks[k][i].1) && g[walks[k][i].0][walks[k][i].1] == k + 1)
    && (forall x, y, k :: InBounds(img, h, x, y) && 0 <= k < |walks| && g[x][y] == k + 1 ==> (x, y) in CellsOf(walks[k]))
  }

  /** `LabelledGrid` for the label array's current contents. */
  ghost predicate Labelled(img: Mask, h: int, labels: array2<int>, walks: seq<seq<Cell>>)
    reads labels
    requires Fits(img, h, labels)
  {
    && (forall x, y :: InBounds(img, h, x, y) ==> 0 <= labels[x, y] <= |walks| && (labels[x, y] > 0 ==> img[x][y] > 0))
    && (forall k, i :: 0 <= k < |walks| && 0 <= i < |walks[k]| ==>
          InBounds(img, h, walks[k][i].0, walks[k][i].1) && labels[walks[k][i].0, walks[k][i].1] == k + 1)
    && (forall x, y, k :: InBounds(img, h, x, y) && 0 <= k < |walks| && labels[x, y] == k + 1 ==> (x, y) in CellsOf(walks[k]))
  }

  lemma LabelledSnapshot(img: Mask, h: int, labels: array2<int>, walks: seq<seq<Cell>>)
    requires Fits(img, h, labels)
    ensures Labelled(img, h, labels, walks) <==> LabelledGrid(img, h, Snapshot(labels), walks)
  {
  }

  /**
   * A walk that `DFS2` labelled with the next label L keeps the grid
   * labelled: its cells were unlabelled and now carry L, every other cell
   * kept its label.
   */
  lemma LabelledAfterWalk(img: Mask, h: int, g0: seq<seq<int>>, g1: seq<seq<int>>,
                          walks: seq<seq<Cell>>, w: seq<Cell>, L: int)
    requires IsGrid(img, h) && IsGrid(g0, h) && |g0| == |img| && IsGrid(g1, h) && |g1| == |img|
    requires LabelledGrid(img, h, g0, walks)
    requires L == |walks| + 1 && AllForeground(img, h, w)
    requires forall x, y :: 0 <= x < |img| && 0 <= y < h ==>
      g1[x][y] == (if (x, y) in CellsOf(w) then L else g0[x][y]) &&
      ((x, y) in CellsOf(w) ==> g0[x][y] == 0)
    ensures LabelledGrid(img, h, g1, walks + [w])
  {
    var walks': seq<seq<Cell>> := walks + [w];
    forall x, y | InBounds(img, h, x, y)
      ensures 0 <= g1[x][y] <= |walks'| && (g1[x][y] > 0 ==> img[x][y] > 0)
    {
      if (x, y) in CellsOf(w) {
        var i :| 0 <= i < |w| && w[i] == (x, y);
      }
    }
    forall x, y, k | InBounds(img, h, x, y) && 0 <= k < |walks'| && g1[x][y] == k + 1
      ensures (x, y) in CellsOf(walks'[k])
    {
      if (x, y) !in CellsOf(w) {
        assert walks'[k] == walks[k];
      }
    }
    forall k, i | 0 <= k < |walks'| && 0 <= i < |walks'[k]|
      ensures InBounds(img, h, walks'[k][i].0, walks'[k][i].1) && g1[walks'[k][i].0][walks'[k][i].1] == k + 1
    {
      if k == |walks| {
        assert walks'[k] == w;
        assert w[i] in CellsOf(w);
      } else {
        assert walks'[k] == walks[k];
      }
    }
  }

  /**
   * Entry `comp` belongs to walk `walk`: the walk is a non-empty chain of
   * foreground visits whose start lies in the rectangle, and the entry is
   * that of the walk's tally.
   */
  ghost predicate ComponentOf(img: Mask, h: int, roi: Box, comp: Candidate, walk: seq<Cell>, parent: seq<int>)
    requires IsGrid(img, h)
  {
    && |walk| > 0 && AllForeground(img, h, walk) && IsChain(walk, parent)
    && roi.minX <= walk[0].0 < roi.maxX && roi.minY <= walk[0].1 < roi.maxY
    && TallyOf(walk).pixels > 0 && comp == ComponentEntry(TallyOf(walk))
  }

  /** The component list matches the walks entry by entry, and the starts come in scan order. */
  ghost predicate Components(img: Mask, h: int, roi: Box, comps: seq<Candidate>,
                             walks: seq<seq<Cell>>, parents: seq<seq<int>>)
    requires IsGrid(img, h)
  {
    && |comps| == |walks| == |parents|
    && (forall k :: 0 <= k < |walks| ==> ComponentOf(img, h, roi, comps[k], walks[k], parents[k]))
    && (forall k :: 1 <= k < |walks| ==> ScanBefore(walks[k - 1][0], walks[k][0]))
  }

  /** Appending a component whose start comes after the last start keeps `Components`. */
  lemma ComponentsSnoc(img: Mask, h: int, roi: Box, comps: seq<Candidate>, walks: seq<seq<Cell>>,
                       parents: seq<seq<int>>, c: Candidate, w: seq<Cell>, p: seq<int>)
    requires IsGrid(img, h) && Components(img, h, roi, comps, walks, parents)
    requires ComponentOf(img, h, roi, c, w, p)
    requires walks != [] ==> ScanBefore(walks[|walks| - 1][0], w[0])
    ensures Components(img, h, roi, comps + [c], walks + [w], parents + [p])
  {
    var comps', walks', parents' := comps + [c], walks + [w], parents + [p];
    forall k | 0 <= k < |walks'| ensures ComponentOf(img, h, roi, comps'[k], walks'[k], parents'[k]) {
      if k < |walks| {
        assert comps'[k] == comps[k] && walks'[k] == walks[k] && parents'[k] == parents[k];
      }
    }
    forall k | 1 <= k < |walks'| ensures ScanBefore(walks'[k - 1][0], walks'[k][0]) {
      if k < |walks| {
        assert walks'[k - 1] == walks[k - 1] && walks'[k] == walks[k];
      }
    }
  }

  /**
   * One cell of the scan (lines 397-403): an unlabelled foreground cell
   * starts a new component under the next label; any other cell is skipped.
   */
  method LabelAt(img: Mask, h: nat, labels: array2<int>, roi: Box, x: int, y: int,
                 counter0: int, comps0: seq<Candidate>, ghost walks0: seq<seq<Cell>>, ghost parents0: seq<seq<int>>)
    returns (counter: int, comps: seq<Candidate>, ghost walks: seq<seq<Cell>>, ghost parents: seq<seq<int>>)
    requires Fits(img, h, labels) && InBounds(img, h, x, y)
    requires roi.minX <= x < roi.maxX && roi.minY <= y < roi.maxY
    requires Labelled(img, h, labels, walks0) && Components(img, h, roi, comps0, walks0, parents0)
    requires counter0 == |comps0|
    requires walks0 != [] ==> ScanBefore(walks0[|walks0| - 1][0], (x, y))
    modifies labels
    ensures Labelled(img, h, labels, walks) && Components(img, h, roi, comps, walks, parents)
    ensures counter == |comps|
    ensures walks != [] ==> ScanBefore(walks[|walks| - 1][0], (x + 1, y))
    ensures img[x][y] > 0 ==> labels[x, y] != 0
    ensures forall x', y' :: InBounds(img, h, x', y') && old(labels[x', y']) != 0 ==> labels[x', y'] != 0
  {
    counter, comps, walks, parents := counter0, comps0, walks0, parents0;
    if img[x][y] > 0 && labels[x, y] == 0 {
      var pixels, cumul, limits;
      ghost var vis, par;
      counter, pixels, cumul, limits, vis, par := StartComponent(img, h, labels, x, y, counter, walks);
      var entry := ComponentEntry(Tally(pixels, cumul.0, cumul.1, limits));
      assert ComponentOf(img, h, roi, entry, vis, par);
      ComponentsSnoc(img, h, roi, comps, walks, parents, entry, vis, par);
      comps := comps + [entry];
      walks, parents := walks + [vis], parents + [par];
    }
  }

  /**
   * The `DFS2` call of line 401 from an unlabelled foreground cell: it hands
   * out the next label, and the grid stays labelled with the new walk added.
   */
  method StartComponent(img: Mask, h: nat, labels: array2<int>, x: int, y: int, count: int, ghost walks: seq<seq<Cell>>)
    returns (counter: int, pixels: int, cumul: (int, int), limits: Box, ghost vis: seq<Cell>, ghost par: seq<int>)
    requires Fits(img, h, labels) && InBounds(img, h, x, y) && img[x][y] > 0 && labels[x, y] == 0
    requires Labelled(img, h, labels, walks) && count == |walks|
    modifies labels
    ensures counter == count + 1
    ensures Tally(pixels, cumul.0, cumul.1, limits) == TallyOf(vis)
    ensures |vis| >= 1 && vis[0] == (x, y) && IsChain(vis, par) && AllForeground(img, h, vis)
    ensures Labelled(img, h, labels, walks + [vis])
    ensures labels[x, y] != 0
    ensures forall x', y' :: InBounds(img, h, x', y') && old(labels[x', y']) != 0 ==> labels[x', y'] != 0
  {
    ghost var g0 := Snapshot(labels);
    LabelledSnapshot(img, h, labels, walks);
    counter, pixels, cumul, limits, vis, par := Dfs2(img, h, labels, x, y, count);
    assert vis[0] in CellsOf(vis);
    LabelledAfterWalk(img, h, g0, Snapshot(labels), walks, vis, counter);
    LabelledSnapshot(img, h, labels, walks + [vis]);
  }

  /** The inner loop of lines 395-403 over row y. */
  method LabelRow(img: Mask, h: nat, labels: array2<int>, roi: Box, y: int,
                  counter0: int, comps0: seq<Candidate>, ghost walks0: seq<seq<Cell>>, ghost parents0: seq<seq<int>>)
    returns (counter: int, comps: seq<Candidate>, ghost walks: seq<seq<Cell>>, ghost parents: seq<seq<int>>)
    requires Fits(img, h, labels)
    requires 0 <= roi.minX <= roi.maxX <= |img| && roi.minY <= y < roi.maxY && 0 <= y < h
    requires Labelled(img, h, labels, walks0) && Components(img, h, roi, comps0, walks0, parents0)
    requires counter0 == |comps0|
    requires walks0 != [] ==> walks0[|walks0| - 1][0].1 < y
    modifies labels
    ensures Labelled(img, h, labels, walks) && Components(img, h, roi, comps, walks, parents)
    ensures counter == |comps|
    ensures walks != [] ==> walks[|walks| - 1][0].1 <= y
    ensures forall x :: roi.minX <= x < roi.maxX && img[x][y] > 0 ==> labels[x, y] != 0
    ensures forall x, y' :: InBounds(img, h, x, y') && old(labels[x, y']) != 0 ==> labels[x, y'] != 0
  {
    counter, comps, walks, parents := counter0, comps0, walks0, parents0;
    for x := roi.minX to roi.maxX
      invariant Labelled(img, h, labels, walks) && Components(img, h, roi, comps, walks, parents)
      invariant counter == |comps|
      invariant walks != [] ==> ScanBefore(walks[|walks| - 1][0], (x, y))
      invariant forall x' :: roi.minX <= x' < x && img[x'][y] > 0 ==> labels[x', y] != 0
      invariant forall x', y' :: InBounds(img, h, x', y') && old(labels[x', y']) != 0 ==> labels[x', y'] != 0
    {
      counter, comps, walks, parents := LabelAt(img, h, labels, roi, x, y, counter, comps, walks, parents);
    }
  }

  /**
   * The double loop of lines 394-403 on a fresh all-zero label grid: every
   * foreground cell of the half-open rectangle ends up labelled, labels are
   * 1..counter on foreground cells only, and component k is the tally of
   * the walk that carries label k + 1.
   */
  method LabelRect(img: Mask, h: nat, labels: array2<int>, roi: Box)
    returns (counter: int, comps: seq<Candidate>, ghost walks: seq<seq<Cell>>, ghost parents: seq<seq<int>>)
    requires Fits(img, h, labels)
    requires 0 <= roi.minX <= roi.maxX <= |img| && 0 <= roi.minY <= roi.maxY <= h
    requires forall x, y :: 0 <= x < |img| && 0 <= y < h ==> labels[x, y] == 0
    modifies labels
    ensures Labelled(img, h, labels, walks) && Components(img, h, roi, comps, walks, parents)
    ensures counter == |comps|
    ensures forall x, y :: roi.minX <= x < roi.maxX && roi.minY <= y < roi.maxY && img[x][y] > 0 ==> labels[x, y] != 0
  {
    counter, comps, walks, parents := 0, [], [], [];
    for y := roi.minY to roi.maxY
      invariant Labelled(img, h, labels, walks) && Components(img, h, roi, comps, walks, parents)
      invariant counter == |comps|
      invariant walks != [] ==> walks[|walks| - 1][0].1 < y
      invariant forall x, y' :: roi.minX <= x < roi.maxX && roi.minY <= y' < y && img[x][y'] > 0 ==> labels[x, y'] != 0
    {
      counter, comps, walks, parents := LabelRow(img, h, labels, roi, y, counter, comps, walks, parents);
    }
  }

  /**
   * Every entry of the list is a component of at least one visit whose
   * floor means lie in the frame and whose box lies in the frame, so the
   * divisions of lines 402-403 never divide by zero.
   */
  lemma ComponentInFrame(img: Mask, h: int, roi: Box, c: Candidate, w: seq<Cell>, p: seq<int>)
    requires IsGrid(img, h) && ComponentOf(img, h, roi, c, w, p)
    ensures c.pixels == |w| >= 1
    ensures 0 <= c.meanX < |img| && 0 <= c.meanY < h
    ensures BoxInside(c.box, 0, 0, |img| - 1, h - 1)
  {
    assert AllInside(w, 0, 0, |img| - 1, h - 1);
    TallyBounds(w, 0, 0, |img| - 1, h - 1);
    var t := TallyOf(w);
    MeanBounds(t.cumX, t.pixels, 0, |img| - 1);
    MeanBounds(t.cumY, t.pixels, 0, h - 1);
  }

  /**
   * Every visited cell of a component is joined to the component's start,
   * an unlabelled foreground cell of the rectangle, by a path through
   * 8-neighbouring foreground cells.
   */
  lemma ComponentConnected(img: Mask, h: int, roi: Box, c: Candidate, w: seq<Cell>, p: seq<int>, i: int)
    returns (path: seq<Cell>)
    requires IsGrid(img, h) && ComponentOf(img, h, roi, c, w, p) && 0 <= i < |w|
    ensures IsPath(img, h, path) && path[0] == w[0] && path[|path| - 1] == w[i]
    ensures roi.minX <= path[0].0 < roi.maxX && roi.minY <= path[0].1 < roi.maxY
  {
    path := ChainPath(img, h, w, p, i);
  }

  /**
   * One colour of `color_det_dfs`: the search rectangle (lines 370-392), a
   * fresh all-zero label grid (lines 363-365) and the labelling loop
   * (lines 394-403).
   */
  method LabelColour(m: Mask, h: nat)
    returns (comps: seq<Candidate>, labels: array2<int>, ghost walks: seq<seq<Cell>>, ghost parents: seq<seq<int>>)
    requires IsGrid(m, h)
    ensures fresh(labels) && Fits(m, h, labels)
    ensures Labelled(m, h, labels, walks) && Components(m, h, RoiOf(m, h), comps, walks, parents)
    ensures forall x, y ::
      RoiOf(m, h).minX <= x < RoiOf(m, h).maxX && RoiOf(m, h).minY <= y < RoiOf(m, h).maxY && m[x][y] > 0 ==>
      labels[x, y] != 0
  {
    var roi := ScanRoi(m, h);
    labels := new int[|m|, h]((x, y) => 0);
    var counter;
    counter, comps, walks, parents := LabelRect(m, h, labels, roi);
  }

  /**
   * comps is the component list of a labelling of img's search rectangle:
   * some walks, parent chains and label grid g such that component k is the
   * tally of walk k, g carries label k + 1 exactly on walk k's cells, and
   * every foreground cell of the rectangle carries a label.
   */
  ghost predicate LabelledComponents(img: Mask, h: nat, comps: seq<Candidate>)
    requires IsGrid(img, h)
  {
    exists walks: seq<seq<Cell>>, parents: seq<seq<int>>, g: seq<seq<int>> ::
      && Components(img, h, RoiOf(img, h), comps, walks, parents)
      && IsGrid(g, h) && |g| == |img| && LabelledGrid(img, h, g, walks)
      && Covers(img, h, RoiOf(img, h), g)
  }

  /** Every foreground cell of the rectangle roi carries a nonzero label in g. */
  ghost predicate Covers(img: Mask, h: int, roi: Box, g: seq<seq<int>>)
    requires IsGrid(img, h) && IsGrid(g, h) && |g| == |img|
  {
    forall x, y :: InBounds(img, h, x, y) && roi.minX <= x < roi.maxX && roi.minY <= y < roi.maxY && img[x][y] > 0 ==>
      g[x][y] != 0
  }

  /** The label array that `LabelColour` returns witnesses `LabelledComponents`. */
  lemma LabelledComponentsWitness(img: Mask, h: nat, labels: array2<int>, comps: seq<Candidate>,
                                  walks: seq<seq<Cell>>, parents: seq<seq<int>>)
    requires Fits(img, h, labels)
    requires Labelled(img, h, labels, walks) && Components(img, h, RoiOf(img, h), comps, walks, parents)
    requires forall x, y ::
      RoiOf(img, h).minX <= x < RoiOf(img, h).maxX && RoiOf(img, h).minY <= y < RoiOf(img, h).maxY && img[x][y] > 0 ==>
      labels[x, y] != 0
    ensures LabelledComponents(img, h, comps)
  {
    var g := Snapshot(labels);
    LabelledSnapshot(img, h, labels, walks);
    assert Covers(img, h, RoiOf(img, h), g);
  }

  /**
   * Every foreground cell of the search rectangle is a visited cell of the
   * walk behind some listed component; in particular the list is non-empty
   * as soon as the rectangle holds a foreground cell.
   */
  lemma CoveredByComponent(img: Mask, h: nat, comps: seq<Candidate>, x: int, y: int)
    returns (k: int, w: seq<Cell>, p: seq<int>)
    requires IsGrid(img, h) && LabelledComponents(img, h, comps) && InBounds(img, h, x, y)
    requires RoiOf(img, h).minX <= x < RoiOf(img, h).maxX && RoiOf(img, h).minY <= y < RoiOf(img, h).maxY
    requires img[x][y] > 0
    ensures 0 <= k < |comps| && ComponentOf(img, h, RoiOf(img, h), comps[k], w, p) && (x, y) in CellsOf(w)
  {
    var walks, parents, g :| && Components(img, h, RoiOf(img, h), comps, walks, parents)
                             && IsGrid(g, h) && |g| == |img| && LabelledGrid(img, h, g, walks)
                             && Covers(img, h, RoiOf(img, h), g);
    k := g[x][y] - 1;
    w, p := walks[k], parents[k];
  }

  /**
   * `color_det_dfs`: per body colour, label the search rectangle, reduce
   * the component list with `reducing_color` and pack its first entry into
   * slots 0, 1 and 2 (lines 472-540).
   */
  method ColorDetDfs(recs: seq<CircleData>, red: Mask, green: Mask, blue: Mask, h: nat, s: int)
    returns (out: seq<CircleData>, redComps: seq<Candidate>, greenComps: seq<Candidate>,
             blueComps: seq<Candidate>)
    requires |recs| == 3 && IsGrid(red, h) && IsGrid(green, h) && IsGrid(blue, h)
    ensures out == [PackFirst(recs[0], ReducedColor(redComps), s),
                    PackFirst(recs[1], ReducedColor(greenComps), s),
                    PackFirst(recs[2], ReducedColor(blueComps), s)]
    ensures LabelledComponents(red, h, redComps)
    ensures LabelledComponents(green, h, greenComps)
    ensures LabelledComponents(blue, h, blueComps)
  {
    var r, labR, walksR, parentsR := LabelColour(red, h);
    LabelledComponentsWitness(red, h, labR, r, walksR, parentsR);
    var g, labG, walksG, parentsG := LabelColour(green, h);
    LabelledComponentsWitness(green, h, labG, g, walksG, parentsG);
    var b, labB, walksB, parentsB := LabelColour(blue, h);
    LabelledComponentsWitness(blue, h, labB, b, walksB, parentsB);
    redComps, greenComps, blueComps := r, g, b;
    r := ReducingColor(r);
    g := ReducingColor(g);
    b := ReducingColor(b);
    out := [PackFirst(recs[0], r, s), PackFirst(recs[1], g, s), PackFirst(recs[2], b, s)];
  }
}
