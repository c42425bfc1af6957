/**
 * The flood fill `DFS2` of robot_tracker.py (lines 171-237) and the
 * labelling path `color_det_dfs` (lines 357-542) that calls it once per
 * unlabelled foreground pixel of each colour's search rectangle.
 *
 * `DFS2` keeps one current pixel and a stack. Each pass labels the current
 * pixel and adds it to the tally, counts its free 8-neighbours (inside the
 * frame, unlabelled, foreground) and then moves to the last free neighbour
 * found, pushing it first when there was more than one, or else pops the
 * stack. A pixel can be visited more than once (a popped pixel is visited
 * again), so the count and the sums are over visits, not over distinct pixels.
 */
module FloodFill {
  import opened Boxes
  import opened Masks
  import opened Records

  /** p and q are the same pixel or 8-neighbours. */
  predicate Touches(p: Cell, q: Cell) {
    -1 <= p.0 - q.0 <= 1 && -1 <= p.1 - q.1 <= 1
  }

  /** A label grid with the mask's shape. */
  predicate Fits(img: Mask, h: int, labels: array2<int>) {
    IsGrid(img, h) && labels.Length0 == |img| && labels.Length1 == h
  }

  /** The neighbour test of lines 213-218: inside the frame, unlabelled and foreground. */
  predicate Free(img: Mask, h: int, labels: array2<int>, p: Cell)
    reads labels
    requires Fits(img, h, labels)
  {
    0 <= p.0 <= |img| - 1 && 0 <= p.1 <= h - 1 && labels[p.0, p.1] == 0 && img[p.0][p.1] > 0
  }

  /** The k-th offset (a, b) of the double loop of lines 211-212, b outer and a inner. */
  function Offset(k: int): (int, int) {
    if k < 3 then (k - 1, -1) else if k < 6 then (k - 4, 0) else (k - 7, 1)
  }

  function Neighbour(c: Cell, k: int): Cell {
    (c.0 + Offset(k).0, c.1 + Offset(k).1)
  }

  /** The offsets below k whose neighbour of c is free. */
  ghost function FreeSlots(img: Mask, h: int, labels: array2<int>, c: Cell, k: int): set<int>
    reads labels
    requires Fits(img, h, labels)
  {
    set j | 0 <= j < k && Free(img, h, labels, Neighbour(c, j))
  }

  /** p is the free neighbour of c found last among offsets below k. */
  ghost predicate IsLastFree(img: Mask, h: int, labels: array2<int>, c: Cell, k: int, p: Cell)
    reads labels
    requires Fits(img, h, labels)
  {
    exists j :: 0 <= j < k && p == Neighbour(c, j) && Free(img, h, labels, p) &&
      forall i :: j < i < k ==> !Free(img, h, labels, Neighbour(c, i))
  }

  /** Widening the scan by one offset adds that offset exactly when its neighbour is free. */
  lemma FreeSlotsStep(img: Mask, h: int, labels: array2<int>, c: Cell, k: int)
    requires Fits(img, h, labels) && 0 <= k
    ensures k !in FreeSlots(img, h, labels, c, k)
    ensures FreeSlots(img, h, labels, c, k + 1) ==
      FreeSlots(img, h, labels, c, k) + (if Free(img, h, labels, Neighbour(c, k)) then {k} else {})
  {
  }

  /** One pass of the inner neighbour loop, on the count and the last free neighbour. */
  lemma SlotStep(img: Mask, h: int, labels: array2<int>, c: Cell, k: int, r: int, p: Cell)
    requires Fits(img, h, labels) && 0 <= k
    requires r == |FreeSlots(img, h, labels, c, k)|
    requires r > 0 ==> IsLastFree(img, h, labels, c, k, p)
    ensures Free(img, h, labels, Neighbour(c, k)) ==>
      r + 1 == |FreeSlots(img, h, labels, c, k + 1)| && IsLastFree(img, h, labels, c, k + 1, Neighbour(c, k))
    ensures !Free(img, h, labels, Neighbour(c, k)) ==>
      r == |FreeSlots(img, h, labels, c, k + 1)| && (r > 0 ==> IsLastFree(img, h, labels, c, k + 1, p))
  {
    FreeSlotsStep(img, h, labels, c, k);
    if !Free(img, h, labels, Neighbour(c, k)) && r > 0 {
      var j :| 0 <= j < k && p == Neighbour(c, j) && Free(img, h, labels, p) &&
        forall i :: j < i < k ==> !Free(img, h, labels, Neighbour(c, i));
      assert forall i :: j < i < k + 1 ==> !Free(img, h, labels, Neighbour(c, i));
    }
  }

  /** |s + {x}| grows by one exactly when x is new. */
  lemma AddCard(s: set<Cell>, x: Cell)
    ensures |s + {x}| == |s| + (if x in s then 0 else 1)
  {
    if x in s {
      assert s + {x} == s;
    }
  }

  /** The last free neighbour is free and touches c. */
  lemma LastFreeTouches(img: Mask, h: int, labels: array2<int>, c: Cell, p: Cell)
    requires Fits(img, h, labels) && IsLastFree(img, h, labels, c, 9, p)
    ensures Free(img, h, labels, p) && Touches(p, c)
  {
    var j :| 0 <= j < 9 && p == Neighbour(c, j) && Free(img, h, labels, p) &&
      forall i :: j < i < 9 ==> !Free(img, h, labels, Neighbour(c, i));
  }

  /** No free slot means no free neighbour. */
  lemma NoFreeSlots(img: Mask, h: int, labels: array2<int>, c: Cell)
    requires Fits(img, h, labels)
    ensures |FreeSlots(img, h, labels, c, 9)| == 0 <==> forall k :: 0 <= k < 9 ==> !Free(img, h, labels, Neighbour(c, k))
  {
    if |FreeSlots(img, h, labels, c, 9)| == 0 {
      forall k | 0 <= k < 9 ensures !Free(img, h, labels, Neighbour(c, k)) {
        assert k !in FreeSlots(img, h, labels, c, 9);
      }
    } else {
      var k :| k in FreeSlots(img, h, labels, c, 9);
    }
  }

  /**
   * The neighbour loop of lines 211-224: `remaining` free neighbours, the
   * last one found (in the loop's order) at (cAux, dAux) = (c + aAux, d + bAux).
   */
  method ScanNeighbours(img: Mask, h: nat, labels: array2<int>, c: int, d: int)
    returns (remaining: int, cAux: int, dAux: int, aAux: int, bAux: int)
    requires Fits(img, h, labels)
    ensures remaining == |FreeSlots(img, h, labels, (c, d), 9)|
    ensures remaining > 0 ==> IsLastFree(img, h, labels, (c, d), 9, (cAux, dAux))
    ensures remaining > 0 ==> cAux == c + aAux && dAux == d + bAux
  {
    remaining := 0;
    cAux, dAux, aAux, bAux := 0, 0, 0, 0;
    for b := -1 to 2
      invariant remaining == |FreeSlots(img, h, labels, (c, d), 3 * (b + 1))|
      invariant remaining > 0 ==> IsLastFree(img, h, labels, (c, d), 3 * (b + 1), (cAux, dAux))
      invariant remaining > 0 ==> cAux == c + aAux && dAux == d + bAux
    {
      remaining, cAux, dAux, aAux, bAux := ScanRow(img, h, labels, c, d, b, remaining, cAux, dAux, aAux, bAux);
    }
  }

  /** The inner loop of lines 212-224, over a for one row offset b. */
  method ScanRow(img: Mask, h: nat, labels: array2<int>, c: int, d: int, b: int,
                 remaining0: int, cAux0: int, dAux0: int, aAux0: int, bAux0: int)
    returns (remaining: int, cAux: int, dAux: int, aAux: int, bAux: int)
    requires Fits(img, h, labels) && -1 <= b <= 1
    requires remaining0 == |FreeSlots(img, h, labels, (c, d), 3 * (b + 1))|
    requires remaining0 > 0 ==> IsLastFree(img, h, labels, (c, d), 3 * (b + 1), (cAux0, dAux0))
    requires remaining0 > 0 ==> cAux0 == c + aAux0 && dAux0 == d + bAux0
    ensures remaining == |FreeSlots(img, h, labels, (c, d), 3 * (b + 2))|
    ensures remaining > 0 ==> IsLastFree(img, h, labels, (c, d), 3 * (b + 2), (cAux, dAux))
    ensures remaining > 0 ==> cAux == c + aAux && dAux == d + bAux
  {
    remaining, cAux, dAux, aAux, bAux := remaining0, cAux0, dAux0, aAux0, bAux0;
    for a := -1 to 2
      invariant remaining == |FreeSlots(img, h, labels, (c, d), 3 * (b + 1) + (a + 1))|
      invariant remaining > 0 ==> IsLastFree(img, h, labels, (c, d), 3 * (b + 1) + (a + 1), (cAux, dAux))
      invariant remaining > 0 ==> cAux == c + aAux && dAux == d + bAux
    {
      remaining, cAux, dAux, aAux, bAux := ScanSlot(img, h, labels, c, d, a, b, remaining, cAux, dAux, aAux, bAux);
    }
  }

  /** The body of lines 213-224 for one offset (a, b). */
  method ScanSlot(img: Mask, h: nat, labels: array2<int>, c: int, d: int, a: int, b: int,
                  remaining0: int, cAux0: int, dAux0: int, aAux0: int, bAux0: int)
    returns (remaining: int, cAux: int, dAux: int, aAux: int, bAux: int)
    requires Fits(img, h, labels) && -1 <= a <= 1 && -1 <= b <= 1
    requires remaining0 == |FreeSlots(img, h, labels, (c, d), 3 * (b + 1) + (a + 1))|
    requires remaining0 > 0 ==> IsLastFree(img, h, labels, (c, d), 3 * (b + 1) + (a + 1), (cAux0, dAux0))
    requires remaining0 > 0 ==> cAux0 == c + aAux0 && dAux0 == d + bAux0
    ensures remaining == |FreeSlots(img, h, labels, (c, d), 3 * (b + 1) + (a + 2))|
    ensures remaining > 0 ==> IsLastFree(img, h, labels, (c, d), 3 * (b + 1) + (a + 2), (cAux, dAux))
    ensures remaining > 0 ==> cAux == c + aAux && dAux == d + bAux
  {
    remaining, cAux, dAux, aAux, bAux := remaining0, cAux0, dAux0, aAux0, bAux0;
    ghost var k := 3 * (b + 1) + (a + 1);
    assert Neighbour((c, d), k) == (c + a, d + b);
    SlotStep(img, h, labels, (c, d), k, remaining, (cAux, dAux));
    if c + a >= 0 && c + a <= |img| - 1 && d + b >= 0 && d + b <= h - 1 &&
       labels[c + a, d + b] == 0 && img[c + a][d + b] > 0
    {
      remaining := remaining + 1;
      cAux, dAux := c + a, d + b;
      aAux, bAux := a, b;
    }
  }

  /** Every visit after the first touches an earlier visit, named by `parent`. */
  ghost predicate IsChain(visits: seq<Cell>, parent: seq<int>) {
    |parent| == |visits| &&
    forall i {:trigger parent[i]} :: 1 <= i < |visits| ==> 0 <= parent[i] < i && Touches(visits[i], visits[parent[i]])
  }

  /** Every cell is an in-frame foreground pixel. */
  ghost predicate AllForeground(img: Mask, h: int, cells: seq<Cell>)
    requires IsGrid(img, h)
  {
    forall i :: 0 <= i < |cells| ==> InBounds(img, h, cells[i].0, cells[i].1) && img[cells[i].0][cells[i].1] > 0
  }

  /** A walk through foreground pixels, each step to an 8-neighbour (or staying put). */
  ghost predicate IsPath(img: Mask, h: int, path: seq<Cell>)
    requires IsGrid(img, h)
  {
    |path| > 0 && AllForeground(img, h, path) &&
    forall i :: 1 <= i < |path| ==> Touches(path[i - 1], path[i])
  }

  /** A chain of foreground visits joins every visit to the first one by a foreground path. */
  lemma {:induction false} ChainPath(img: Mask, h: int, visits: seq<Cell>, parent: seq<int>, i: int)
    returns (path: seq<Cell>)
    requires IsGrid(img, h) && IsChain(visits, parent) && AllForeground(img, h, visits)
    requires 0 <= i < |visits|
    ensures IsPath(img, h, path) && path[0] == visits[0] && path[|path| - 1] == visits[i]
    decreases i
  {
    if i == 0 {
      path := [visits[0]];
    } else {
      var pre := ChainPath(img, h, visits, parent, parent[i]);
      path := pre + [visits[i]];
      assert forall j :: 0 <= j < |pre| ==> path[j] == pre[j];
    }
  }

  /**
   * The move of lines 225-235: with several free neighbours push the last
   * one and go there, with one go there, with none pop the stack.
   */
  method Advance(stack: seq<Cell>, remaining: int, c: int, d: int, cAux: int, dAux: int, aAux: int, bAux: int)
    returns (stack': seq<Cell>, c': int, d': int)
    requires remaining <= 0 ==> |stack| > 0
    ensures remaining > 1 ==> stack' == stack + [(c + aAux, d + bAux)] && (c', d') == (cAux, dAux)
    ensures remaining == 1 ==> stack' == stack && (c', d') == (cAux, dAux)
    ensures remaining <= 0 ==> |stack| > 0 && stack' == stack[..|stack| - 1] && (c', d') == stack[|stack| - 1]
  {
    if remaining > 1 {
      stack' := stack + [(c + aAux, d + bAux)];
      c', d' := cAux, dAux;
    } else if remaining == 1 {
      stack' := stack;
      c', d' := cAux, dAux;
    } else {
      c', d' := stack[|stack| - 1].0, stack[|stack| - 1].1;
      stack' := stack[..|stack| - 1];
    }
  }

  /** The distinct cells of a visit sequence. */
  ghost function CellsOf(visits: seq<Cell>): set<Cell> {
    set i | 0 <= i < |visits| :: visits[i]
  }

  lemma CellsOfSnoc(visits: seq<Cell>, c: Cell)
    ensures CellsOf(visits + [c]) == CellsOf(visits) + {c}
  {
    var s := visits + [c];
    assert s[|visits|] == c;
    forall p | p in CellsOf(visits) ensures p in CellsOf(s) {
      var i :| 0 <= i < |visits| && visits[i] == p;
      assert s[i] == p;
    }
  }

  lemma SubsetCard(a: set<Cell>, b: set<Cell>)
    requires a <= b
    ensures |a| <= |b|
  {
    assert b == a + (b - a);
  }

  /** Every in-frame cell. */
  ghost function Frame(img: Mask, h: int): set<Cell> {
    set x, y | 0 <= x < |img| && 0 <= y < h :: (x, y)
  }

  /**
   * The shape of the walk at the head of each pass of `DFS2`: `seen` holds
   * the visited cells, every stack entry was visited or is the current cell,
   * and every visit after the first (and the current cell) touches an earlier
   * visit.
   */
  ghost predicate WalkInv(img: Mask, h: int, start: Cell, stack: seq<Cell>, cur: Cell,
                          visits: seq<Cell>, parent: seq<int>, seen: set<Cell>, curParent: int)
    requires IsGrid(img, h)
  {
    && seen == CellsOf(visits) && seen <= Frame(img, h)
    && InBounds(img, h, cur.0, cur.1) && img[cur.0][cur.1] > 0
    && (forall i :: 0 <= i < |stack| ==> stack[i] in seen || stack[i] == cur)
    && (visits == [] ==> stack == [start] && cur == start)
    && (visits != [] ==> visits[0] == start && 0 <= curParent < |visits| && Touches(cur, visits[curParent]))
    && IsChain(visits, parent) && AllForeground(img, h, visits)
  }

  /**
   * One pass keeps the walk's shape: the current cell is visited, then the
   * walk moves to a touching foreground cell (pushing it or not) or pops.
   */
  lemma WalkStep(img: Mask, h: int, start: Cell, stack: seq<Cell>, cur: Cell,
                 visits: seq<Cell>, parent: seq<int>, seen: set<Cell>, curParent: int,
                 stack': seq<Cell>, cur': Cell)
    returns (curParent': int)
    requires IsGrid(img, h) && WalkInv(img, h, start, stack, cur, visits, parent, seen, curParent)
    requires
      || ((stack' == stack + [cur'] || stack' == stack) && Touches(cur', cur) &&
          InBounds(img, h, cur'.0, cur'.1) && img[cur'.0][cur'.1] > 0)
      || (|stack| > 0 && stack' == stack[..|stack| - 1] && cur' == stack[|stack| - 1])
    ensures WalkInv(img, h, start, stack', cur', visits + [cur], parent + [curParent], seen + {cur}, curParent')
  {
    var visits', parent' := visits + [cur], parent + [curParent];
    CellsOfSnoc(visits, cur);
    assert cur in Frame(img, h);
    assert forall i :: 0 <= i < |visits| ==> visits'[i] == visits[i];
    if (stack' == stack + [cur'] || stack' == stack) && Touches(cur', cur) &&
       InBounds(img, h, cur'.0, cur'.1) && img[cur'.0][cur'.1] > 0 {
      curParent' := |visits|;
    } else {
      assert cur' in seen + {cur};
      assert cur' in CellsOf(visits');
      curParent' :| 0 <= curParent' < |visits'| && visits'[curParent'] == cur';
    }
  }

  /** The labels as a value, for stating what a later state kept of them. */
  ghost function Snapshot(labels: array2<int>): (g: seq<seq<int>>)
    reads labels
    ensures |g| == labels.Length0 && forall x :: 0 <= x < |g| ==> |g[x]| == labels.Length1
    ensures forall x, y :: 0 <= x < labels.Length0 && 0 <= y < labels.Length1 ==> g[x][y] == labels[x, y]
  {
    seq(labels.Length0, x reads labels requires 0 <= x < labels.Length0 =>
      seq(labels.Length1, y reads labels requires 0 <= y < labels.Length1 => labels[x, y]))
  }

  /**
   * Every cell of `seen` carries label L and was unlabelled in `lab0`; every
   * other cell keeps its label from `lab0`.
   */
  ghost predicate Marked(labels: array2<int>, lab0: seq<seq<int>>, seen: set<Cell>, L: int)
    reads labels
    requires |lab0| == labels.Length0 && forall x :: 0 <= x < |lab0| ==> |lab0[x]| == labels.Length1
  {
    forall x, y :: 0 <= x < labels.Length0 && 0 <= y < labels.Length1 ==>
      labels[x, y] == (if (x, y) in seen then L else lab0[x][y]) &&
      ((x, y) in seen ==> lab0[x][y] == 0)
  }

  /** Line 189: label the current pixel. */
  method Mark(labels: array2<int>, c: int, d: int, L: int, ghost lab0: seq<seq<int>>, ghost seen: set<Cell>)
    requires 0 <= c < labels.Length0 && 0 <= d < labels.Length1
    requires |lab0| == labels.Length0 && forall x :: 0 <= x < |lab0| ==> |lab0[x]| == labels.Length1
    requires Marked(labels, lab0, seen, L)
    requires (c, d) in seen || labels[c, d] == 0
    modifies labels
    ensures Marked(labels, lab0, seen + {(c, d)}, L)
    ensures labels[c, d] == L
  {
    labels[c, d] := L;
  }

  /**
   * One pass of the loop of lines 188-235: label the current pixel with L,
   * add it to the tally, scan its neighbours and move. The walk goes on to a
   * free neighbour (pushed first or not) or to the popped top of the stack.
   */
  method Pass(img: Mask, h: nat, labels: array2<int>, L: int, stack: seq<Cell>, c: int, d: int,
              t: Tally, ghost lab0: seq<seq<int>>, ghost seen: set<Cell>)
    returns (stack': seq<Cell>, c': int, d': int, t': Tally)
    requires Fits(img, h, labels) && InBounds(img, h, c, d) && |stack| > 0
    requires |lab0| == labels.Length0 && forall x :: 0 <= x < |lab0| ==> |lab0[x]| == labels.Length1
    requires Marked(labels, lab0, seen, L)
    requires (c, d) in seen || labels[c, d] == 0
    modifies labels
    ensures Marked(labels, lab0, seen + {(c, d)}, L)
    ensures t' == Visit(t, (c, d))
    ensures
      || ((stack' == stack + [(c', d')] || stack' == stack) && Touches((c', d'), (c, d)) &&
          InBounds(img, h, c', d') && img[c'][d'] > 0 && labels[c', d'] == 0)
      || (stack' == stack[..|stack| - 1] && (c', d') == stack[|stack| - 1])
  {
    Mark(labels, c, d, L, lab0, seen);
    // Lines 196-208 are the `limits` update of lines 123-137.
    t' := Tally(t.pixels + 1, t.cumX + c, t.cumY + d, Limits(c, d, t.box));
    var remaining, cAux, dAux, aAux, bAux := ScanNeighbours(img, h, labels, c, d);
    if remaining > 0 {
      LastFreeTouches(img, h, labels, (c, d), (cAux, dAux));
    }
    stack', c', d' := Advance(stack, remaining, c, d, cAux, dAux, aAux, bAux);
  }

  /**
   * `DFS2`: labels with count + 1 every pixel it visits, all of them
   * foreground pixels that were unlabelled on entry and joined to the start
   * through visited pixels, leaves every other label as it was, and returns
   * the tally (visits, coordinate sums, box) of its visits in order.
   */
  method Dfs2(img: Mask, h: nat, labels: array2<int>, x2: int, y2: int, count: int)
    returns (newCount: int, pixNum: int, cumul: (int, int), limits: Box,
             ghost visits: seq<Cell>, ghost parent: seq<int>)
    requires Fits(img, h, labels)
    requires InBounds(img, h, x2, y2) && img[x2][y2] > 0 && labels[x2, y2] == 0
    requires count >= 0
    modifies labels
    ensures newCount == count + 1
    ensures Tally(pixNum, cumul.0, cumul.1, limits) == TallyOf(visits)
    ensures |visits| >= 1 && visits[0] == (x2, y2)
    ensures IsChain(visits, parent) && AllForeground(img, h, visits)
    ensures forall x, y :: 0 <= x < |img| && 0 <= y < h ==>
      labels[x, y] == (if (x, y) in CellsOf(visits) then newCount else old(labels[x, y])) &&
      ((x, y) in CellsOf(visits) ==> old(labels[x, y]) == 0)
  {
    var stack: seq<Cell> := [(x2, y2)];
    newCount := count + 1;
    var t := ZeroTally;
    // The first pass of lines 184-186 starts from the seed pixel.
    var c, d := x2, y2;
    ghost var seen: set<Cell> := {};
    ghost var lab0 := Snapshot(labels);
    ghost var curParent := 0;
    visits, parent := [], [];
    while |stack| > 0
      invariant newCount == count + 1
      invariant WalkInv(img, h, (x2, y2), stack, (c, d), visits, parent, seen, curParent)
      invariant (c, d) in seen || labels[c, d] == 0
      invariant Marked(labels, lab0, seen, newCount)
      invariant t == TallyOf(visits)
      decreases 2 * (|Frame(img, h)| - |seen|) + |stack| + (if (c, d) in seen then 2 else 0)
    {
      ghost var cur := (c, d);
      ghost var before, seenBefore, stackBefore := visits, seen, stack;
      stack, c, d, t := Pass(img, h, labels, newCount, stack, c, d, t, lab0, seen);
      TallyOfSnoc(visits, cur);
      ghost var next := WalkStep(img, h, (x2, y2), stackBefore, cur, before, parent, seenBefore, curParent, stack, (c, d));
      visits, parent := visits + [cur], parent + [curParent];
      curParent := next;
      seen := seen + {cur};
      AddCard(seenBefore, cur);
      SubsetCard(seen, Frame(img, h));
    }
    pixNum, cumul, limits := t.pixels, (t.cumX, t.cumY), t.box;
  }
}
