/**
 * Marker-to-body correspondence and heading, lines 957-987 of
 * robot_tracker.py: every heading marker picks the body or bodies at
 * minimum distance from it, and each such body records the marker's index
 * and a compass heading computed from the body-to-marker vector.
 *
 * Distances are compared squared (the square root of `euclidean_dist`,
 * lines 240-246, is monotone). The angle `math.degrees(math.atan2(y, x))`
 * is a parameter `angle(y, x)` returning a real.
 */
module Correspondence {
  import opened Records

  /** The three-branch remap of lines 979-984 from a mathematical angle to a compass heading. */
  function Remap(a: real): real {
    if a >= 0.0 && a <= 90.0 then 90.0 - a
    else if a > 90.0 && a <= 180.0 then 360.0 + (90.0 - a)
    else 90.0 + (-1.0 * a)
  }

  /** The remap turns counter-clockwise from east into clockwise from north, into [0, 360). */
  lemma RemapRange(a: real)
    ensures Remap(a) == 90.0 - a || Remap(a) == 450.0 - a
    ensures -180.0 < a <= 180.0 ==> 0.0 <= Remap(a) < 360.0
  {
  }

  /**
   * On (-180, 180] the remap is (90 - a) mod 360: any r in [0, 360) that
   * differs from 90 - a by a multiple k of 360 is the remap.
   */
  lemma RemapIsMod360(a: real, r: real, k: int)
    requires -180.0 < a <= 180.0
    requires 0.0 <= r < 360.0 && r == 90.0 - a + 360.0 * (k as real)
    ensures r == Remap(a)
  {
  }

  lemma RemapExamples()
    ensures Remap(0.0) == 90.0 && Remap(45.0) == 45.0 && Remap(-90.0) == 180.0
    ensures Remap(135.0) == 315.0 && Remap(180.0) == 270.0
  {
  }

  /** Python's `int()` on a real: truncation toward zero. */
  function Trunc(r: real): int {
    if r >= 0.0 then r.Floor else -((-r).Floor)
  }

  /** Truncation drops the fraction toward zero. */
  lemma TruncTowardZero(r: real)
    ensures r >= 0.0 ==> Trunc(r) as real <= r < Trunc(r) as real + 1.0
    ensures r < 0.0 ==> Trunc(r) as real - 1.0 < r <= Trunc(r) as real
  {
  }

  /** The squared distance between two centres (lines 240-246 without the root). */
  function Dist2(p: seq<int>, q: seq<int>): (d: int)
    requires |p| >= 2 && |q| >= 2
    ensures d >= 0
  {
    var dx, dy := p[0] - q[0], p[1] - q[1];
    dx * dx + dy * dy
  }

  /** The squared distance is never negative and is 0 exactly at the same point. */
  lemma Dist2Zero(p: seq<int>, q: seq<int>)
    requires |p| >= 2 && |q| >= 2
    ensures Dist2(p, q) >= 0
    ensures Dist2(p, q) == 0 <==> p[0] == q[0] && p[1] == q[1]
  {
    SquareZero(p[0] - q[0]);
    SquareZero(p[1] - q[1]);
  }

  lemma SquareZero(a: int)
    ensures a * a >= 0 && (a * a == 0 <==> a == 0)
  {
    if a < 0 {
      assert a * a == (-a) * (-a);
    }
  }

  /** Every record has a two-entry centre. */
  predicate Centred(cs: seq<CircleData>) {
    forall i :: 0 <= i < |cs| ==> |cs[i].centerMass| >= 2
  }

  /** The distance list of lines 958-964 for marker y. */
  function DistanceList(y: CircleData, cs: seq<CircleData>): (ds: seq<int>)
    requires |y.centerMass| >= 2 && Centred(cs)
    ensures |ds| == |cs|
    ensures forall i :: 0 <= i < |cs| ==> ds[i] == Dist2(y.centerMass, cs[i].centerMass)
  {
    seq(|cs|, i requires 0 <= i < |cs| => Dist2(y.centerMass, cs[i].centerMass))
  }

  /** Body z is at the minimum of marker y's distance list (line 975). */
  predicate IsNearest(y: CircleData, cs: seq<CircleData>, z: int)
    requires |y.centerMass| >= 2 && Centred(cs)
  {
    0 <= z < |cs| && |cs| > 0 && Dist2(y.centerMass, cs[z].centerMass) == MinOf(DistanceList(y, cs))
  }

  /** Being at the minimum means being no farther from the marker than any other body. */
  lemma NearestMeansClosest(y: CircleData, cs: seq<CircleData>, z: int)
    requires |y.centerMass| >= 2 && Centred(cs) && 0 <= z < |cs|
    ensures IsNearest(y, cs, z) <==>
      forall j :: 0 <= j < |cs| ==> Dist2(y.centerMass, cs[z].centerMass) <= Dist2(y.centerMass, cs[j].centerMass)
  {
    var ds := DistanceList(y, cs);
    if forall j :: 0 <= j < |cs| ==> Dist2(y.centerMass, cs[z].centerMass) <= Dist2(y.centerMass, cs[j].centerMass) {
      var k := MinOfAttained(ds);
      assert ds[z] <= ds[k];
    }
  }

  /** x_val of lines 965-966: body x minus marker x. */
  function XVal(y: CircleData, c: CircleData): int
    requires |y.centerMass| >= 2 && |c.centerMass| >= 2
  {
    -y.centerMass[0] + c.centerMass[0]
  }

  /** y_val of lines 967-968, through the frame height as written. */
  function YVal(y: CircleData, c: CircleData, height: int): int
    requires |y.centerMass| >= 2 && |c.centerMass| >= 2
  {
    -(height - y.centerMass[1]) + (height - c.centerMass[1])
  }

  /** The height cancels: the vertical term is marker y minus body y. */
  lemma YValIgnoresHeight(y: CircleData, c: CircleData, height: int)
    requires |y.centerMass| >= 2 && |c.centerMass| >= 2
    ensures YVal(y, c, height) == y.centerMass[1] - c.centerMass[1]
  {
  }

  /** The heading stored for body c and marker y (lines 976-987). */
  function Heading(y: CircleData, c: CircleData, height: int, angle: (int, int) -> real): int
    requires |y.centerMass| >= 2 && |c.centerMass| >= 2
  {
    Trunc(Remap(angle(YVal(y, c, height), XVal(y, c))))
  }

  /**
   * For an angle in (-180, 180] the stored heading lies in [0, 359], the
   * truncated compass heading.
   */
  lemma HeadingRange(y: CircleData, c: CircleData, height: int, angle: (int, int) -> real)
    requires |y.centerMass| >= 2 && |c.centerMass| >= 2
    requires -180.0 < angle(YVal(y, c, height), XVal(y, c)) <= 180.0
    ensures 0 <= Heading(y, c, height, angle) < 360
  {
    var a := angle(YVal(y, c, height), XVal(y, c));
    RemapRange(a);
    TruncTowardZero(Remap(a));
  }

  /** Lines 985-986: the body records the marker index and the heading. */
  function MarkBody(c: CircleData, x: int, heading: int): (r: CircleData)
    ensures r.correspondence == x && r.orientation == heading
    ensures r == c.(correspondence := r.correspondence, orientation := r.orientation)
  {
    c.(correspondence := x, orientation := heading)
  }

  /**
   * One marker's pass (lines 958-987) over the current records `cur`: every
   * body at minimum distance is marked. Nearness and the heading are taken
   * from the centres of `base`, the records before the first marker; the
   * loop never changes a centre (see `BodyAfter`), so these are the
   * centres the loop reads.
   */
  function MarkerStep(cur: seq<CircleData>, base: seq<CircleData>, y: CircleData, x: int, height: int,
                      angle: (int, int) -> real): (r: seq<CircleData>)
    requires |y.centerMass| >= 2 && Centred(base) && |cur| == |base|
    ensures |r| == |cur|
  {
    seq(|cur|, z requires 0 <= z < |cur| => MarkIfNearest(cur[z], base, y, x, height, angle, z))
  }

  /** Body z after marker y with index x. */
  function MarkIfNearest(c: CircleData, base: seq<CircleData>, y: CircleData, x: int, height: int,
                         angle: (int, int) -> real, z: int): CircleData
    requires |y.centerMass| >= 2 && Centred(base) && 0 <= z < |base|
  {
    if IsNearest(y, base, z) then MarkBody(c, x, Heading(y, base[z], height, angle)) else c
  }

  /** The last of markers 0 .. n - 1 that has body z at minimum distance, or -1 when none does. */
  function LastNearest(cs: seq<CircleData>, ys: seq<CircleData>, n: int, z: int): (x: int)
    requires Centred(cs) && Centred(ys) && 0 <= n <= |ys|
    ensures -1 <= x < n
    ensures x >= 0 ==> IsNearest(ys[x], cs, z)
    ensures forall x' :: x < x' < n ==> !IsNearest(ys[x'], cs, z)
    decreases n
  {
    if n == 0 then -1
    else if IsNearest(ys[n - 1], cs, z) then n - 1
    else LastNearest(cs, ys, n - 1, z)
  }

  /**
   * Body z once markers 0 .. n - 1 are processed: the body as it was when no
   * marker had it at minimum distance, otherwise marked by the last marker
   * that did, whatever the earlier ones wrote.
   */
  function BodyAfter(cs: seq<CircleData>, ys: seq<CircleData>, n: int, height: int,
                     angle: (int, int) -> real, z: int): (r: CircleData)
    requires Centred(cs) && Centred(ys) && 0 <= n <= |ys| && 0 <= z < |cs|
    ensures r == cs[z].(correspondence := r.correspondence, orientation := r.orientation)
  {
    var x := LastNearest(cs, ys, n, z);
    if x < 0 then cs[z] else MarkBody(cs[z], x, Heading(ys[x], cs[z], height, angle))
  }

  /** The records once every marker is processed. */
  function Corresponded(cs: seq<CircleData>, ys: seq<CircleData>, height: int, angle: (int, int) -> real): (r: seq<CircleData>)
    requires Centred(cs) && Centred(ys)
    ensures |r| == |cs|
  {
    seq(|cs|, z requires 0 <= z < |cs| => BodyAfter(cs, ys, |ys|, height, angle, z))
  }

  /** Processing marker n takes body z from its state after n markers to its state after n + 1. */
  lemma BodyAfterStep(cs: seq<CircleData>, ys: seq<CircleData>, n: int, height: int,
                      angle: (int, int) -> real, z: int)
    requires Centred(cs) && Centred(ys) && 0 <= n < |ys| && 0 <= z < |cs|
    ensures BodyAfter(cs, ys, n + 1, height, angle, z)
         == MarkIfNearest(BodyAfter(cs, ys, n, height, angle, z), cs, ys[n], n, height, angle, z)
  {
    var c := BodyAfter(cs, ys, n, height, angle, z);
    if IsNearest(ys[n], cs, z) {
      assert LastNearest(cs, ys, n + 1, z) == n;
      var h := Heading(ys[n], cs[z], height, angle);
      assert MarkBody(c, n, h) == MarkBody(cs[z], n, h);
    } else {
      assert LastNearest(cs, ys, n + 1, z) == LastNearest(cs, ys, n, z);
    }
  }

  /** A body that no marker has at minimum distance keeps its record. */
  lemma CorrespondedUntouched(cs: seq<CircleData>, ys: seq<CircleData>, height: int,
                              angle: (int, int) -> real, z: int)
    requires Centred(cs) && Centred(ys) && 0 <= z < |cs|
    requires forall x :: 0 <= x < |ys| ==> !IsNearest(ys[x], cs, z)
    ensures Corresponded(cs, ys, height, angle)[z] == cs[z]
  {
  }

  /**
   * When marker x has body z at minimum distance and no later marker does,
   * body z ends with correspondence x and marker x's heading, its other
   * fields as they were.
   */
  lemma CorrespondedLastWins(cs: seq<CircleData>, ys: seq<CircleData>, height: int,
                             angle: (int, int) -> real, z: int, x: int)
    requires Centred(cs) && Centred(ys) && 0 <= z < |cs| && 0 <= x < |ys|
    requires IsNearest(ys[x], cs, z)
    requires forall x' :: x < x' < |ys| ==> !IsNearest(ys[x'], cs, z)
    ensures Corresponded(cs, ys, height, angle)[z] == MarkBody(cs[z], x, Heading(ys[x], cs[z], height, angle))
  {
  }

  /** Every marker marks at least one body: the one the minimum came from. */
  lemma MarkerHasNearest(cs: seq<CircleData>, y: CircleData)
    requires Centred(cs) && |y.centerMass| >= 2 && |cs| > 0
    ensures exists z :: 0 <= z < |cs| && IsNearest(y, cs, z)
  {
    var z := MinOfAttained(DistanceList(y, cs));
    assert IsNearest(y, cs, z);
  }

  /** `min(distances)`. */
  function MinOf(s: seq<int>): (r: int)
    requires |s| > 0
    ensures forall i :: 0 <= i < |s| ==> r <= s[i]
    decreases |s|
  {
    if |s| == 1 then s[0]
    else
      var m := MinOf(s[..|s| - 1]);
      assert forall i :: 0 <= i < |s| - 1 ==> s[..|s| - 1][i] == s[i];
      if s[|s| - 1] < m then s[|s| - 1] else m
  }

  /** The minimum is one of the entries. */
  lemma {:induction false} MinOfAttained(s: seq<int>) returns (k: int)
    requires |s| > 0
    ensures 0 <= k < |s| && s[k] == MinOf(s)
    decreases |s|
  {
    if |s| == 1 {
      k := 0;
    } else {
      var k' := MinOfAttained(s[..|s| - 1]);
      k := if s[|s| - 1] < MinOf(s[..|s| - 1]) then |s| - 1 else k';
    }
  }

  /**
   * The correspondence loop of lines 957-987, marker by marker: the
   * distance list, its minimum, then every body at that minimum is marked.
   */
  method Correspond(cs: seq<CircleData>, ys: seq<CircleData>, height: int, angle: (int, int) -> real)
    returns (out: seq<CircleData>)
    requires Centred(cs) && Centred(ys)
    requires |ys| > 0 ==> |cs| > 0
    ensures out == Corresponded(cs, ys, height, angle)
  {
    out := cs;
    for x := 0 to |ys|
      invariant |out| == |cs|
      invariant forall z :: 0 <= z < |cs| ==> out[z] == BodyAfter(cs, ys, x, height, angle, z)
    {
      ghost var prev := out;
      var distances, xyVals := Distances(out, cs, ys[x], height);
      var minimum := MinOf(distances);
      out := MarkNearest(out, cs, ys[x], x, height, angle, distances, xyVals, minimum);
      forall z | 0 <= z < |cs|
        ensures out[z] == BodyAfter(cs, ys, x + 1, height, angle, z)
      {
        BodyAfterStep(cs, ys, x, height, angle, z);
        assert out[z] == MarkIfNearest(prev[z], cs, ys[x], x, height, angle, z);
      }
    }
  }

  /**
   * The inner loop of lines 961-969: the distance and vector from marker y
   * to every body of `cur`, whose centres are those of `base`.
   */
  method Distances(cur: seq<CircleData>, ghost base: seq<CircleData>, y: CircleData, height: int)
    returns (distances: seq<int>, xyVals: seq<(int, int)>)
    requires Centred(base) && |y.centerMass| >= 2 && |cur| == |base|
    requires forall i :: 0 <= i < |cur| ==> cur[i].centerMass == base[i].centerMass
    ensures |xyVals| == |base|
    ensures distances == DistanceList(y, base)
    ensures forall i :: 0 <= i < |base| ==> xyVals[i] == (XVal(y, base[i]), YVal(y, base[i], height))
  {
    distances, xyVals := [], [];
    for i := 0 to |cur|
      invariant |distances| == |xyVals| == i
      invariant forall j :: 0 <= j < i ==> distances[j] == Dist2(y.centerMass, base[j].centerMass)
      invariant forall j :: 0 <= j < i ==> xyVals[j] == (XVal(y, base[j]), YVal(y, base[j], height))
    {
      distances := distances + [Dist2(y.centerMass, cur[i].centerMass)];
      xyVals := xyVals + [(XVal(y, cur[i]), YVal(y, cur[i], height))];
    }
  }

  /** The loop of lines 974-987: mark every body whose distance equals the minimum. */
  method MarkNearest(cur: seq<CircleData>, ghost base: seq<CircleData>, y: CircleData, x: int, height: int,
                     angle: (int, int) -> real, distances: seq<int>, xyVals: seq<(int, int)>, minimum: int)
    returns (out: seq<CircleData>)
    requires Centred(base) && |y.centerMass| >= 2 && |cur| == |base| > 0
    requires |xyVals| == |base| && distances == DistanceList(y, base)
    requires forall i :: 0 <= i < |base| ==> xyVals[i] == (XVal(y, base[i]), YVal(y, base[i], height))
    requires minimum == MinOf(distances)
    ensures out == MarkerStep(cur, base, y, x, height, angle)
  {
    out := cur;
    for z := 0 to |distances|
      invariant |out| == |cur|
      invariant forall j :: 0 <= j < z ==> out[j] == MarkIfNearest(cur[j], base, y, x, height, angle, j)
      invariant forall j :: z <= j < |cur| ==> out[j] == cur[j]
    {
      if minimum == distances[z] {
        var angleDeg := Remap(angle(xyVals[z].1, xyVals[z].0));
        out := out[z := MarkBody(out[z], x, Trunc(angleDeg))];
      }
    }
  }
}
