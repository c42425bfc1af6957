/**
 * The candidate reducers of robot_tracker.py: `reducing_color` (lines
 * 250-272) and `reducing_yellow` (lines 276-291). Both walk the list from its
 * end and pop, in place, every component whose pixel count lies outside the
 * plausible-size window [320, 520].
 */
module Reducers {
  import opened Masks
  import opened Records

  const MinPixels: int := 320
  const MaxPixels: int := 520

  /** The plausible-size window of lines 256-257 and 281-282. */
  predicate InWindow(c: Candidate) {
    MinPixels <= c.pixels <= MaxPixels
  }

  /** The components of `cs` whose size lies in the window, in their order. */
  function KeepInWindow(cs: seq<Candidate>): (r: seq<Candidate>)
    ensures |r| <= |cs| && forall i :: 0 <= i < |r| ==> InWindow(r[i])
    decreases |cs|
  {
    if cs == [] then []
    else (if InWindow(cs[0]) then [cs[0]] else []) + KeepInWindow(cs[1..])
  }

  /** Filtering keeps exactly the in-window components and never adds any. */
  lemma {:induction false} KeepInWindowMembers(cs: seq<Candidate>)
    ensures forall c :: c in KeepInWindow(cs) <==> c in cs && InWindow(c)
    ensures |KeepInWindow(cs)| <= |cs|
    ensures multiset(KeepInWindow(cs)) <= multiset(cs)
    decreases |cs|
  {
    if cs != [] {
      KeepInWindowMembers(cs[1..]);
      assert cs == [cs[0]] + cs[1..];
      forall c ensures c in KeepInWindow(cs) <==> c in cs && InWindow(c) {
        assert c in cs <==> c == cs[0] || c in cs[1..];
      }
    }
  }

  /** Filtering distributes over concatenation, so it keeps the original order. */
  lemma {:induction false} KeepInWindowAppend(a: seq<Candidate>, b: seq<Candidate>)
    ensures KeepInWindow(a + b) == KeepInWindow(a) + KeepInWindow(b)
    decreases |a|
  {
    if a != [] {
      assert (a + b)[1..] == a[1..] + b;
      KeepInWindowAppend(a[1..], b);
    } else {
      assert a + b == b;
    }
  }

  /** An input that is already in the window passes unchanged. */
  lemma {:induction false} KeepInWindowAllIn(cs: seq<Candidate>)
    requires forall i :: 0 <= i < |cs| ==> InWindow(cs[i])
    ensures KeepInWindow(cs) == cs
    decreases |cs|
  {
    if cs != [] {
      KeepInWindowAllIn(cs[1..]);
    }
  }

  /** With no entry in the window nothing is kept. */
  lemma {:induction false} KeepInWindowNone(cs: seq<Candidate>)
    requires forall i :: 0 <= i < |cs| ==> !InWindow(cs[i])
    ensures KeepInWindow(cs) == []
    decreases |cs|
  {
    if cs != [] {
      KeepInWindowNone(cs[1..]);
    }
  }

  /** What `reducing_color` returns: the filtered list, or the input if it has at most one entry. */
  function ReducedColor(cs: seq<Candidate>): seq<Candidate> {
    if |cs| > 1 then KeepInWindow(cs) else cs
  }

  /** What `reducing_yellow` returns: filtered only above three entries, then cut to three. */
  function ReducedYellow(cs: seq<Candidate>): seq<Candidate> {
    var f := if |cs| > 3 then KeepInWindow(cs) else cs;
    if |f| > 3 then f[..3] else f
  }

  /** One step of the reverse walk: the suffix from `i` filtered. */
  lemma KeepInWindowStep(cs: seq<Candidate>, i: int)
    requires 0 <= i < |cs|
    ensures KeepInWindow(cs[i..]) == (if InWindow(cs[i]) then [cs[i]] else []) + KeepInWindow(cs[i + 1..])
  {
    assert cs[i..][1..] == cs[i + 1..];
  }

  /**
   * The pop loop of lines 254-260 (and 280-284): walks indices n-1 down to 0
   * of the original list and pops each out-of-window entry. Popping at an
   * index never moves the entries below it, so no index goes out of range.
   */
  method PopOutOfWindow(cs: seq<Candidate>, keepMaximum: bool) returns (r: seq<Candidate>)
    ensures r == KeepInWindow(cs)
  {
    r := cs;
    var n := |cs|;
    var x := 0;
    assert cs[n..] == [];
    while x < n
      invariant 0 <= x <= n
      invariant r == cs[..n - x] + KeepInWindow(cs[n - x..])
    {
      var idx := n - x - 1;
      assert r[idx] == cs[idx];
      KeepInWindowStep(cs, idx);
      if r[idx].pixels < MinPixels || r[idx].pixels > MaxPixels {
        r := r[..idx] + r[idx + 1..];
        assert r == cs[..idx] + KeepInWindow(cs[idx + 1..]);
      } else {
        assert cs[..idx + 1] == cs[..idx] + [cs[idx]];
      }
      if keepMaximum && x == n - 1 && |r| > 1 {
        assert r == KeepInWindow(cs) by { assert cs[..0] == [] && cs[0..] == cs; }
        KeepInWindowMembers(cs);
        r := KeepMaximum(r, x);
      }
      x := x + 1;
    }
    assert cs[..0] == [] && cs[0..] == cs;
  }

  /**
   * The "keep the maximum" block of lines 261-269, as written: it reads
   * `color_struct[len(color_struct) - x - 1]` with x = n - 1, which is index
   * 0 when nothing was popped and a negative index otherwise (an IndexError,
   * caught at line 270, when it reaches past the front). The entry it reads
   * is the one that sets `max`, so the second loop never pops.
   */
  method KeepMaximum(cs: seq<Candidate>, x: int) returns (r: seq<Candidate>)
    requires |cs| > 1 && x >= 0
    requires forall c :: c in cs ==> c.pixels > 0
    ensures r == cs
  {
    var max := 0;
    var ok := true;
    var i := |cs| - x - 1;
    var y := 0;
    while y < |cs| && ok
      invariant 0 <= y <= |cs|
      invariant y == 0 ==> max == 0
      invariant ok && y > 0 ==> -|cs| <= i < |cs| && max == cs[PyIndex(i, |cs|)].pixels
    {
      if !(-|cs| <= i < |cs|) {
        ok := false;
      } else if cs[PyIndex(i, |cs|)].pixels > max {
        max := cs[PyIndex(i, |cs|)].pixels;
      }
      y := y + 1;
    }
    r := cs;
    y := 0;
    var len := |r|;
    while y < len && ok
      invariant 0 <= y <= len
      invariant r == cs
      invariant ok ==> -|cs| <= i < |cs| && max == cs[PyIndex(i, |cs|)].pixels
    {
      var j := |r| - x - 1;
      if !(-|r| <= j < |r|) {
        ok := false;
      } else if r[PyIndex(j, |r|)].pixels != max {
        // The pop of line 268: never taken, since the entry read here is the
        // one that set `max`.
        assert false;
      }
      y := y + 1;
    }
  }

  /** `reducing_color`. */
  method ReducingColor(cs: seq<Candidate>) returns (r: seq<Candidate>)
    ensures r == ReducedColor(cs)
  {
    r := cs;
    if |cs| > 1 {
      r := PopOutOfWindow(cs, true);
    }
  }

  /** `reducing_yellow`. */
  method ReducingYellow(cs: seq<Candidate>) returns (r: seq<Candidate>)
    ensures r == ReducedYellow(cs)
  {
    r := cs;
    if |cs| > 3 {
      r := PopOutOfWindow(cs, false);
    }
    if |r| > 3 {
      r := [r[0], r[1], r[2]];
    }
  }

  /**
   * With two or more entries `reducing_color` keeps exactly the in-window
   * entries in their order; with at most one it returns its input, in or out
   * of the window. It never adds an entry.
   */
  lemma ReducedColorSpec(cs: seq<Candidate>)
    ensures |cs| > 1 ==> forall c :: c in ReducedColor(cs) <==> c in cs && InWindow(c)
    ensures |cs| <= 1 ==> ReducedColor(cs) == cs
    ensures multiset(ReducedColor(cs)) <= multiset(cs)
  {
    KeepInWindowMembers(cs);
  }

  /**
   * `reducing_yellow` returns at most three entries, and they are a prefix
   * of its input filtered (or of the input itself when it had at most three).
   */
  lemma ReducedYellowSpec(cs: seq<Candidate>)
    ensures |ReducedYellow(cs)| <= 3
    ensures |cs| <= 3 ==> ReducedYellow(cs) == cs
    ensures |cs| > 3 ==> ReducedYellow(cs) <= KeepInWindow(cs)
    ensures |cs| > 3 ==> |ReducedYellow(cs)| == if |KeepInWindow(cs)| < 3 then |KeepInWindow(cs)| else 3
    ensures |cs| > 3 ==> forall c :: c in ReducedYellow(cs) ==> c in cs && InWindow(c)
  {
    KeepInWindowMembers(cs);
  }

  /**
   * Two components of 200 and 400 pixels give back only the 400-pixel one.
   */
  lemma ReducedColorExample(a: Candidate, b: Candidate)
    requires a.pixels == 200 && b.pixels == 400
    ensures ReducedColor([a, b]) == [b]
  {
    assert [a, b][1..] == [b];
    assert [b][1..] == [];
    assert KeepInWindow([b]) == [b] + KeepInWindow([]);
  }

  /**
   * A lone out-of-window component is not filtered: with one entry the size
   * test is skipped.
   */
  lemma ReducedColorKeepsLoneOutlier(a: Candidate)
    requires a.pixels == 5
    ensures ReducedColor([a]) == [a]
  {
  }

  /**
   * The record that the labelling path stores for a colour is either the
   * first in-window component or, when none survives, the all-zero record;
   * a lone component is stored whatever its size.
   */
  lemma PackedReducedColor(rec: CircleData, cs: seq<Candidate>, s: int)
    ensures var r := PackFirst(rec, ReducedColor(cs), s);
      && (|cs| > 1 && (exists i :: 0 <= i < |cs| && InWindow(cs[i])) ==>
            |ReducedColor(cs)| > 0 && r.pixNumber == ReducedColor(cs)[0].pixels && MinPixels <= r.pixNumber <= MaxPixels)
      && (|cs| > 1 && (forall i :: 0 <= i < |cs| ==> !InWindow(cs[i])) ==>
            r.pixNumber == 0 && r.centerMass == [0, 0])
      && (|cs| == 1 ==> r.pixNumber == cs[0].pixels)
  {
    KeepInWindowMembers(cs);
    var red := ReducedColor(cs);
    if |cs| > 1 {
      if exists i :: 0 <= i < |cs| && InWindow(cs[i]) {
        var i :| 0 <= i < |cs| && InWindow(cs[i]);
        assert cs[i] in red;
        assert red[0] in red;
      } else {
        KeepInWindowNone(cs);
      }
    }
  }
}
