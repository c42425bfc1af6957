/**
 * The line-list part of the threshold and units file of robot_tracker.py:
 * `write_new_vals` (lines 1228-1251), `read_line_thres` (1384-1407),
 * `read_thres` (1410-1431), `read_units` (1507-1519) and `write_units`
 * (1522-1536). The file is the list of its lines, each ending in '\n';
 * opening, reading and writing the file are left to the caller.
 *
 * A colour's thresholds are kept as two blocks, a colour line followed by
 * `low` or `up` and three field lines `h=`, `s=`, `v=`:
 *
 *   red2 / low / h=.. / s=.. / v=.. / red2 / up / h=.. / s=.. / v=..
 *
 * which is the layout both the writer and the reader walk.
 */
module ThresholdFile {
  import opened Masks

  type Line = string

  /** The Python exceptions these functions can raise. */
  datatype Failure = IndexError | ValueError | UnboundLocalError

  datatype Result<T> = Ok(value: T) | Err(failure: Failure)

  const Low: Line := "low\n"
  const Up: Line := "up\n"
  const Units: Line := "units\n"

  // ---------------------------------------------------------------- numbers

  predicate IsDigit(ch: char) {
    '0' <= ch <= '9'
  }

  predicate AllDigits(s: string) {
    forall i :: 0 <= i < |s| ==> IsDigit(s[i])
  }

  /** `str(n)` for a natural number. */
  function NatToString(n: nat): (s: string)
    ensures |s| > 0 && AllDigits(s)
    decreases n
  {
    if n < 10 then [('0' as int + n) as char]
    else NatToString(n / 10) + [('0' as int + n % 10) as char]
  }

  /** `str(i)` for an integer. */
  function IntToString(i: int): (s: string)
    ensures |s| > 0 && forall k :: 0 <= k < |s| ==> s[k] != '\n'
  {
    if i < 0 then "-" + NatToString(-i) else NatToString(i)
  }

  /** The value of a string of decimal digits. */
  function DigitsValue(s: string): nat
    requires AllDigits(s)
    decreases |s|
  {
    if s == [] then 0 else DigitsValue(s[..|s| - 1]) * 10 + (s[|s| - 1] as int - '0' as int)
  }

  /** `int(s)`: an optional sign and at least one decimal digit, else a ValueError. */
  function ParseInt(s: string): (r: Result<int>)
    ensures r.Ok? ==> |s| > 0
  {
    if |s| > 1 && (s[0] == '-' || s[0] == '+') && AllDigits(s[1..]) then
      var d: int := DigitsValue(s[1..]);
      Ok(if s[0] == '-' then -d else d)
    else if |s| > 0 && AllDigits(s) then Ok(DigitsValue(s))
    else Err(ValueError)
  }

  lemma {:induction false} DigitsOfNat(n: nat)
    ensures DigitsValue(NatToString(n)) == n
    decreases n
  {
    var s := NatToString(n);
    if n >= 10 {
      DigitsOfNat(n / 10);
      assert s[..|s| - 1] == NatToString(n / 10);
    }
  }

  /** `int(str(i)) == i`: the number written to a field line reads back unchanged. */
  lemma ParseIntToString(i: int)
    ensures ParseInt(IntToString(i)) == Ok(i)
  {
    if i < 0 {
      DigitsOfNat(-i);
      assert IntToString(i)[1..] == NatToString(-i);
    } else {
      DigitsOfNat(i);
    }
  }

  // ------------------------------------------------------------ field lines

  /** A field line as `write_new_vals` writes it: `key + '=' + str(v) + '\n'`. */
  function FieldLine(key: char, v: int): Line {
    [key, '='] + IntToString(v) + "\n"
  }

  /** The text of a line from index a up to its first '\n' or its end. */
  function FieldFrom(line: Line, a: nat): string
    decreases |line| - a
  {
    if a >= |line| || line[a] == '\n' then "" else [line[a]] + FieldFrom(line, a + 1)
  }

  /** What the loops of lines 1386-1389 collect: the line from index 2 up to its first '\n'. */
  function FieldText(line: Line): string {
    FieldFrom(line, 2)
  }

  lemma {:induction false} FieldFromStops(p: string, s: string, rest: string, a: nat)
    requires a <= |p| + |s|
    requires forall k :: 0 <= k < |s| ==> s[k] != '\n'
    requires a >= |p|
    ensures FieldFrom(p + s + "\n" + rest, a) == s[a - |p|..]
    decreases |p| + |s| - a
  {
    var line := p + s + "\n" + rest;
    if a < |p| + |s| {
      FieldFromStops(p, s, rest, a + 1);
      assert s[a - |p|..] == [s[a - |p|]] + s[a + 1 - |p|..];
    } else {
      assert line[a] == '\n';
    }
  }

  /** The field text of a written field line is the number written. */
  lemma FieldTextOfFieldLine(key: char, v: int)
    ensures FieldText(FieldLine(key, v)) == IntToString(v)
  {
    FieldFromStops([key, '='], IntToString(v), "", 2);
    assert FieldLine(key, v) == [key, '='] + IntToString(v) + "\n" + "";
  }

  /** The loop of lines 1386-1389 (and its copies for s and v). */
  method ReadField(line: Line) returns (f: string)
    ensures f == FieldText(line)
  {
    f := "";
    var a := 2;
    while a < |line|
      invariant 2 <= a
      invariant f + FieldFrom(line, a) == FieldText(line)
      decreases |line| - a
    {
      if line[a] == '\n' {
        break;
      }
      f := f + [line[a]];
      a := a + 1;
    }
  }

  /** `lines[i]`, with Python's negative indices. */
  function LineAt(lines: seq<Line>, i: int): (r: Result<Line>)
    ensures r.Ok? <==> -|lines| <= i < |lines|
  {
    if -|lines| <= i < |lines| then Ok(lines[PyIndex(i, |lines|)]) else Err(IndexError)
  }

  /** `int()` of the field text of `lines[i]`. */
  function FieldValue(lines: seq<Line>, i: int): Result<int> {
    match LineAt(lines, i)
    case Err(e) => Err(e)
    case Ok(l) => ParseInt(FieldText(l))
  }

  /** What `read_line_thres` returns: the three values of lines y2+2 .. y2+4 appended, or the first failure. */
  function LineThres(lines: seq<Line>, y2: int, thres: seq<int>): Result<seq<int>> {
    match FieldValue(lines, y2 + 2)
    case Err(e) => Err(e)
    case Ok(h) =>
      match FieldValue(lines, y2 + 3)
      case Err(e) => Err(e)
      case Ok(s) =>
        match FieldValue(lines, y2 + 4)
        case Err(e) => Err(e)
        case Ok(v) => Ok(thres + [h, s, v])
  }

  /** One field of `read_line_thres`: the line, the loop collecting its text, then `int()`. */
  method ReadValue(lines: seq<Line>, i: int) returns (r: Result<int>)
    ensures r == FieldValue(lines, i)
  {
    if !(-|lines| <= i < |lines|) {
      return Err(IndexError);
    }
    var text := ReadField(lines[PyIndex(i, |lines|)]);
    r := ParseInt(text);
  }

  /** `read_line_thres` (lines 1384-1407). */
  method ReadLineThres(lines: seq<Line>, y2: int, thres: seq<int>) returns (r: Result<seq<int>>)
    ensures r == LineThres(lines, y2, thres)
  {
    var h := ReadValue(lines, y2 + 2);
    if h.Err? {
      return Err(h.failure);
    }
    var s := ReadValue(lines, y2 + 3);
    if s.Err? {
      return Err(s.failure);
    }
    var v := ReadValue(lines, y2 + 4);
    if v.Err? {
      return Err(v.failure);
    }
    r := Ok(thres + [h.value, s.value, v.value]);
  }

  /**
   * A block whose three lines after the tag are written field lines reads
   * back the three values written, whatever their one-letter keys.
   */
  lemma LineThresOfFields(lines: seq<Line>, y2: int, thres: seq<int>, a: int, b: int, c: int)
    requires 0 <= y2 && y2 + 4 < |lines|
    requires FieldText(lines[y2 + 2]) == IntToString(a)
    requires FieldText(lines[y2 + 3]) == IntToString(b)
    requires FieldText(lines[y2 + 4]) == IntToString(c)
    ensures LineThres(lines, y2, thres) == Ok(thres + [a, b, c])
  {
    ParseIntToString(a);
    ParseIntToString(b);
    ParseIntToString(c);
  }

  /** Any block line out of range is an IndexError. */
  lemma LineThresPastEnd(lines: seq<Line>, y2: int, thres: seq<int>)
    requires 0 <= y2 && y2 + 2 >= |lines|
    ensures LineThres(lines, y2, thres) == Err(IndexError)
  {
  }

  // ---------------------------------------------------------------- reading

  /**
   * The scan of lines 1420-1429 for colour c from line y on, with `acc`
   * read so far: a colour line followed by `low` appends that block, one
   * followed by `up` appends that block and ends the scan. `lines[y + 1]`
   * past the end is an IndexError.
   */
  function ColourThres(lines: seq<Line>, c: Line, y: nat, acc: seq<int>): Result<seq<int>>
    decreases |lines| - y
  {
    if y >= |lines| then Ok(acc)
    else if lines[y] != c then ColourThres(lines, c, y + 1, acc)
    else if y + 1 >= |lines| then Err(IndexError)
    else
      var afterLow := if lines[y + 1] == Low then LineThres(lines, y, acc) else Ok(acc);
      match afterLow
      case Err(e) => Err(e)
      case Ok(acc1) =>
        if lines[y + 1] == Up then LineThres(lines, y, acc1)
        else ColourThres(lines, c, y + 1, acc1)
  }

  /** What `read_thres` returns for the colours from index x on, with `acc` read so far. */
  function Thres(lines: seq<Line>, colours: seq<Line>, x: nat, acc: seq<int>): Result<seq<int>>
    requires x <= |colours|
    decreases |colours| - x
  {
    if x == |colours| then Ok(acc)
    else match ColourThres(lines, colours[x], 0, acc)
      case Err(e) => Err(e)
      case Ok(acc1) => Thres(lines, colours, x + 1, acc1)
  }

  /** `read_thres` (lines 1410-1431) on the file's lines and the colour list. */
  method ReadThres(lines: seq<Line>, colours: seq<Line>) returns (r: Result<seq<int>>)
    ensures r == Thres(lines, colours, 0, [])
  {
    var thresholds: seq<int> := [];
    for x := 0 to |colours|
      invariant Thres(lines, colours, x, thresholds) == Thres(lines, colours, 0, [])
    {
      var rc := ReadColour(lines, colours[x], thresholds);
      if rc.Err? {
        return rc;
      }
      thresholds := rc.value;
    }
    r := Ok(thresholds);
  }

  /** The inner loop of lines 1420-1429 for one colour. */
  method ReadColour(lines: seq<Line>, c: Line, acc: seq<int>) returns (r: Result<seq<int>>)
    ensures r == ColourThres(lines, c, 0, acc)
  {
    var thresholds := acc;
    var y := 0;
    while y < |lines|
      invariant 0 <= y <= |lines|
      invariant ColourThres(lines, c, y, thresholds) == ColourThres(lines, c, 0, acc)
    {
      if lines[y] == c {
        if y + 1 >= |lines| {
          return Err(IndexError);
        }
        if lines[y + 1] == Low {
          var t := ReadLineThres(lines, y, thresholds);
          if t.Err? {
            return t;
          }
          thresholds := t.value;
        }
        if lines[y + 1] == Up {
          r := ReadLineThres(lines, y, thresholds);
          return;
        }
      }
      y := y + 1;
    }
    r := Ok(thresholds);
  }

  // ---------------------------------------------------------------- writing

  /** Lines 1238-1240 (and 1243-1245): the three lines after line z become field lines. */
  function WriteTriple(lines: seq<Line>, z: nat, v: (int, int, int)): (r: Result<seq<Line>>)
    ensures r.Ok? <==> z + 3 < |lines|
    ensures r.Ok? ==> |r.value| == |lines|
  {
    if z + 3 < |lines| then
      Ok(lines[z + 1 := FieldLine('h', v.0)][z + 2 := FieldLine('s', v.1)][z + 3 := FieldLine('v', v.2)])
    else Err(IndexError)
  }

  /**
   * The inner loop of lines 1235-1246 from line z on: every `low` line has
   * its next three lines rewritten, and the first `up` line has them
   * rewritten and ends the loop.
   */
  function WriteScan(lines: seq<Line>, z: nat, lo: (int, int, int), up: (int, int, int)): (r: Result<seq<Line>>)
    ensures r.Ok? ==> |r.value| == |lines|
    decreases |lines| - z
  {
    if z >= |lines| then Ok(lines)
    else
      var afterLow := if lines[z] == Low then WriteTriple(lines, z, lo) else Ok(lines);
      match afterLow
      case Err(e) => Err(e)
      case Ok(l1) =>
        if l1[z] == Up then WriteTriple(l1, z, up)
        else WriteScan(l1, z + 1, lo, up)
  }

  /** The outer loop of lines 1233-1246 from line y on: a scan starts at every line equal to the colour. */
  function WriteFrom(lines: seq<Line>, c: Line, y: nat, lo: (int, int, int), up: (int, int, int)): (r: Result<seq<Line>>)
    ensures r.Ok? ==> |r.value| == |lines|
    decreases |lines| - y
  {
    if y >= |lines| then Ok(lines)
    else if lines[y] != c then WriteFrom(lines, c, y + 1, lo, up)
    else match WriteScan(lines, y, lo, up)
      case Err(e) => Err(e)
      case Ok(l1) => WriteFrom(l1, c, y + 1, lo, up)
  }

  /** `write_new_vals` (lines 1228-1251): the lines it writes back, or the failure. */
  method WriteNewVals(lines: seq<Line>, c: Line, lo: (int, int, int), up: (int, int, int))
    returns (r: Result<seq<Line>>)
    ensures r == WriteFrom(lines, c, 0, lo, up)
  {
    var ls := lines;
    for y := 0 to |lines|
      invariant |ls| == |lines|
      invariant WriteFrom(ls, c, y, lo, up) == WriteFrom(lines, c, 0, lo, up)
    {
      if ls[y] == c {
        var w := WriteScanLoop(ls, y, lo, up);
        if w.Err? {
          return w;
        }
        ls := w.value;
      }
    }
    r := Ok(ls);
  }

  /** The inner loop of lines 1235-1246; `lines` is edited in place. */
  method WriteScanLoop(lines: seq<Line>, y: nat, lo: (int, int, int), up: (int, int, int))
    returns (r: Result<seq<Line>>)
    ensures r == WriteScan(lines, y, lo, up)
  {
    var ls := lines;
    var z := y;
    while z < |ls|
      invariant |ls| == |lines| && y <= z
      invariant WriteScan(ls, z, lo, up) == WriteScan(lines, y, lo, up)
      decreases |ls| - z
    {
      if ls[z] == Low {
        if z + 3 >= |ls| {
          return Err(IndexError);
        }
        ls := ls[z + 1 := FieldLine('h', lo.0)][z + 2 := FieldLine('s', lo.1)][z + 3 := FieldLine('v', lo.2)];
      }
      if ls[z] == Up {
        if z + 3 >= |ls| {
          return Err(IndexError);
        }
        ls := ls[z + 1 := FieldLine('h', up.0)][z + 2 := FieldLine('s', up.1)][z + 3 := FieldLine('v', up.2)];
        return Ok(ls);
      }
      z := z + 1;
    }
    r := Ok(ls);
  }

  // ------------------------------------------------------ the block layout

  /** The colour line cannot be mistaken for a tag or a written field line. */
  predicate PlainColour(c: Line) {
    c != Low && c != Up && !(|c| >= 2 && c[1] == '=')
  }

  /**
   * Colour c's two blocks start at line s and s + 5, and c appears on no
   * other line. The field lines may hold anything but a tag or c.
   */
  predicate SectionAt(lines: seq<Line>, s: nat, c: Line) {
    && s + 10 <= |lines|
    && lines[s] == c && lines[s + 1] == Low && lines[s + 5] == c && lines[s + 6] == Up
    && (forall k :: s + 2 <= k < s + 5 ==> lines[k] != Low && lines[k] != Up)
    && (forall i :: 0 <= i < |lines| && i != s && i != s + 5 ==> lines[i] != c)
  }

  /** The section of colour c after its values are replaced by `lo` and `up`. */
  function Rewritten(lines: seq<Line>, s: nat, lo: (int, int, int), up: (int, int, int)): seq<Line>
    requires s + 10 <= |lines|
  {
    lines[s + 2 := FieldLine('h', lo.0)][s + 3 := FieldLine('s', lo.1)][s + 4 := FieldLine('v', lo.2)]
         [s + 7 := FieldLine('h', up.0)][s + 8 := FieldLine('s', up.1)][s + 9 := FieldLine('v', up.2)]
  }

  lemma FieldLineIsNoTag(key: char, v: int, c: Line)
    requires key != 'l' && key != 'u' && PlainColour(c)
    ensures FieldLine(key, v) != Low && FieldLine(key, v) != Up && FieldLine(key, v) != c
  {
    var f := FieldLine(key, v);
    assert f[0] == key && f[1] == '=';
    assert Low[0] == 'l' && Up[0] == 'u';
  }

  lemma {:induction false} WriteFromSkips(lines: seq<Line>, c: Line, y: nat, k: nat, lo: (int, int, int), up: (int, int, int))
    requires y <= k <= |lines|
    requires forall i :: y <= i < k ==> lines[i] != c
    ensures WriteFrom(lines, c, y, lo, up) == WriteFrom(lines, c, k, lo, up)
    decreases k - y
  {
    if y < k {
      WriteFromSkips(lines, c, y + 1, k, lo, up);
    }
  }

  lemma {:induction false} WriteScanSkips(lines: seq<Line>, z: nat, k: nat, lo: (int, int, int), up: (int, int, int))
    requires z <= k <= |lines|
    requires forall i :: z <= i < k ==> lines[i] != Low && lines[i] != Up
    ensures WriteScan(lines, z, lo, up) == WriteScan(lines, k, lo, up)
    decreases k - z
  {
    if z < k {
      WriteScanSkips(lines, z + 1, k, lo, up);
    }
  }

  /** The first scan, from the first colour line: both blocks are rewritten, then the loop breaks at `up`. */
  lemma FirstScan(lines: seq<Line>, s: nat, c: Line, lo: (int, int, int), up: (int, int, int))
    requires SectionAt(lines, s, c) && PlainColour(c)
    ensures WriteScan(lines, s, lo, up) == Ok(Rewritten(lines, s, lo, up))
  {
    var l1 := WriteTriple(lines, s + 1, lo).value;
    FieldLineIsNoTag('h', lo.0, c);
    FieldLineIsNoTag('s', lo.1, c);
    FieldLineIsNoTag('v', lo.2, c);
    assert WriteScan(lines, s, lo, up) == WriteScan(lines, s + 1, lo, up);
    assert WriteScan(lines, s + 1, lo, up) == WriteScan(l1, s + 2, lo, up);
    WriteScanSkips(l1, s + 2, s + 6, lo, up);
    assert WriteTriple(l1, s + 6, up).value == Rewritten(lines, s, lo, up);
  }

  /** The second scan, from the `up` block's colour line: it writes the same values again. */
  lemma SecondScan(lines: seq<Line>, s: nat, c: Line, lo: (int, int, int), up: (int, int, int))
    requires SectionAt(lines, s, c) && PlainColour(c)
    ensures WriteScan(Rewritten(lines, s, lo, up), s + 5, lo, up) == Ok(Rewritten(lines, s, lo, up))
  {
    var r := Rewritten(lines, s, lo, up);
    assert r[s + 5] == c && r[s + 6] == Up;
    assert WriteTriple(r, s + 6, up).value == r;
  }

  /**
   * On a file where colour c has its two blocks at line s and nowhere
   * else, `write_new_vals` replaces exactly the six field lines of c's
   * blocks and leaves every other line as it was.
   */
  lemma WriteNewValsSection(lines: seq<Line>, s: nat, c: Line, lo: (int, int, int), up: (int, int, int))
    requires SectionAt(lines, s, c) && PlainColour(c)
    ensures WriteFrom(lines, c, 0, lo, up) == Ok(Rewritten(lines, s, lo, up))
  {
    var r := Rewritten(lines, s, lo, up);
    WriteFromSkips(lines, c, 0, s, lo, up);
    FirstScan(lines, s, c, lo, up);
    RewrittenNoColour(lines, s, c, lo, up);
    WriteFromSkips(r, c, s + 1, s + 5, lo, up);
    SecondScan(lines, s, c, lo, up);
    WriteFromSkips(r, c, s + 6, |r|, lo, up);
  }

  lemma {:induction false} ColourSkips(lines: seq<Line>, c: Line, y: nat, k: nat, acc: seq<int>)
    requires y <= k <= |lines|
    requires forall i :: y <= i < k ==> lines[i] != c
    ensures ColourThres(lines, c, y, acc) == ColourThres(lines, c, k, acc)
    decreases k - y
  {
    if y < k {
      ColourSkips(lines, c, y + 1, k, acc);
    }
  }

  /**
   * Lines k, k + 1, k + 2 carry the field texts of the three values v and
   * none of them is colour c.
   */
  predicate HoldsValues(lines: seq<Line>, k: nat, c: Line, v: (int, int, int)) {
    && k + 3 <= |lines|
    && FieldText(lines[k]) == IntToString(v.0) && lines[k] != c
    && FieldText(lines[k + 1]) == IntToString(v.1) && lines[k + 1] != c
    && FieldText(lines[k + 2]) == IntToString(v.2) && lines[k + 2] != c
  }

  /**
   * When colour c's blocks at line s hold field lines for lo and up and c
   * does not appear before them, `read_thres` reads for c its low values
   * and then its up values.
   */
  lemma ReadSection(lines: seq<Line>, s: nat, c: Line, acc: seq<int>, lo: (int, int, int), up: (int, int, int))
    requires s + 10 <= |lines| && PlainColour(c)
    requires lines[s] == c && lines[s + 1] == Low && lines[s + 5] == c && lines[s + 6] == Up
    requires HoldsValues(lines, s + 2, c, lo) && HoldsValues(lines, s + 7, c, up)
    requires forall i :: 0 <= i < s ==> lines[i] != c
    ensures ColourThres(lines, c, 0, acc) == Ok(acc + [lo.0, lo.1, lo.2, up.0, up.1, up.2])
  {
    ColourSkips(lines, c, 0, s, acc);
    ReadLowBlock(lines, s, c, acc, lo);
    var acc1 := acc + [lo.0, lo.1, lo.2];
    LowBlockSkips(lines, s, c, acc1, lo);
    ReadUpBlock(lines, s + 5, c, acc1, up);
    ConcatTriples(acc, lo, up);
  }

  /** Reading the `low` block at line s: its three values are appended and the scan goes on. */
  lemma ReadLowBlock(lines: seq<Line>, s: nat, c: Line, acc: seq<int>, lo: (int, int, int))
    requires s + 5 <= |lines| && lines[s] == c && lines[s + 1] == Low && HoldsValues(lines, s + 2, c, lo)
    ensures ColourThres(lines, c, s, acc) == ColourThres(lines, c, s + 1, acc + [lo.0, lo.1, lo.2])
  {
    LineThresOfFields(lines, s, acc, lo.0, lo.1, lo.2);
    assert Low != Up by { assert Low[0] != Up[0]; }
  }

  /** The scan passes over the `low` tag and its three field lines: none of them is colour c. */
  lemma LowBlockSkips(lines: seq<Line>, s: nat, c: Line, acc: seq<int>, lo: (int, int, int))
    requires s + 5 <= |lines| && PlainColour(c) && lines[s + 1] == Low && HoldsValues(lines, s + 2, c, lo)
    ensures ColourThres(lines, c, s + 1, acc) == ColourThres(lines, c, s + 5, acc)
  {
    ColourSkips(lines, c, s + 1, s + 5, acc);
  }

  /** Reading the `up` block at line s: its three values are appended and the scan stops. */
  lemma ReadUpBlock(lines: seq<Line>, s: nat, c: Line, acc: seq<int>, up: (int, int, int))
    requires s + 5 <= |lines| && lines[s] == c && lines[s + 1] == Up && HoldsValues(lines, s + 2, c, up)
    ensures ColourThres(lines, c, s, acc) == Ok(acc + [up.0, up.1, up.2])
  {
    LineThresOfFields(lines, s, acc, up.0, up.1, up.2);
    assert Low != Up by { assert Low[0] != Up[0]; }
  }

  /** After the rewrite colour c still appears only on its two tag lines. */
  lemma RewrittenNoColour(lines: seq<Line>, s: nat, c: Line, lo: (int, int, int), up: (int, int, int))
    requires SectionAt(lines, s, c) && PlainColour(c)
    ensures forall i :: 0 <= i < |lines| && i != s && i != s + 5 ==> Rewritten(lines, s, lo, up)[i] != c
  {
    var r := Rewritten(lines, s, lo, up);
    RewrittenHolds(lines, s, c, lo, up);
    forall i | 0 <= i < |lines| && i != s && i != s + 5 ensures r[i] != c {
      if !(s + 2 <= i < s + 5 || s + 7 <= i < s + 10) {
        assert r[i] == lines[i];
      }
    }
  }

  /** The six rewritten field lines carry the texts of lo and up, and none of them is colour c. */
  lemma RewrittenHolds(lines: seq<Line>, s: nat, c: Line, lo: (int, int, int), up: (int, int, int))
    requires s + 10 <= |lines| && PlainColour(c)
    ensures HoldsValues(Rewritten(lines, s, lo, up), s + 2, c, lo)
    ensures HoldsValues(Rewritten(lines, s, lo, up), s + 7, c, up)
  {
    FieldTextOfFieldLine('h', lo.0);
    FieldTextOfFieldLine('s', lo.1);
    FieldTextOfFieldLine('v', lo.2);
    FieldTextOfFieldLine('h', up.0);
    FieldTextOfFieldLine('s', up.1);
    FieldTextOfFieldLine('v', up.2);
    FieldLineIsNoTag('h', lo.0, c);
    FieldLineIsNoTag('s', lo.1, c);
    FieldLineIsNoTag('v', lo.2, c);
    FieldLineIsNoTag('h', up.0, c);
    FieldLineIsNoTag('s', up.1, c);
    FieldLineIsNoTag('v', up.2, c);
  }

  lemma ConcatTriples(acc: seq<int>, lo: (int, int, int), up: (int, int, int))
    ensures acc + [lo.0, lo.1, lo.2] + [up.0, up.1, up.2] == acc + [lo.0, lo.1, lo.2, up.0, up.1, up.2]
  {
  }

  /** Writing a colour's thresholds and reading them back gives the values written. */
  lemma WriteThenRead(lines: seq<Line>, s: nat, c: Line, acc: seq<int>, lo: (int, int, int), up: (int, int, int))
    requires SectionAt(lines, s, c) && PlainColour(c)
    ensures WriteFrom(lines, c, 0, lo, up).Ok?
    ensures ColourThres(WriteFrom(lines, c, 0, lo, up).value, c, 0, acc) == Ok(acc + [lo.0, lo.1, lo.2, up.0, up.1, up.2])
  {
    WriteNewValsSection(lines, s, c, lo, up);
    var r := Rewritten(lines, s, lo, up);
    RewrittenHolds(lines, s, c, lo, up);
    assert r[s] == c && r[s + 1] == Low && r[s + 5] == c && r[s + 6] == Up;
    assert forall i :: 0 <= i < s ==> r[i] == lines[i];
    ReadSection(r, s, c, acc, lo, up);
  }

  // ------------------------------------------------------------------ units

  /** The index of the first `units` line, or -1 when there is none. */
  function FirstUnits(lines: seq<Line>, x: nat): (r: int)
    requires x <= |lines|
    ensures r == -1 || (x <= r < |lines| && lines[r] == Units)
    decreases |lines| - x
  {
    if x == |lines| then -1
    else if lines[x] == Units then x
    else FirstUnits(lines, x + 1)
  }

  /** `FirstUnits` is -1 exactly when no line from x on is `units`, and otherwise the first such line. */
  lemma {:induction false} FirstUnitsFirst(lines: seq<Line>, x: nat)
    requires x <= |lines|
    ensures FirstUnits(lines, x) == -1 <==> forall i :: x <= i < |lines| ==> lines[i] != Units
    ensures FirstUnits(lines, x) >= 0 ==> forall i :: x <= i < FirstUnits(lines, x) ==> lines[i] != Units
    decreases |lines| - x
  {
    if x < |lines| && lines[x] != Units {
      FirstUnitsFirst(lines, x + 1);
    }
  }

  /**
   * What `read_units` reads, as the text of the line `num` lines after the
   * first `units` line: an UnboundLocalError when there is no such line,
   * an IndexError when the offset line is out of range.
   */
  function UnitsLine(lines: seq<Line>, num: int): Result<Line> {
    var x := FirstUnits(lines, 0);
    if x < 0 then Err(UnboundLocalError) else LineAt(lines, x + num)
  }

  /** What `write_units` writes back: the line `num` after the first `units` line replaced. */
  function WithUnits(lines: seq<Line>, val: string, num: int): (r: Result<seq<Line>>)
    ensures r.Ok? ==> |r.value| == |lines|
  {
    var x := FirstUnits(lines, 0);
    if x < 0 then Ok(lines)
    else if -|lines| <= x + num < |lines| then Ok(lines[PyIndex(x + num, |lines|) := val + "\n"])
    else Err(IndexError)
  }

  /** `read_units` (lines 1507-1519), up to the `float()` of the line. */
  method ReadUnits(lines: seq<Line>, num: int) returns (r: Result<Line>)
    ensures r == UnitsLine(lines, num)
  {
    r := Err(UnboundLocalError);
    for x := 0 to |lines|
      invariant FirstUnits(lines, 0) == FirstUnits(lines, x)
    {
      if lines[x] == Units {
        if !(-|lines| <= x + num < |lines|) {
          return Err(IndexError);
        }
        return Ok(lines[PyIndex(x + num, |lines|)]);
      }
    }
  }

  /** `write_units` (lines 1522-1536), up to the `str()` of the value. */
  method WriteUnits(lines: seq<Line>, val: string, num: int) returns (r: Result<seq<Line>>)
    ensures r == WithUnits(lines, val, num)
  {
    for x := 0 to |lines|
      invariant FirstUnits(lines, 0) == FirstUnits(lines, x)
    {
      if lines[x] == Units {
        if !(-|lines| <= x + num < |lines|) {
          return Err(IndexError);
        }
        return Ok(lines[PyIndex(x + num, |lines|) := val + "\n"]);
      }
    }
    r := Ok(lines);
  }

  /** With no `units` line, `write_units` leaves the file as it was and `read_units` fails. */
  lemma NoUnitsLine(lines: seq<Line>, val: string, num: int)
    requires forall i :: 0 <= i < |lines| ==> lines[i] != Units
    ensures WithUnits(lines, val, num) == Ok(lines)
    ensures UnitsLine(lines, num) == Err(UnboundLocalError)
  {
    FirstUnitsFirst(lines, 0);
  }

  /**
   * A value written with a positive offset reads back with the same
   * offset, and only that one line of the file changes.
   */
  lemma UnitsRoundTrip(lines: seq<Line>, val: string, num: int)
    requires num >= 1 && FirstUnits(lines, 0) >= 0 && FirstUnits(lines, 0) + num < |lines|
    ensures WithUnits(lines, val, num).Ok?
    ensures UnitsLine(WithUnits(lines, val, num).value, num) == Ok(val + "\n")
    ensures forall i :: 0 <= i < |lines| && i != FirstUnits(lines, 0) + num ==>
      WithUnits(lines, val, num).value[i] == lines[i]
  {
    var x := FirstUnits(lines, 0);
    var w := WithUnits(lines, val, num).value;
    assert w == lines[x + num := val + "\n"];
    assert FirstUnits(w, 0) == x by {
      FirstUnitsFirst(lines, 0);
      assert forall i :: 0 <= i < x ==> w[i] == lines[i];
      FirstUnitsSame(lines, w, 0, x);
    }
  }

  lemma {:induction false} FirstUnitsSame(a: seq<Line>, b: seq<Line>, x: nat, k: nat)
    requires x <= k < |a| == |b| && a[k] == Units && b[k] == Units
    requires forall i :: x <= i < k ==> a[i] == b[i] && a[i] != Units
    ensures FirstUnits(b, x) == k
    decreases k - x
  {
    if x < k {
      FirstUnitsSame(a, b, x + 1, k);
    }
  }
}
