# robot_tracker: per-frame marker analysis in Dafny

This project models the per-frame analysis of `robot_tracker.py`, an
overhead-camera tracker for small robots. Each robot carries one coloured
body disc (red, green or blue) and a yellow heading marker. For every frame
the tracker does the following:

1. It finds a search rectangle from the foreground rows and columns of the
   colour masks.
2. It chooses a direct pixel count (a small rectangle) or connected-component
   labelling with an explicit-stack flood fill (`DFS2`).
3. It drops candidates outside the plausible-size window [320, 520].
4. It packs each colour into a `circle_data` record: pixel count, sums,
   centre and box.
5. It counts yellow pixels in a window of 1.6 times each body's box around
   the body's centre.
6. It pairs every yellow marker with the nearest body or bodies and gives
   those bodies a compass heading.

It also models the line-list edits and lookups of the threshold and units
file: `write_new_vals`, `read_line_thres`, `read_thres`, `read_units` and
`write_units`.

Masks are `seq<seq<int>>`, indexed `m[x][y]` with `x < |m|`, as the source
indexes its numpy masks. The label grid of the flood fill is an
`array2<int>`, written in place. The flood fill, the counting loops, the
reducers and the correspondence loop are methods with loops. Each is proved
against a specification function on values; the properties are lemmas about
those functions.

The modules follow the program's parts:

| module | file | models |
|---|---|---|
| `Boxes` | boxes.dfy | `limits` and the running tally (count, coordinate sums, box) that every scan keeps |
| `Masks` | masks.dfy | masks and numpy's reading of negative indices |
| `Records` | records.dfy | `circle_data`, `assignment`, `assignment2`, `get_center_mass`, record packing and the frame-centre default |
| `Roi` | roi.dfy | the row and column scan for the search rectangle, the quarter-frame test, and the diameter estimate |
| `DirectCount` | direct_count.dfy | `color_det_count` |
| `FloodFill` | flood_fill.dfy | `DFS2` |
| `Labelling` | labelling.dfy | the labelling loop and the component list of `color_det_dfs` |
| `Reducers` | reducers.dfy | `reducing_color` and `reducing_yellow` |
| `HeadingWindow` | heading_window.dfy | `yellow_det_count` |
| `Correspondence` | correspondence.dfy | the marker-to-body correspondence loop and the heading remap |
| `ThresholdFile` | threshold_file.dfy | the threshold and units file as a list of lines |

### Where the code differs from its design description

The model follows the code in each case below.

- **Search rectangle.** The rectangle is meant to hold every foreground
  pixel. It does not:
  - The row and column scans read a low end of 0 as "nothing found yet", so a
    foreground row 0 or column 0 is forgotten as soon as a later one is found.
  - The counting and labelling loops treat the rectangle as half-open, so its
    last row and column are never read.
- **Labelling.** Every foreground pixel is meant to be labelled exactly once.
  - `DFS2` pushes the neighbour it moves to, not the pixel it branches from.
    A pixel it pops is processed again, so its pixel count counts visits.
  - What is proved is that every visited cell is an unlabelled foreground cell
    joined to the start, and that every foreground cell of the rectangle ends
    up labelled.
- **Body colours.** The largest surviving candidate is meant to win. The code
  takes the first survivor instead:
  - its "keep the maximum" block never removes an entry;
  - with a single candidate there is no size filter at all.
- **Ties.** A tie in the correspondence is meant to go to the lowest body
  slot. Instead every body at the minimum distance is updated, and a later
  marker overwrites an earlier one.
- **Marker window.** The window is meant to be clipped at the mask's edge. It
  is not:
  - negative indices wrap around to the far side;
  - an index past the end raises IndexError, and the whole slot is reset to
    zeros.
- **Distance threshold.** A marker farther than about 30 pixels is meant to
  make the heading invalid. The code uses the 30-pixel test only for the
  displayed text; the heading is stored regardless.
- **Default centre.** A body that is not found is meant to default to the
  frame centre. The default applies only to a record without a centre, and
  every packed record has one (`[0, 0]` when nothing was found).

## Model

All source paths are `robot_tracker.py`.

| member | source | states |
|---|---|---|
| Boxes.Limits | robot_tracker.py:123-137 | An all-zero box becomes the one-point box. A well-formed non-zero box becomes the smallest box holding it and the point. A well-formed box stays well-formed and holds the point. |
| Boxes.Visit | robot_tracker.py:191-208 | One foreground visit: one more pixel, its coordinates added to the sums, and the box grown by `limits`. What the grown box holds over a whole walk is stated by TallyBoxCovers. |
| Boxes.LimitsIdempotent | robot_tracker.py:123-137 | Growing a well-formed box twice by the same point gives the same box as growing it once. |
| Boxes.LimitsIllFormedCounterexample | robot_tracker.py:126-137 | The `elif` chain relies on min ≤ max. On a box with minx > maxx the point can be left outside the result. |
| Boxes.TallyOf | robot_tracker.py:311-316 | The running tally counts one pixel per visited cell. |
| Boxes.TallyBounds | robot_tracker.py:311-335 | When every visited cell lies in a rectangle, the coordinate sums lie between count × low edge and count × high edge. A non-empty tally's box lies inside the rectangle. |
| Boxes.TallyBoxCovers | robot_tracker.py:123-137 | When no visited cell is (0, 0), a non-empty tally's box is well-formed, non-empty and holds every visited cell. |
| Masks.PyIndex | robot_tracker.py:580 | A numpy index in [-n, n) reads a position in [0, n): the index itself, or the index plus n. |
| Records.Assignment | robot_tracker.py:90-108 | The stored box is the scaled box, and the count and sums are stored. The centre is [0, 0] when a sum is 0; otherwise it is the floor mean times the scale. Correspondence and orientation are kept. |
| Records.AssignmentCentre | robot_tracker.py:99-106 | For a positive scale and non-zero sums, each centre coordinate is the scale times the floor of the mean: centre × count ≤ scale × sum < (centre + scale) × count. |
| Records.AssignmentIgnoresYellowFlag | robot_tracker.py:90-108 | The `yellow` argument makes no difference to the record. |
| Records.AssignmentZeroColumnQuirk | robot_tracker.py:99-100 | Three pixels, all in column 0, still give centre [0, 0]: a zero sum is read as "no pixels". |
| Records.Assignment2 | robot_tracker.py:111-119 | The box and the centre are scaled and the pixel count is stored. Sums, correspondence and orientation are kept. |
| Records.ScaleBox | robot_tracker.py:91-94 | Every box corner is multiplied by `int(1/multiple)`; a non-negative scale keeps a well-formed box well-formed. |
| Records.GetCenterMass | robot_tracker.py:141-149 | For a record with pixels, the centre is the floor mean of each sum over the count. |
| Records.PackFirst | robot_tracker.py:495-540 | A colour's record comes from `assignment2` on the first remaining component. With none it is the all-zero record with centre [0, 0]. Correspondence and orientation are kept either way. |
| Records.WithDefaultCenter | robot_tracker.py:936-938 | A record without a centre gets the frame centre by floor division; any other record is unchanged. |
| Records.DefaultCenterNeverAfterAssignment | robot_tracker.py:936-938 | A record that went through `assignment` is never changed by the frame-centre default. |
| Roi.RowProfile | robot_tracker.py:864-867 | Entry y says whether row y contains a foreground pixel. |
| Roi.ColProfile | robot_tracker.py:876-878 | Entry x says whether column x contains a foreground pixel. |
| Roi.ScanStep | robot_tracker.py:868-874 | One index of the scan: the first occupied index replaces both ends of a (0, 0) pair, a later occupied index beyond the high end raises it, anything else leaves the pair. |
| Roi.Extent | robot_tracker.py:863-885 | The pair after scanning a profile: 0 ≤ low ≤ high, and high is an index of a non-empty profile. |
| Roi.ExtentCharacterized | robot_tracker.py:863-885 | The scan's high end is the last occupied index (0 if there is none). Its low end is the first occupied index at or above 1 (0 if there is none). low ≤ high. |
| Roi.ExtentOfEmpty | robot_tracker.py:863-885 | An empty profile gives (0, 0). |
| Roi.ExtentForgetsZero | robot_tracker.py:869-871 | Any occupied index at or above 1 makes the low end at least 1, even when index 0 is occupied. |
| Roi.ScanExtent | robot_tracker.py:864-874 | The loop over a profile computes the extent. |
| Roi.ScanRoi | robot_tracker.py:863-885 | The row and column scans compute the search rectangle. It is well-formed, non-negative, and at most the last row and column. |
| Roi.RoiOf | robot_tracker.py:863-885 | The search rectangle is well-formed and lies within the frame. |
| Roi.RoiOfEmptyMask | robot_tracker.py:863-885 | A mask with no foreground gives (0, 0, 0, 0). |
| Roi.RoiCoversInterior | robot_tracker.py:863-885 | Every foreground pixel not in row 0 or column 0 lies in the rectangle. |
| Roi.RoiRows | robot_tracker.py:863-885 | The bottom and right edges are the last foreground row and column. The top and left edges are the first ones at or above 1. |
| Roi.UseDirectCount | robot_tracker.py:892-893 | Direct counting is chosen exactly when 4 × (span + 1) fits within the frame's extent on both axes. |
| Roi.DiameterPixels | robot_tracker.py:1353-1368 | The diameter estimate is the row extent, never negative, and 0 for a mask without foreground. |
| DirectCount.RowCellsMembers | robot_tracker.py:308-311 | The row scan visits exactly the foreground cells of [x0, x) on row y. |
| DirectCount.RowCellsNoDup | robot_tracker.py:309-311 | The row scan visits no cell twice. |
| DirectCount.RectCells | robot_tracker.py:308-311 | The cells the double loop visits, row by row. Its members, order and lack of duplicates are those of the RectCells lemmas. |
| DirectCount.RectCellsMembers | robot_tracker.py:308-311 | The rectangle scan visits exactly the foreground cells of [x0, x1) × [y0, y). |
| DirectCount.RectCellsNoDup | robot_tracker.py:308-311 | The rectangle scan visits no cell twice. |
| DirectCount.RectCellsExact | robot_tracker.py:308-311 | The visited cells are the set of foreground cells of the half-open rectangle, and their number is that set's size. |
| DirectCount.RectCellsInside | robot_tracker.py:308-309 | Every visited cell lies in [x0, x1 - 1] × [y0, y1 - 1]: the last row and column are never read. |
| DirectCount.CountRow | robot_tracker.py:309-335 | One row's loop extends the tally by that row's foreground cells in order. |
| DirectCount.CountRect | robot_tracker.py:308-335 | One colour's counters are the tally of the rectangle's foreground cells in scan order. The count is the number of foreground cells in [minx, maxx) × [miny, maxy). |
| DirectCount.TallyCentroid | robot_tracker.py:99-106 | Packing a tally of cells inside a rectangle stores its count. The centre lies in the scaled rectangle and the box inside the rectangle. |
| DirectCount.DirectRecord | robot_tracker.py:308-349 | One colour's direct-count record: `assignment` on the tally of the rectangle's foreground cells. Its properties are those of DirectRecordCentroid. |
| DirectCount.DirectRecordCentroid | robot_tracker.py:308-349 | The record's pixel count is the number of foreground cells of the half-open rectangle. Its centre is [0, 0] when a sum is 0, and otherwise lies in the scaled rectangle without its last row and column. A non-empty box lies inside that rectangle. |
| DirectCount.ColorDetCount | robot_tracker.py:296-351 | Slots 0, 1 and 2 get the direct-count records of red, green and blue over the same rectangle. |
| FloodFill.FreeSlotsStep | robot_tracker.py:211-223 | Looking at one more neighbour slot adds it to the free slots exactly when that neighbour is free. |
| FloodFill.SlotStep | robot_tracker.py:212-223 | After each slot, `remaining` is the number of free neighbours so far, and the saved neighbour is the last free one. |
| FloodFill.LastFreeTouches | robot_tracker.py:211-223 | The saved neighbour after all nine slots is free and touches the current pixel. |
| FloodFill.NoFreeSlots | robot_tracker.py:211-223 | `remaining` is 0 exactly when no neighbour is an unlabelled, in-bounds foreground pixel. |
| FloodFill.ScanSlot | robot_tracker.py:213-223 | One neighbour test keeps the count of free neighbours and the last free one. |
| FloodFill.ScanRow | robot_tracker.py:212-223 | One row of neighbour offsets keeps the count of free neighbours and the last free one. |
| FloodFill.ScanNeighbours | robot_tracker.py:211-223 | `remaining` is the number of free 8-neighbours (including the pixel itself). When it is positive, (c_aux, d_aux) is the last free one found and equals the pixel plus the saved offset. |
| FloodFill.Advance | robot_tracker.py:225-235 | With several free neighbours the walk pushes the last one and moves there. With one it moves there without pushing. With none it pops the stack top and moves there. |
| FloodFill.Mark | robot_tracker.py:189 | Labelling the current pixel sets it to the new label and keeps every other label as the walk found it. |
| FloodFill.Pass | robot_tracker.py:188-235 | One pass labels the current pixel and adds it to the tally. Then it either moves to a touching unlabelled foreground pixel or pops the stack. |
| FloodFill.WalkStep | robot_tracker.py:188-235 | One pass keeps the walk's shape: every visit joins an earlier one, and the stack holds only visited pixels or the current one. |
| FloodFill.ChainPath | robot_tracker.py:211-235 | Every visit is reached from the start by a path of touching foreground pixels. |
| FloodFill.Snapshot | robot_tracker.py:363-365 | The label grid as a value, entry by entry. |
| FloodFill.Dfs2 | robot_tracker.py:171-237 | `DFS2` returns count + 1. Its count, sums and box are the tally of its non-empty sequence of visits, starting at the start pixel. Every visit is a foreground pixel joined to an earlier visit. Visited pixels were unlabelled and now carry count + 1; every other label is unchanged. |
| Labelling.ComponentEntry | robot_tracker.py:402-403 | A component entry keeps its count and box; its means are the floor means of the sums. |
| Labelling.LabelledSnapshot | robot_tracker.py:363-403 | The labelling invariant on the grid equals the same invariant on its value. |
| Labelling.LabelledAfterWalk | robot_tracker.py:399-401 | After a walk with the next label, its cells carry that label and the earlier walks keep theirs; a cell with label k + 1 is still a cell of walk k. |
| Labelling.ComponentsSnoc | robot_tracker.py:401-403 | Appending a component whose walk starts later in scan order keeps the list matched to the walks. |
| Labelling.StartComponent | robot_tracker.py:399-401 | An unlabelled foreground pixel starts a walk with the next label. The pixel ends up labelled and no label is cleared. |
| Labelling.LabelAt | robot_tracker.py:396-403 | One cell of the scan: a foreground cell ends up labelled. If it was unlabelled it adds one component, in scan order; no label is cleared. |
| Labelling.LabelRow | robot_tracker.py:395-403 | One row of the scan leaves every foreground cell of the row labelled and keeps the component list matched to the walks. |
| Labelling.LabelRect | robot_tracker.py:394-403 | Every foreground cell of the half-open rectangle ends up labelled. Label k + 1 marks exactly the cells of component k's walk. The components come in scan order, one per walk, each the tally of its walk. |
| Labelling.ComponentInFrame | robot_tracker.py:402-403 | Every component has at least one pixel, so the means never divide by zero. Its means lie in the frame and its box lies inside the frame. |
| Labelling.ComponentConnected | robot_tracker.py:394-403 | Every visited cell of a component is joined by a foreground path to its start, which lies in the rectangle. |
| Labelling.LabelColour | robot_tracker.py:363-403 | For a zeroed label grid over the colour's search rectangle, all the facts of `LabelRect` hold. |
| Labelling.ColorDetDfs | robot_tracker.py:357-542 | Slots 0, 1 and 2 get the first entry of each colour's reduced component list, or the all-zero record. Each list is the component list of a labelling of that colour's search rectangle: one entry per walk, in scan order, each the tally of its walk. Label k + 1 marks exactly walk k's cells, and every foreground cell of the rectangle is labelled, so the list is non-empty whenever the rectangle holds foreground. |
| Labelling.LabelledComponentsWitness | robot_tracker.py:363-403 | The label grid that the labelling loop leaves behind witnesses that its list is the component list of a labelling of the rectangle. |
| Labelling.CoveredByComponent | robot_tracker.py:394-403 | Every foreground cell of a colour's search rectangle is a visited cell of the walk behind some entry of that colour's component list. |
| Reducers.KeepInWindowMembers | robot_tracker.py:254-260 | Filtering keeps exactly the components whose size is in [320, 520], and adds none. |
| Reducers.KeepInWindow | robot_tracker.py:254-260 | The filtered list is no longer than its input and every entry has a size in [320, 520]. |
| Reducers.KeepInWindowAppend | robot_tracker.py:254-260 | Filtering a concatenation filters each part. |
| Reducers.KeepInWindowAllIn | robot_tracker.py:254-260 | A list whose sizes are all in the window is unchanged. |
| Reducers.KeepInWindowNone | robot_tracker.py:254-260 | A list with no size in the window becomes empty. |
| Reducers.KeepInWindowStep | robot_tracker.py:254-260 | Filtering a suffix is its head (when in the window) followed by the filtered rest. |
| Reducers.PopOutOfWindow | robot_tracker.py:254-260 | Popping from the end every entry outside [320, 520] leaves the in-window entries in their order. |
| Reducers.KeepMaximum | robot_tracker.py:261-271 | The "keep the maximum" block leaves the list unchanged. It reads index len − x − 1 (where y was evidently meant), and its own pass never pops. |
| Reducers.ReducingColor | robot_tracker.py:250-272 | `reducing_color` returns the filtered list when it has two or more entries, and its input otherwise. |
| Reducers.ReducingYellow | robot_tracker.py:276-291 | `reducing_yellow` filters only above three entries and then keeps the first three. |
| Reducers.ReducedColor | robot_tracker.py:250-272 | What `reducing_color` returns; ReducedColorSpec states it. |
| Reducers.ReducedYellow | robot_tracker.py:276-291 | What `reducing_yellow` returns; ReducedYellowSpec states it. |
| Reducers.ReducedColorSpec | robot_tracker.py:250-272 | With two or more entries the result holds exactly the in-window entries. With at most one the input is returned. Nothing is ever added. |
| Reducers.ReducedYellowSpec | robot_tracker.py:276-291 | The result has at most three entries. A list of at most three is returned unchanged. A longer list gives the first min(3, n) of its n in-window entries. |
| Reducers.ReducedColorExample | robot_tracker.py:250-272 | Components of 200 and 400 pixels reduce to the 400-pixel one. |
| Reducers.ReducedColorKeepsLoneOutlier | robot_tracker.py:250-253 | A lone 5-pixel component survives, because a single entry is not filtered. |
| Reducers.PackedReducedColor | robot_tracker.py:480-540 | The stored colour record comes from the first in-window component, with a count in [320, 520]. With no in-window component it is the zero record; a lone component is stored whatever its size. |
| HeadingWindow.TruncDiv | robot_tracker.py:572-575 | `int(a / b)` truncates toward zero for either sign of a. |
| HeadingWindow.Span | robot_tracker.py:570-575 | The window ends on one axis; for a non-negative extent they bracket the centre. |
| HeadingWindow.WindowOf | robot_tracker.py:564-575 | The marker window of a body: box extents and centre floor-divided by the scale, then a span on each axis. |
| HeadingWindow.SpanBrackets | robot_tracker.py:572-575 | The window ends bracket the centre and lie within 1 of c − 1.6·d and c + 1.6·d. |
| HeadingWindow.SpanTruncatesTowardZero | robot_tracker.py:572-575 | For centre −1 and extent 1 the window is [−2, 0): truncation, not floor. |
| HeadingWindow.TruncExact | robot_tracker.py:572-575 | An exact quotient is not moved by truncation. |
| HeadingWindow.WindowTally | robot_tracker.py:577-604 | A window's tally is never negative, and a window with no pixels gives the all-zero tally. |
| HeadingWindow.ScanWindowCell | robot_tracker.py:579-598 | One cell adds the pixel to the tally when the index is in numpy's range. Otherwise it reports the IndexError, which means the window is out of range. |
| HeadingWindow.ScanWindowRow | robot_tracker.py:578-598 | A completed row extends the tally by the row's foreground cells. An aborted row means the window is out of range. |
| HeadingWindow.ScanWindow | robot_tracker.py:577-604 | The nested loops with their `try` compute the window's tally. One out-of-range index gives all zeros. |
| HeadingWindow.WinRowMembers | robot_tracker.py:578-582 | A window row visits exactly its cells that are foreground under numpy indexing. |
| HeadingWindow.FlatBodyGivesZeroTally | robot_tracker.py:564-575 | A body box of width 0 gives an empty window, [c, c) on the x axis, and the zero tally. |
| HeadingWindow.ShortBodyGivesZeroTally | robot_tracker.py:564-578 | A body box of height 0 gives an empty window, [c, c) on the y axis, and the zero tally. |
| HeadingWindow.OutOfRangeGivesZeroTally | robot_tracker.py:577-604 | A window with any cell outside numpy's range gives the zero tally, even when other cells were counted first. |
| HeadingWindow.NegativeIndexWraps | robot_tracker.py:577-582 | Column −1 reads the mask's last column, and its coordinate −1 enters the sums and the box. |
| HeadingWindow.OutOfRangeSlotRecord | robot_tracker.py:602-626 | A slot whose window reads outside the mask gets the all-zero record with centre [0, 0]; its correspondence and orientation are kept. |
| HeadingWindow.SlotTally | robot_tracker.py:577-604 | Slot a's tally: the window tally of body a, or all zeros when there is no body a. |
| HeadingWindow.YellowRecord | robot_tracker.py:606-626 | Slot a's record: its tally packed by `assignment` with the yellow flag. |
| HeadingWindow.YellowDetCount | robot_tracker.py:545-628 | Yellow slot a < 3 gets the packed tally of body a's window, or the zero record when there is no body a. The slots are independent, and any further slot is unchanged. |
| Correspondence.RemapRange | robot_tracker.py:979-984 | The remap is 90 − a or 450 − a, and maps (−180, 180] into [0, 360). |
| Correspondence.Remap | robot_tracker.py:979-984 | The three branches that turn a counter-clockwise angle from east into a clockwise heading from north; RemapRange and RemapIsMod360 give its range and meaning. |
| Correspondence.Heading | robot_tracker.py:976-987 | The stored heading: `int()` of the remapped angle between marker and body; HeadingRange bounds it. |
| Correspondence.RemapIsMod360 | robot_tracker.py:979-984 | On (−180, 180] the remap is (90 − a) mod 360: any r in [0, 360) with r = 90 − a + 360·k for an integer k equals the remap. |
| Correspondence.RemapExamples | robot_tracker.py:979-984 | 0 → 90, 45 → 45, −90 → 180, 135 → 315, 180 → 270. |
| Correspondence.TruncTowardZero | robot_tracker.py:987 | `int()` of a real truncates toward zero. |
| Correspondence.HeadingRange | robot_tracker.py:976-987 | For an angle in (−180, 180] the stored heading is an integer in [0, 360). |
| Correspondence.YValIgnoresHeight | robot_tracker.py:967-968 | The vertical term is marker y − body y, whatever the frame height. |
| Correspondence.Dist2 | robot_tracker.py:240-246 | The squared distance between two centres is never negative. |
| Correspondence.Dist2Zero | robot_tracker.py:240-246 | The squared distance is never negative, and is 0 exactly at equal centres. |
| Correspondence.DistanceList | robot_tracker.py:958-964 | The distance list has one entry per body: the squared distance from the marker to that body. |
| Correspondence.NearestMeansClosest | robot_tracker.py:973-975 | A body is at the minimum exactly when no body is closer to the marker. |
| Correspondence.MarkerHasNearest | robot_tracker.py:973-975 | With at least one body, every marker has a body at the minimum distance. |
| Correspondence.MinOf | robot_tracker.py:973 | `min` is at most every entry. |
| Correspondence.MinOfAttained | robot_tracker.py:973 | `min` is one of the entries. |
| Correspondence.MarkBody | robot_tracker.py:986-987 | Marking a body stores the marker index and heading and changes nothing else. |
| Correspondence.MarkIfNearest | robot_tracker.py:974-987 | Body z after one marker: marked with that marker and heading exactly when it is at the minimum distance, otherwise unchanged. |
| Correspondence.MarkerStep | robot_tracker.py:974-987 | One marker's pass keeps the number of bodies. |
| Correspondence.LastNearest | robot_tracker.py:957-987 | The last of the first n markers with body z at minimum distance, or −1 when none has. |
| Correspondence.BodyAfter | robot_tracker.py:957-987 | After n markers a body differs from its starting record at most in correspondence and orientation. |
| Correspondence.BodyAfterStep | robot_tracker.py:974-987 | Processing marker n takes each body from its state after n markers to its state after n + 1. |
| Correspondence.CorrespondedUntouched | robot_tracker.py:957-995 | A body that no marker has at minimum distance keeps its record. |
| Correspondence.CorrespondedLastWins | robot_tracker.py:957-995 | A body's final record carries the last marker that has it at the minimum, with the heading from that marker; earlier markers are overwritten. |
| Correspondence.Corresponded | robot_tracker.py:957-995 | The loop keeps the number of bodies. |
| Correspondence.Distances | robot_tracker.py:958-969 | The inner loop builds the distance list and the (x_val, y_val) pairs of every body. |
| Correspondence.MarkNearest | robot_tracker.py:974-995 | The tie loop marks every body at the minimum distance, whatever the ≤ 30 display test says. |
| Correspondence.Correspond | robot_tracker.py:957-995 | The correspondence loop computes `Corresponded`. |
| ThresholdFile.NatToString | robot_tracker.py:1238 | `str(n)` of a natural number is a non-empty string of digits. |
| ThresholdFile.IntToString | robot_tracker.py:1238 | `str(n)` is non-empty and holds no newline. |
| ThresholdFile.FieldLine | robot_tracker.py:1238 | The line `key=str(v)` plus a newline; FieldTextOfFieldLine and FieldLineIsNoTag state how it reads back. |
| ThresholdFile.ParseInt | robot_tracker.py:1391 | `int()` succeeds only on non-empty text. |
| ThresholdFile.DigitsOfNat | robot_tracker.py:1238-1391 | Reading back the digits of a natural number gives the number. |
| ThresholdFile.ParseIntToString | robot_tracker.py:1238-1391 | `int(str(n)) == n` for every integer n. |
| ThresholdFile.FieldFromStops | robot_tracker.py:1386-1389 | The field loop stops at the first newline after the '='. |
| ThresholdFile.FieldTextOfFieldLine | robot_tracker.py:1238-1389 | The field a written line `k=n` hands back is `str(n)`. |
| ThresholdFile.ReadField | robot_tracker.py:1386-1389 | The character loop collects the field text. |
| ThresholdFile.LineAt | robot_tracker.py:1386 | Indexing the lines succeeds exactly for indices in [−len, len). |
| ThresholdFile.ReadValue | robot_tracker.py:1386-1391 | One field's loop and `int()` give the field's value, or IndexError or ValueError. |
| ThresholdFile.ReadLineThres | robot_tracker.py:1384-1407 | `read_line_thres` appends h, s, v, or fails with the first error. |
| ThresholdFile.LineThres | robot_tracker.py:1384-1407 | `read_line_thres` as a function: the values of the three lines after the tag, appended, or the first IndexError or ValueError; LineThresOfFields and LineThresPastEnd state both outcomes. |
| ThresholdFile.LineThresOfFields | robot_tracker.py:1384-1407 | Field lines holding `str(a)`, `str(b)`, `str(c)` make `read_line_thres` append [a, b, c]. |
| ThresholdFile.LineThresPastEnd | robot_tracker.py:1386 | A block whose h line lies past the end raises IndexError. |
| ThresholdFile.ReadColour | robot_tracker.py:1420-1429 | One colour's loop over the lines computes its thresholds. |
| ThresholdFile.ColourThres | robot_tracker.py:1420-1429 | One colour's reading: skip to its colour line, append a `low` block, stop after an `up` block; ReadSection states it on a well-formed section. |
| ThresholdFile.Thres | robot_tracker.py:1410-1431 | Every colour's reading in order, stopping at the first error. |
| ThresholdFile.ReadThres | robot_tracker.py:1410-1431 | `read_thres` computes the thresholds of every used colour in order, or the first error. |
| ThresholdFile.WriteTriple | robot_tracker.py:1237-1245 | Writing h, s, v after a tag succeeds exactly when the three lines exist, and keeps the number of lines. |
| ThresholdFile.WriteScan | robot_tracker.py:1235-1246 | The inner scan keeps the number of lines. |
| ThresholdFile.WriteFrom | robot_tracker.py:1233-1246 | The outer scan keeps the number of lines. |
| ThresholdFile.WriteScanLoop | robot_tracker.py:1235-1246 | The inner loop computes the inner scan. |
| ThresholdFile.WriteNewVals | robot_tracker.py:1228-1251 | `write_new_vals` computes the rewritten line list, or IndexError. |
| ThresholdFile.FieldLineIsNoTag | robot_tracker.py:1238-1245 | A written h, s or v line is never mistaken for a tag or a colour line. |
| ThresholdFile.WriteFromSkips | robot_tracker.py:1233-1234 | Lines other than the colour line leave the outer scan unchanged. |
| ThresholdFile.WriteScanSkips | robot_tracker.py:1235-1246 | Lines other than `low` and `up` leave the inner scan unchanged. |
| ThresholdFile.FirstScan | robot_tracker.py:1235-1246 | On a well-formed section the first inner scan writes the low and up values and stops at `up`. |
| ThresholdFile.SecondScan | robot_tracker.py:1233-1246 | The second colour line starts a scan that rewrites the up values with the same numbers. |
| ThresholdFile.WriteNewValsSection | robot_tracker.py:1228-1251 | On a well-formed section, `write_new_vals` gives the section with its six values rewritten. |
| ThresholdFile.ColourSkips | robot_tracker.py:1420-1422 | Lines other than the colour line leave the reading unchanged. |
| ThresholdFile.ReadLowBlock | robot_tracker.py:1422-1425 | A colour line followed by `low` appends the low h, s, v. |
| ThresholdFile.LowBlockSkips | robot_tracker.py:1420-1422 | The `low` block's own lines contain no colour line. |
| ThresholdFile.ReadUpBlock | robot_tracker.py:1422-1429 | A colour line followed by `up` appends the up h, s, v and ends the colour. |
| ThresholdFile.ReadSection | robot_tracker.py:1419-1431 | A well-formed section reads back as its low values followed by its up values. |
| ThresholdFile.RewrittenNoColour | robot_tracker.py:1228-1251 | The rewrite puts no new colour line into the section. |
| ThresholdFile.RewrittenHolds | robot_tracker.py:1237-1245 | The rewritten field lines hold the new values. |
| ThresholdFile.WriteThenRead | robot_tracker.py:1228-1431 | Writing new low and up values into a well-formed section and reading it back gives those six values. |
| ThresholdFile.FirstUnits | robot_tracker.py:1514-1515 | The scan finds a `units` line at or after the start, or −1. |
| ThresholdFile.FirstUnitsFirst | robot_tracker.py:1514-1517 | It gives −1 exactly when no `units` line follows. Otherwise no earlier line is `units`. |
| ThresholdFile.WithUnits | robot_tracker.py:1522-1536 | `write_units` keeps the number of lines. |
| ThresholdFile.ReadUnits | robot_tracker.py:1507-1519 | The loop reads the line `num` after the first `units` line. |
| ThresholdFile.UnitsLine | robot_tracker.py:1507-1519 | The line `num` after the first `units` line, UnboundLocalError without one, IndexError past the end; UnitsRoundTrip and NoUnitsLine state it. |
| ThresholdFile.WriteUnits | robot_tracker.py:1522-1536 | The loop writes the value into the line `num` after the first `units` line. |
| ThresholdFile.NoUnitsLine | robot_tracker.py:1507-1536 | Without a `units` line, `write_units` leaves the lines unchanged and `read_units` raises UnboundLocalError. |
| ThresholdFile.UnitsRoundTrip | robot_tracker.py:1507-1536 | After `write_units`, `read_units` gives the written value plus a newline, and every other line is unchanged. |
| ThresholdFile.FirstUnitsSame | robot_tracker.py:1514-1515 | Two line lists that agree up to their first `units` line find it at the same place. |

## Left out

- Camera capture, HSV conversion, `inRange`, morphology and mask mixing: these are OpenCV calls on images, and the model starts from the masks.
- Drawing, `print_box`, the on-screen text and the "biggest area" rectangle: these are display only.
- Serial output, the timing block inside a string literal, the Tk windows and sliders, and the mouse callback: these are user interface or dead code.
- `yellow_det_dfs`: never called, because both branches of the main loop call `yellow_det_count`.
- File `open`, `readlines` and `writelines`: the file is its list of lines, and the caller reads and writes it.
- The `print` calls (`'equal'` in `write_new_vals`, `'error'` in the `except` clauses): output only.
- Correspondence.Heading: `math.degrees(math.atan2(y, x))` is a parameter returning a real, because floating-point trigonometry is outside the model.
- Correspondence.Dist2: compares squared integer distances; the square root of `euclidean_dist` is monotone, so the minimum is the same.
- HeadingWindow.Span: the float factor 1.5 + 0.1 is taken as the exact ratio 8/5, so floating-point rounding of the product is not modelled.
- FloodFill.Dfs2: labels are unbounded integers; the `uint8` wrap-around after 255 components is not modelled.
- FloodFill.Dfs2: does not state that a walk reaches every pixel of its 8-connected blob. It can miss parts, which the scan then labels as a later component.
- ThresholdFile.ParseInt: accepts an optional sign and digits only; the surrounding whitespace that Python's `int()` tolerates gives ValueError here.
- ThresholdFile.ReadUnits: returns the line itself; the `float()` conversion and `pix / float(val)` are float arithmetic.
- ThresholdFile.WriteUnits: takes the value already as text; `str()` of the float is not modelled.
- Correspondence.Correspond: requires at least one body whenever there is a marker, because `min` of an empty distance list raises ValueError there.
- HeadingWindow.YellowDetCount: requires at most three bodies and centres of two coordinates, since the data list has three slots and the centre is read outside the `try`.
