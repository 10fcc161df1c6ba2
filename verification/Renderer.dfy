/** What one call of the differential renderer computes: which path it takes, the operations it
    writes and the bookkeeping it keeps for the next call. */
module Renderer {
  import opened Basics
  import opened Terminal

  datatype Position = Position(row: nat, col: nat)

  /** The renderer's own record of the terminal. A width or height of 0 means nothing was rendered
      yet and -1 that a full redraw was demanded. */
  datatype Tui = Tui(
    previousLines: seq<Line>,
    previousImages: seq<nat>,
    previousWidth: int,
    previousHeight: int,
    hardwareCursorRow: nat,
    maxLinesRendered: nat,
    previousViewportTop: nat,
    clearOnShrink: bool,
    stopped: bool)

  datatype Outcome = Outcome(tui: Tui, ops: seq<Op>)

  // ----- Frame preparation

  function MarkerIndex(line: Line): (i: nat)
    requires Marker in line
    ensures i < |line| && line[i] == Marker && Marker !in line[..i]
  {
    if line[0] == Marker then 0 else
      var i := 1 + MarkerIndex(line[1..]);
      assert forall j :: 0 < j < i ==> line[j] == line[1..][j - 1];
      i
  }

  /** The last of rows `lo..hi` that holds a cursor marker, or -1. */
  function MarkerRow(lines: seq<Line>, lo: nat, hi: nat): (r: int)
    requires lo <= hi <= |lines|
    ensures r == -1 || lo <= r < hi
    ensures r >= 0 ==> Marker in lines[r]
    ensures forall k :: lo <= k < hi && k > r ==> Marker !in lines[k]
    decreases hi
  {
    if lo == hi then -1 else if Marker in lines[hi - 1] then hi - 1 else MarkerRow(lines, lo, hi - 1)
  }

  datatype Prepared = Prepared(cursor: Option<Position>, lines: seq<Line>)

  function ExtractCursor(lines: seq<Line>, height: nat): Prepared {
    var row := MarkerRow(lines, Max(0, |lines| - height), |lines|);
    if row < 0 then Prepared(None, lines) else
      var line := lines[row];
      var i := MarkerIndex(line);
      Prepared(Some(Position(row, |Cells(line[..i])|)), lines[row := line[..i] + line[i + 1..]])
  }

  predicate IsImageLine(line: Line) {
    exists item :: item in line && item.Image?
  }

  const SEGMENT_RESET := Code("\U{1B}[0m\U{1B}]8;;\U{7}")

  function WithReset(line: Line): Line {
    if IsImageLine(line) then line else line + [SEGMENT_RESET]
  }

  function Prepare(frame: seq<Line>, height: nat): Prepared {
    var p := ExtractCursor(frame, height);
    Prepared(p.cursor, seq(|p.lines|, i requires 0 <= i < |p.lines| => WithReset(p.lines[i])))
  }

  // ----- Kitty images

  const MAX_IMAGE_ID := 0xffff_ffff

  /** The id of the first image on the line, if it is one a delete command can name. */
  function KittyIds(line: Line): (ids: seq<nat>)
    ensures |ids| <= 1
  {
    if line == [] then [] else if !line[0].Image? then KittyIds(line[1..])
    else if 0 < line[0].id <= MAX_IMAGE_ID then [line[0].id] else []
  }

  /** Ids of all lines in order of first occurrence. */
  function CollectIds(lines: seq<Line>): seq<nat> {
    if lines == [] then [] else
      var ids := CollectIds(lines[..|lines| - 1]);
      var own := KittyIds(lines[|lines| - 1]);
      if own == [] || own[0] in ids then ids else ids + own
  }

  function Deletes(ids: seq<nat>): seq<Op> {
    seq(|ids|, i requires 0 <= i < |ids| => DeleteImage(ids[i]))
  }

  /** The last line from `first` on that carries an image, if that is below `last`. */
  function ExpandLast(lines: seq<Line>, first: nat, last: int): (r: int)
    ensures r >= last
    ensures r > last ==> first <= r < |lines|
    ensures forall i :: first <= i < |lines| && KittyIds(lines[i]) != [] ==> i <= r
    decreases |lines|
  {
    if |lines| <= first then last else
      var k := |lines| - 1;
      if KittyIds(lines[k]) != [] then Max(last, k) else
        var r := ExpandLast(lines[..k], first, last);
        assert forall i :: first <= i < k ==> lines[i] == lines[..k][i];
        r
  }

  function DeleteChanged(lines: seq<Line>, first: int, last: int): seq<Op> {
    if first < 0 || last < first || first > |lines| then [] else
      Deletes(CollectIds(lines[first..Max(first, Min(last + 1, |lines|))]))
  }

  // ----- Comparing frames

  function LineAt(lines: seq<Line>, i: nat): Line {
    if i < |lines| then lines[i] else []
  }

  predicate Differs(a: seq<Line>, b: seq<Line>, i: nat) {
    LineAt(a, i) != LineAt(b, i)
  }

  /** The first index from `i` on at which the frames differ, or -1. */
  function FirstDiff(a: seq<Line>, b: seq<Line>, i: nat): (r: int)
    ensures r == -1 || (i <= r < Max(|a|, |b|) && Differs(a, b, r))
    ensures forall k :: i <= k < Max(|a|, |b|) && (r == -1 || k < r) ==> !Differs(a, b, k)
    decreases Max(|a|, |b|) - i
  {
    if i >= Max(|a|, |b|) then -1 else if Differs(a, b, i) then i else FirstDiff(a, b, i + 1)
  }

  /** The last index below `n` at which the frames differ, or -1. */
  function LastDiff(a: seq<Line>, b: seq<Line>, n: nat): (r: int)
    ensures r == -1 || (0 <= r < n && Differs(a, b, r))
    ensures forall k :: 0 <= k < n && k > r ==> !Differs(a, b, k)
  {
    if n == 0 then -1 else if Differs(a, b, n - 1) then n - 1 else LastDiff(a, b, n - 1)
  }

  /** The changed range; `first` is -1 when nothing changed. */
  datatype Range = Range(first: int, last: int)

  function ChangedRange(a: seq<Line>, b: seq<Line>): Range {
    var appended := |b| > |a|;
    var diff := FirstDiff(a, b, 0);
    var first := if appended && diff == -1 then |a| else diff;
    var last := if appended then |b| - 1 else LastDiff(a, b, Max(|a|, |b|));
    Range(first, if first != -1 then ExpandLast(a, first, last) else last)
  }

  // ----- The paths of a render

  datatype Path =
    | FirstPaint    // print without clearing
    | Clear         // clear everything, then print
    | Unchanged     // only the cursor may move
    | DeleteOnly    // only trailing lines disappeared
    | Differential  // repaint the changed range
    | Overlong      // a changed line is wider than the terminal

  predicate SizeChanged(s: Tui, width: nat, height: nat) {
    (s.previousWidth != 0 && s.previousWidth != width) || (s.previousHeight != 0 && s.previousHeight != height)
  }

  predicate TooWide(line: Line, width: nat) {
    !IsImageLine(line) && |Cells(line)| > width
  }

  function ChoosePath(s: Tui, lines: seq<Line>, width: nat, height: nat, overlays: bool): Path {
    if s.previousLines == [] && !SizeChanged(s, width, height) then FirstPaint
    else if SizeChanged(s, width, height) then Clear
    else if s.clearOnShrink && |lines| < s.maxLinesRendered && !overlays then Clear
    else
      var r := ChangedRange(s.previousLines, lines);
      if r.first == -1 then Unchanged
      else if r.first >= |lines| then
        if Max(0, |lines| - 1) < s.previousViewportTop || |s.previousLines| - |lines| > height then Clear
        else DeleteOnly
      else if r.first < s.previousViewportTop then Clear
      else if exists i :: r.first <= i <= Min(r.last, |lines| - 1) && TooWide(lines[i], width) then Overlong
      else Differential
  }

  function Move(from: int, to: int): seq<Op> {
    if to > from then [Down(to - from)] else if to < from then [Up(from - to)] else []
  }

  function PositionCursor(s: Tui, cursor: Option<Position>, total: nat): Outcome {
    if cursor.None? || total == 0 then Outcome(s, []) else
      var row := Min(cursor.value.row, total - 1);
      Outcome(s.(hardwareCursorRow := row), Move(s.hardwareCursorRow, row) + [Column(cursor.value.col)])
  }

  /** Bookkeeping common to every path that wrote the frame `p`. */
  function Finish(s: Tui, p: Prepared, ops: seq<Op>, width: nat, height: nat): Outcome {
    var o := PositionCursor(s, p.cursor, |p.lines|);
    Outcome(o.tui.(previousLines := p.lines, previousImages := CollectIds(p.lines),
                   previousWidth := width, previousHeight := height),
            ops + o.ops)
  }

  const CLEAR_ALL: seq<Op> := [EraseScreen, Home, EraseScrollback]

  function FullOps(s: Tui, clear: bool, lines: seq<Line>): seq<Op> {
    (if clear then Deletes(s.previousImages) + CLEAR_ALL else []) + Paint(lines, false)
  }

  function AfterFull(s: Tui, clear: bool, n: nat, height: nat): Tui {
    s.(hardwareCursorRow := Max(0, n - 1),
       maxLinesRendered := if clear then n else Max(s.maxLinesRendered, n),
       previousViewportTop := Max(height, n) - height)
  }

  function FullRender(s: Tui, clear: bool, p: Prepared, width: nat, height: nat): Outcome {
    Finish(AfterFull(s, clear, |p.lines|, height), p, FullOps(s, clear, p.lines), width, height)
  }

  /** The first `k` of `total` row clearings that step down without scrolling. */
  function ClearRows(k: nat, total: nat): seq<Op> {
    if k == 0 then [] else
      ClearRows(k - 1, total) + [CarriageReturn, EraseLine] + (if k < total then [Down(1)] else [])
  }

  function DeleteOnlyOps(s: Tui, lines: seq<Line>): seq<Op>
    requires |lines| <= |s.previousLines|
  {
    var r := ChangedRange(s.previousLines, lines);
    var extra := |s.previousLines| - |lines|;
    var clearing := if extra > 0 then [Down(1)] + ClearRows(extra, extra) + [Up(extra)] else [];
    DeleteChanged(s.previousLines, r.first, r.last)
    + (Move(s.hardwareCursorRow, Max(0, |lines| - 1)) + [CarriageReturn])
    + clearing
  }

  function Repeat(ops: seq<Op>, n: nat): seq<Op> {
    if n == 0 then [] else Repeat(ops, n - 1) + ops
  }

  /** Scrolling that brings a row below the screen into view. */
  function ScrollOps(s: Tui, target: int, height: nat): seq<Op> {
    var bottom := s.previousViewportTop + height - 1;
    if target <= bottom then [] else
      var current := Max(0, Min(height - 1, s.hardwareCursorRow - s.previousViewportTop));
      Move(current, Max(current, height - 1)) + Repeat(NEWLINE, target - bottom)
  }

  function EraseBelow(k: nat): seq<Op> {
    if k == 0 then [] else EraseBelow(k - 1) + (NEWLINE + [EraseLine])
  }

  predicate AppendStart(s: Tui, lines: seq<Line>) {
    |lines| > |s.previousLines| && ChangedRange(s.previousLines, lines).first == |s.previousLines| > 0
  }

  /** The row the differential path moves to before it starts writing. */
  function MoveTarget(s: Tui, lines: seq<Line>): int {
    var first := ChangedRange(s.previousLines, lines).first;
    if AppendStart(s, lines) then first - 1 else first
  }

  /** Moves from the tracked cursor to the first line to be written. */
  function ApproachOps(s: Tui, lines: seq<Line>, height: nat): seq<Op> {
    var target := MoveTarget(s, lines);
    var below := target > s.previousViewportTop + height - 1;
    ScrollOps(s, target, height)
    + (Move(if below then target else s.hardwareCursorRow, target)
       + (if AppendStart(s, lines) then NEWLINE else [CarriageReturn]))
  }

  function RenderEnd(s: Tui, lines: seq<Line>): int {
    Min(ChangedRange(s.previousLines, lines).last, |lines| - 1)
  }

  /** Clears the rows of lines that no longer exist and returns to the last line that does. */
  function TrimOps(s: Tui, lines: seq<Line>): seq<Op> {
    if |s.previousLines| <= |lines| then [] else
      var extra := |s.previousLines| - |lines|;
      Move(RenderEnd(s, lines), Max(RenderEnd(s, lines), |lines| - 1)) + EraseBelow(extra) + [Up(extra)]
  }

  function DiffOps(s: Tui, lines: seq<Line>, height: nat): seq<Op> {
    var r := ChangedRange(s.previousLines, lines);
    var end := RenderEnd(s, lines);
    DeleteChanged(s.previousLines, r.first, r.last)
    + ApproachOps(s, lines, height)
    + Paint(if 0 <= r.first <= end < |lines| then lines[r.first..end + 1] else [], true)
    + TrimOps(s, lines)
  }

  function AfterDiff(s: Tui, lines: seq<Line>, height: nat): Tui {
    var n := |lines|;
    var target := MoveTarget(s, lines);
    var bottom := s.previousViewportTop + height - 1;
    var top := if target > bottom then s.previousViewportTop + (target - bottom) else s.previousViewportTop;
    var finalRow := if |s.previousLines| > n then Max(RenderEnd(s, lines), n - 1) else RenderEnd(s, lines);
    s.(hardwareCursorRow := Max(0, finalRow),
       maxLinesRendered := Max(s.maxLinesRendered, n),
       previousViewportTop := Max(top, finalRow - height + 1))
  }

  function DiffRender(s: Tui, p: Prepared, width: nat, height: nat): Outcome {
    Finish(AfterDiff(s, p.lines, height), p, DiffOps(s, p.lines, height), width, height)
  }

  function RenderPrepared(s: Tui, p: Prepared, width: nat, height: nat, overlays: bool): Outcome {
    match ChoosePath(s, p.lines, width, height, overlays)
    case FirstPaint => FullRender(s, false, p, width, height)
    case Clear => FullRender(s, true, p, width, height)
    case Unchanged =>
      var o := PositionCursor(s, p.cursor, |p.lines|);
      Outcome(o.tui.(previousHeight := height), o.ops)
    case DeleteOnly =>
      var ops := if |p.lines| <= |s.previousLines| then DeleteOnlyOps(s, p.lines) else [];
      Finish(s.(hardwareCursorRow := Max(0, |p.lines| - 1)), p, ops, width, height)
    case Overlong => Outcome(s.(stopped := true), [])
    case Differential => DiffRender(s, p, width, height)
  }

  function DoRender(s: Tui, frame: seq<Line>, width: nat, height: nat, overlays: bool): Outcome {
    if s.stopped then Outcome(s, []) else RenderPrepared(s, Prepare(frame, height), width, height, overlays)
  }

  /** A demand for a full redraw: forget everything but the images to delete. */
  function Force(s: Tui): Tui {
    s.(previousLines := [], previousWidth := -1, previousHeight := -1, hardwareCursorRow := 0,
       maxLinesRendered := 0, previousViewportTop := 0)
  }
}
