/** The differential renderer keeps the terminal equal to the frame it was last given. */
module RendererProofs {
  import opened Basics
  import opened Terminal
  import opened Renderer

  // ----- Frame preparation

  lemma {:induction false} CellsConcat(a: Line, b: Line)
    ensures Cells(a + b) == Cells(a) + Cells(b)
  {
    if a == [] {
      assert a + b == b;
    } else {
      assert (a + b)[0] == a[0] && (a + b)[1..] == a[1..] + b;
      CellsConcat(a[1..], b);
    }
  }

  ghost predicate NonEmpty(lines: seq<Line>) {
    forall i :: 0 <= i < |lines| ==> lines[i] != []
  }

  lemma {:induction false} ResetKeepsCells(line: Line)
    ensures Cells(WithReset(line)) == Cells(line) && WithReset(line) != []
  {
    if !IsImageLine(line) {
      CellsConcat(line, [SEGMENT_RESET]);
      assert Cells([SEGMENT_RESET]) == [];
    }
  }

  lemma {:induction false} StripKeepsCells(line: Line, i: nat)
    requires i < |line| && line[i] == Marker
    ensures Cells(line[..i] + line[i + 1..]) == Cells(line)
  {
    hide Cells;
    assert line == line[..i] + ([Marker] + line[i + 1..]);
    CellsConcat(line[..i], [Marker] + line[i + 1..]);
    CellsConcat([Marker], line[i + 1..]);
    MarkerShowsNothing();
    CellsConcat(line[..i], line[i + 1..]);
  }

  lemma {:induction false} MarkerShowsNothing()
    ensures Cells([Marker]) == []
  {
  }

  /** Preparation changes no cell, never leaves a line empty, and finds the marker among the bottom
      `height` lines only. */
  lemma {:induction false} PrepareFacts(frame: seq<Line>, height: nat)
    ensures var p := Prepare(frame, height);
      && |p.lines| == |frame| && NonEmpty(p.lines)
      && (forall i :: 0 <= i < |frame| ==> Cells(p.lines[i]) == Cells(frame[i]))
      && (p.cursor.Some? ==> Max(0, |frame| - height) <= p.cursor.value.row < |frame|)
  {
    var p := Prepare(frame, height);
    var row := MarkerRow(frame, Max(0, |frame| - height), |frame|);
    forall i | 0 <= i < |frame| ensures Cells(p.lines[i]) == Cells(frame[i]) && p.lines[i] != [] {
      ResetKeepsCells(ExtractCursor(frame, height).lines[i]);
      if i == row {
        StripKeepsCells(frame[i], MarkerIndex(frame[i]));
      }
    }
  }

  // ----- The changed range

  /** Both frames hold only non-empty lines, so a missing line always counts as a difference. */
  lemma {:induction false} RangeFacts(a: seq<Line>, b: seq<Line>)
    requires NonEmpty(a) && NonEmpty(b)
    ensures var r := ChangedRange(a, b);
      && (r.first == -1 ==> a == b)
      && (r.first != -1 ==>
            && 0 <= r.first < Max(|a|, |b|) && r.first <= |a| && r.first <= |b| && r.first <= r.last < Max(|a|, |b|)
            && (forall i :: 0 <= i < r.first ==> a[i] == b[i])
            && (forall i :: r.last < i < Max(|a|, |b|) ==> i < |a| && i < |b| && a[i] == b[i])
            && (|a| != |b| ==> r.last == Max(|a|, |b|) - 1))
  {
    var n := Max(|a|, |b|);
    var r := ChangedRange(a, b);
    var k := Min(|a|, |b|);
    if |a| != |b| {
      assert Differs(a, b, k) && Differs(a, b, n - 1);
    }
    if r.first == -1 {
      forall i | 0 <= i < |a| ensures a[i] == b[i] {
        assert !Differs(a, b, i);
      }
    } else {
      assert Differs(a, b, r.first);
      forall i | 0 <= i < r.first ensures a[i] == b[i] {
        assert !Differs(a, b, i);
      }
      forall i | r.last < i < n ensures i < |a| && i < |b| && a[i] == b[i] {
        assert !Differs(a, b, i);
      }
    }
  }

  // ----- The invariant

  /** Scrollback plus screen is the frame padded with blank rows. */
  ghost predicate Shows(lines: seq<Line>, t: Term) {
    && |lines| <= |t.rows|
    && forall j :: 0 <= j < |t.rows| ==> t.rows[j] == if j < |lines| then Cells(lines[j]) else []
  }

  /** The renderer's record agrees with the terminal and its last line is on the screen. */
  ghost predicate Synced(s: Tui, t: Term) {
    && t.Valid() && !s.stopped
    && Shows(s.previousLines, t) && NonEmpty(s.previousLines)
    && t.top == s.previousViewportTop && t.cy == s.hardwareCursorRow
    && (if s.previousLines == [] then t.top == 0 && t.cy == 0 && t.cx == 0 else t.top < |s.previousLines|)
    && ((s.previousWidth == t.width && s.previousHeight == t.height)
        || (s.previousWidth == 0 && s.previousHeight == 0 && s.previousLines == []))
  }

  /** A render may start: the record is right, or the next render is bound to clear everything. */
  ghost predicate Ready(s: Tui, t: Term) {
    t.Valid() && !s.stopped && (Synced(s, t) || SizeChanged(s, t.width, t.height))
  }

  /** The side condition of the paths that keep what is on the screen: the cursor marker is not above
      the tracked viewport, and a frame that became empty does not leave its first row behind. */
  predicate Reachable(s: Tui, p: Prepared, height: nat, path: Path) {
    if path.FirstPaint? || path.Clear? then true
    else if path.Overlong? then false
    else
      && (p.cursor.Some? && p.lines != [] ==> p.cursor.value.row >= s.previousViewportTop)
      && (path.DeleteOnly? && p.lines == [] && s.previousLines != [] ==> height == 1 || Cells(s.previousLines[0]) == [])
  }

  predicate StepOk(s: Tui, frame: seq<Line>, width: nat, height: nat, overlays: bool) {
    var p := Prepare(frame, height);
    Reachable(s, p, height, ChoosePath(s, p.lines, width, height, overlays))
  }

  // ----- Effects of the operation groups

  ghost predicate SameScreen(t: Term, u: Term) {
    u.Valid() && u.rows == t.rows && u.top == t.top && u.cy == t.cy && u.cx == t.cx && u.width == t.width
        && u.height == t.height
  }

  lemma {:induction false} RunDeletes(t: Term, ids: seq<nat>)
    requires t.Valid()
    ensures SameScreen(t, Run(t, Deletes(ids)))
    decreases |ids|
  {
    if ids != [] {
      assert Deletes(ids)[1..] == Deletes(ids[1..]);
      RunDeletes(Apply(t, DeleteImage(ids[0])), ids[1..]);
    }
  }

  lemma {:induction false} RunMove(t: Term, to: int)
    requires t.Valid()
    ensures var u := Run(t, Move(t.cy, to));
      && u.rows == t.rows && u.top == t.top
      && (t.top <= to < t.top + t.height ==> u.cy == to)
      && (to < t.top ==> u.cy == t.top)
  {
    if to > t.cy {
      RunOne(t, Down(to - t.cy));
    } else if to < t.cy {
      RunOne(t, Up(t.cy - to));
    }
  }

  /** Positioning the cursor is exact when the target is on the screen and wrong when it is above. */
  lemma {:induction false} PositionFacts(s: Tui, t: Term, cursor: Option<Position>, total: nat)
    requires t.Valid() && t.cy == s.hardwareCursorRow && t.top == s.previousViewportTop
    requires cursor.Some? ==> cursor.value.row < total <= t.top + t.height
    ensures var o := PositionCursor(s, cursor, total); var u := Run(t, o.ops);
      && u.rows == t.rows && u.top == t.top && o.tui == s.(hardwareCursorRow := o.tui.hardwareCursorRow)
      && (u.cy == o.tui.hardwareCursorRow <==> (cursor.Some? && total > 0 ==> cursor.value.row >= t.top))
      && (total == 0 ==> u == t && o.tui == s)
  {
    if cursor.Some? && total > 0 {
      var row := Min(cursor.value.row, total - 1);
      RunConcat(t, Move(s.hardwareCursorRow, row), [Column(cursor.value.col)]);
      RunMove(t, row);
      RunOne(Run(t, Move(t.cy, row)), Column(cursor.value.col));
    }
  }

  /** What a path must leave behind before the cursor is positioned. */
  ghost predicate Drawn(s: Tui, lines: seq<Line>, t: Term) {
    && t.Valid() && Shows(lines, t)
    && t.top == s.previousViewportTop && t.cy == s.hardwareCursorRow
    && (if lines == [] then t.top == 0 && t.cy == 0 && t.cx == 0 else t.top < |lines|)
  }

  /** Once the frame is drawn, the record is right exactly when the cursor target is on the screen. */
  lemma {:induction false} FinishFacts(s: Tui, t: Term, p: Prepared, ops: seq<Op>)
    requires t.Valid() && !s.stopped && NonEmpty(p.lines)
    requires Drawn(s, p.lines, Run(t, ops))
    requires p.cursor.Some? ==> p.cursor.value.row < |p.lines|
    ensures var o := Finish(s, p, ops, t.width, t.height);
      Synced(o.tui, Run(t, o.ops)) <==>
          (p.cursor.Some? && p.lines != [] ==> p.cursor.value.row >= s.previousViewportTop)
  {
    hide Run, Shows, PositionCursor, Drawn, Synced, CollectIds;
    var u := Run(t, ops);
    var o := PositionCursor(s, p.cursor, |p.lines|);
    DrawnFacts(s, p.lines, u);
    PositionFacts(s, u, p.cursor, |p.lines|);
    RunConcat(t, ops, o.ops);
    SyncedAfter(s, p.lines, u, Run(u, o.ops), Finish(s, p, ops, t.width, t.height).tui);
  }

  lemma {:induction false} DrawnFacts(s: Tui, lines: seq<Line>, t: Term)
    requires Drawn(s, lines, t)
    ensures t.Valid() && t.cy == s.hardwareCursorRow && t.top == s.previousViewportTop && |lines| <= t.top + t.height
  {
  }

  /** After the cursor has moved the record is right when its row is. */
  lemma {:induction false} SyncedAfter(s: Tui, lines: seq<Line>, u: Term, v: Term, r: Tui)
    requires Drawn(s, lines, u) && !s.stopped && NonEmpty(lines)
    requires v.Valid() && v.rows == u.rows && v.top == u.top
    requires r.previousLines == lines && r.previousWidth == v.width && r.previousHeight == v.height
    requires r.previousViewportTop == s.previousViewportTop && r.stopped == s.stopped
    requires lines == [] ==> v == u && r.hardwareCursorRow == s.hardwareCursorRow
    ensures Synced(r, v) <==> v.cy == r.hardwareCursorRow
  {
    hide Cells;
  }

  // ----- The full paths

  lemma {:induction false} PaintFits(frame: seq<Line>, lines: seq<Line>, width: nat)
    requires |lines| == |frame| && Fits(frame, width)
    requires forall i :: 0 <= i < |frame| ==> Cells(lines[i]) == Cells(frame[i])
    ensures Fits(lines, width)
  {
  }

  ghost predicate Clean(t: Term) {
    t.Valid() && t.top == 0 && t.cy == 0 && t.cx == 0 && forall j :: 0 <= j < |t.rows| ==> t.rows[j] == []
  }

  lemma {:induction false} WipeCleans(t: Term)
    requires t.Valid()
    ensures Clean(Apply(Apply(Apply(t, EraseScreen), Home), EraseScrollback))
  {
  }

  lemma {:induction false} ClearCleans(t: Term, ids: seq<nat>)
    requires t.Valid()
    ensures Clean(Run(t, Deletes(ids) + CLEAR_ALL))
  {
    RunConcat(t, Deletes(ids), CLEAR_ALL);
    var u := Run(t, Deletes(ids));
    RunThree(u, EraseScreen, Home, EraseScrollback);
    hide Run;
    WipeCleans(u);
  }

  lemma {:induction false} PaintedShows(t: Term, lines: seq<Line>, u: Term)
    requires Clean(t) && Painted(t, lines, u)
    ensures Shows(lines, u) && u.top == Max(t.height, |lines|) - t.height
  {
    hide Cells;
    assert |u.rows| >= |lines|;
    forall j | 0 <= j < |u.rows| ensures u.rows[j] == if j < |lines| then Cells(lines[j]) else [] {
      assert u.rows[j] == RowAfter(t.rows, t.cy, lines, j);
    }
  }

  /** Printing a frame on a clean terminal shows it with its last line at the bottom. */
  lemma {:induction false} PrintShows(t: Term, lines: seq<Line>, u: Term)
    requires Clean(t) && Fits(lines, t.width) && u == Run(t, Paint(lines, false))
    ensures u.Valid() && Shows(lines, u)
    ensures u.top == Max(t.height, |lines|) - t.height && u.cy == Max(0, |lines| - 1)
    ensures lines == [] ==> u.cx == 0
  {
    if lines == [] {
      assert u == t;
    } else {
      PaintPaints(t, lines, false);
      PaintedShows(t, lines, u);
    }
  }

  lemma {:induction false} FullShows(s: Tui, t: Term, clear: bool, lines: seq<Line>)
    requires t.Valid() && Fits(lines, t.width) && (clear || Clean(t))
    ensures Drawn(AfterFull(s, clear, |lines|, t.height), lines, Run(t, FullOps(s, clear, lines)))
  {
    assert Run(t, []) == t;
    hide Run, Paint, Cells;
    var wipe := if clear then Deletes(s.previousImages) + CLEAR_ALL else [];
    if clear { ClearCleans(t, s.previousImages); }
    RunConcat(t, wipe, Paint(lines, false));
    PrintShows(Run(t, wipe), lines, Run(t, FullOps(s, clear, lines)));
  }

  /** A full render always ends in agreement, whatever the terminal held when it clears first. */
  lemma {:induction false} FullDraws(s: Tui, t: Term, clear: bool, p: Prepared)
    requires t.Valid() && !s.stopped && Fits(p.lines, t.width) && NonEmpty(p.lines)
    requires clear || Clean(t)
    requires p.cursor.Some? ==> Max(0, |p.lines| - t.height) <= p.cursor.value.row < |p.lines|
    ensures var o := FullRender(s, clear, p, t.width, t.height);
      Synced(o.tui, Run(t, o.ops))
  {
    hide Run, Paint, Cells, FullOps;
    FullShows(s, t, clear, p.lines);
    FinishFacts(AfterFull(s, clear, |p.lines|, t.height), t, p, FullOps(s, clear, p.lines));
  }

  // ----- The delete-only path

  /** Clearing steps down row by row and stops at the bottom of the screen. */
  lemma {:induction false} ClearRowsEffect(t: Term, k: nat, total: nat)
    requires t.Valid() && k <= total && total > 0
    ensures var u := Run(t, ClearRows(k, total));
      && u.top == t.top && |u.rows| == |t.rows|
      && u.cy == Min(t.cy + (if k < total then k else k - 1), t.top + t.height - 1)
      && (forall j :: 0 <= j < |t.rows| ==> u.rows[j] == if t.cy <= j < t.cy + k then [] else t.rows[j])
      && (k > 0 ==> u.cx == 0)
  {
    hide Run;
    if k == 0 {
      RunNothing(t);
    } else {
      var step := [CarriageReturn, EraseLine];
      var down := if k < total then [Down(1)] else [];
      ClearRowsEffect(t, k - 1, total);
      RunConcat(t, ClearRows(k - 1, total) + step, down);
      RunConcat(t, ClearRows(k - 1, total), step);
      ClearOneRow(Run(t, ClearRows(k - 1, total)), down);
    }
  }

  lemma {:induction false} RunNothing(t: Term)
    requires t.Valid()
    ensures Run(t, []) == t
  {
  }

  /** One row is cleared, and the cursor may go down to the next. */
  lemma {:induction false} ClearOneRow(v: Term, down: seq<Op>)
    requires v.Valid() && (down == [] || down == [Down(1)])
    ensures var u := Run(Run(v, [CarriageReturn, EraseLine]), down);
      && u.top == v.top && |u.rows| == |v.rows| && u.cx == 0
      && u.cy == Min(v.cy + |down|, v.top + v.height - 1)
      && (forall j :: 0 <= j < |v.rows| ==> u.rows[j] == if j == v.cy then [] else v.rows[j])
  {
    RunTwo(v, CarriageReturn, EraseLine);
    var w := Run(v, [CarriageReturn, EraseLine]);
    if down == [] { RunNothing(w); } else { RunOne(w, Down(1)); }
  }

  lemma {:induction false} DeletesKeep(t: Term, lines: seq<Line>, first: int, last: int, rest: seq<Op>)
    requires t.Valid()
    ensures exists v :: SameScreen(t, v) && Run(t, DeleteChanged(lines, first, last) + rest) == Run(v, rest)
  {
    var ops := DeleteChanged(lines, first, last);
    if ops == [] {
      assert SameScreen(t, Run(t, ops));
    } else {
      RunDeletes(t, CollectIds(lines[first..Max(first, Min(last + 1, |lines|))]));
    }
    RunConcat(t, ops, rest);
  }

  /** The cursor is brought to column 0 of a row that is on the screen. */
  lemma {:induction false} ApproachRow(t: Term, to: nat)
    requires t.Valid() && t.top <= to < t.top + t.height
    ensures Run(t, Move(t.cy, to) + [CarriageReturn]) == t.(cy := to, cx := 0)
  {
    RunConcat(t, Move(t.cy, to), [CarriageReturn]);
    RunMove(t, to);
    var v := Run(t, Move(t.cy, to));
    RunOne(v, CarriageReturn);
    if to > t.cy {
      RunOne(t, Down(to - t.cy));
    } else if to < t.cy {
      RunOne(t, Up(t.cy - to));
    }
  }

  /** From row `y`, clear the `extra` rows below it and come back. */
  lemma {:induction false} ClearBelow(t: Term, extra: nat)
    requires t.Valid() && t.cx == 0 && extra > 0
    ensures var u := Run(t, [Down(1)] + ClearRows(extra, extra) + [Up(extra)]);
      var y := Min(t.cy + 1, t.top + t.height - 1);
      && u.top == t.top && |u.rows| == |t.rows| && u.cx == 0
      && u.cy == Max(t.top, Min(y + extra - 1, t.top + t.height - 1) - extra)
      && (forall j :: 0 <= j < |t.rows| ==> u.rows[j] == if y <= j < y + extra then [] else t.rows[j])
  {
    var a := [Down(1)];
    var b := ClearRows(extra, extra);
    RunConcat(t, a + b, [Up(extra)]);
    RunConcat(t, a, b);
    RunOne(t, Down(1));
    var v := Run(t, a);
    ClearRowsEffect(v, extra, extra);
    RunOne(Run(v, b), Up(extra));
  }

  /** `u` is `t` with the cursor at the start of row `y` and nothing else changed. */
  ghost predicate MovedTo(t: Term, y: nat, u: Term) {
    u.Valid() && u.rows == t.rows && u.top == t.top && u.cy == y && u.cx == 0 && u.width == t.width
        && u.height == t.height
  }

  lemma {:induction false} DeleteOnlyStart(s: Tui, t: Term, lines: seq<Line>, clearing: seq<Op>) returns (w: Term)
    requires t.Valid() && t.cy == s.hardwareCursorRow && |lines| < |s.previousLines|
    requires t.top <= Max(0, |lines| - 1) < t.top + t.height
    requires var extra := |s.previousLines| - |lines|; clearing == [Down(1)] + ClearRows(extra, extra) + [Up(extra)]
    ensures MovedTo(t, Max(0, |lines| - 1), w) && Run(t, DeleteOnlyOps(s, lines)) == Run(w, clearing)
  {
    hide Run, ClearRows;
    var r := ChangedRange(s.previousLines, lines);
    var move := Move(s.hardwareCursorRow, Max(0, |lines| - 1)) + [CarriageReturn];
    var deletes := DeleteChanged(s.previousLines, r.first, r.last);
    assert deletes + move + clearing == deletes + (move + clearing);
    DeletesKeep(t, s.previousLines, r.first, r.last, move + clearing);
    var v: Term :| SameScreen(t, v) && Run(t, deletes + (move + clearing)) == Run(v, move + clearing);
    RunConcat(v, move, clearing);
    ApproachRow(v, Max(0, |lines| - 1));
    w := v.(cy := Max(0, |lines| - 1), cx := 0);
  }

  /** The delete-only path shows the shorter frame; an emptied frame keeps its first row unless the
      screen has only one. */
  lemma {:induction false} DeleteOnlyDraws(s: Tui, t: Term, lines: seq<Line>)
    requires Synced(s, t) && |lines| < |s.previousLines|
    requires lines == s.previousLines[..|lines|] && Max(0, |lines| - 1) >= t.top
    ensures Drawn(s.(hardwareCursorRow := Max(0, |lines| - 1)), lines, Run(t, DeleteOnlyOps(s, lines)))
      <==> (lines == [] ==> t.height == 1 || Cells(s.previousLines[0]) == [])
  {
    hide Run, Cells, ClearRows, DeleteOnlyOps;
    var extra := |s.previousLines| - |lines|;
    var clearing := [Down(1)] + ClearRows(extra, extra) + [Up(extra)];
    var w := DeleteOnlyStart(s, t, lines, clearing);
    ClearBelow(w, extra);
    var u := Run(w, clearing);
    if lines == [] {
      assert u.rows[0] == if t.height == 1 then [] else Cells(s.previousLines[0]);
    } else {
      assert forall j :: 0 <= j < |lines| ==> lines[j] == s.previousLines[j];
    }
  }

  // ----- The differential path

  lemma {:induction false} EraseBelowEffect(t: Term, k: nat)
    requires t.Valid() && t.cy + k < t.top + t.height
    ensures var u := Run(t, EraseBelow(k));
      && u.top == t.top && |u.rows| == |t.rows| && u.cy == t.cy + k
      && (forall j :: 0 <= j < |t.rows| ==> u.rows[j] == if t.cy < j <= t.cy + k then [] else t.rows[j])
  {
    if k > 0 {
      EraseBelowEffect(t, k - 1);
      RunConcat(t, EraseBelow(k - 1), NEWLINE + [EraseLine]);
      assert NEWLINE + [EraseLine] == [CarriageReturn, LineFeed, EraseLine];
      RunThree(Run(t, EraseBelow(k - 1)), CarriageReturn, LineFeed, EraseLine);
    }
  }

  /** When the differential path runs: something at or below the viewport top changed and is still
      part of the frame. */
  ghost predicate Diffs(s: Tui, t: Term, lines: seq<Line>) {
    var first := ChangedRange(s.previousLines, lines).first;
    Synced(s, t) && NonEmpty(lines) && s.previousLines != [] && t.top <= first < |lines|
  }

  /** The scroll branch is never taken: the row moved to is always on the screen. */
  lemma {:induction false} NeverScrolls(s: Tui, t: Term, lines: seq<Line>)
    requires Diffs(s, t, lines)
    ensures t.top <= MoveTarget(s, lines) < t.top + t.height
    ensures ScrollOps(s, MoveTarget(s, lines), t.height) == []
    ensures !AppendStart(s, lines) ==>
      MoveTarget(s, lines) == ChangedRange(s.previousLines, lines).first < |s.previousLines|
  {
    hide Cells;
    RangeFacts(s.previousLines, lines);
  }

  /** `u` has its cursor at the start of row `y`, with a blank row scrolled in if `y` was just below. */
  ghost predicate StartsAt(t: Term, y: nat, u: Term) {
    && u.Valid() && u.cy == y && u.cx == 0 && u.width == t.width && u.height == t.height
    && u.top == Max(t.top, y - t.height + 1)
    && (forall j :: 0 <= j < |u.rows| ==> u.rows[j] == if j < |t.rows| then t.rows[j] else [])
  }

  lemma {:induction false} ApproachStarts(s: Tui, t: Term, lines: seq<Line>)
    requires Diffs(s, t, lines)
    ensures StartsAt(t, ChangedRange(s.previousLines, lines).first, Run(t, ApproachOps(s, lines, t.height)))
  {
    hide Run, Cells, ChangedRange;
    NeverScrolls(s, t, lines);
    var target := MoveTarget(s, lines);
    var move := Move(s.hardwareCursorRow, target);
    if AppendStart(s, lines) {
      assert ApproachOps(s, lines, t.height) == move + NEWLINE;
      RunConcat(t, move, NEWLINE);
      RunMove(t, target);
      RunTwo(Run(t, move), CarriageReturn, LineFeed);
    } else {
      assert ApproachOps(s, lines, t.height) == move + [CarriageReturn];
      ApproachRow(t, target);
    }
  }

  /** After the repaint every row of the new frame is right; rows of deleted lines are still there. */
  lemma {:induction false} RepaintRows(s: Tui, t: Term, lines: seq<Line>, w: Term, u: Term)
    requires Diffs(s, t, lines)
    requires StartsAt(t, ChangedRange(s.previousLines, lines).first, w)
    requires 0 <= ChangedRange(s.previousLines, lines).first <= RenderEnd(s, lines) < |lines|
    requires Painted(w, lines[ChangedRange(s.previousLines, lines).first..RenderEnd(s, lines) + 1], u)
    ensures u.cy == RenderEnd(s, lines) && u.top == Max(t.top, u.cy - t.height + 1)
    ensures Max(|lines|, |s.previousLines|) <= |u.rows|
    ensures forall j :: 0 <= j < |lines| ==> u.rows[j] == Cells(lines[j])
    ensures forall j :: Max(|lines|, |s.previousLines|) <= j < |u.rows| ==> u.rows[j] == []
  {
    hide Cells;
    RangeFacts(s.previousLines, lines);
    hide ChangedRange;
    var first := ChangedRange(s.previousLines, lines).first;
    var part := lines[first..RenderEnd(s, lines) + 1];
    forall j | 0 <= j < |u.rows|
      ensures j < |lines| ==> u.rows[j] == Cells(lines[j])
      ensures Max(|lines|, |s.previousLines|) <= j ==> u.rows[j] == []
    {
      assert u.rows[j] == RowAfter(w.rows, w.cy, part, j);
    }
  }

  lemma {:induction false} AfterDiffFacts(s: Tui, t: Term, lines: seq<Line>)
    requires Diffs(s, t, lines)
    ensures var s' := AfterDiff(s, lines, t.height); var end := RenderEnd(s, lines);
      && s'.hardwareCursorRow == end && s'.previousViewportTop == Max(t.top, end - t.height + 1) < |lines|
      && end < |lines| && (|lines| != |s.previousLines| ==> end == |lines| - 1)
  {
    hide Cells;
    RangeFacts(s.previousLines, lines);
    NeverScrolls(s, t, lines);
    hide ChangedRange, MoveTarget;
  }

  /** Rows of lines that disappeared are blanked and the cursor ends on the last line. */
  lemma {:induction false} TrimEffect(s: Tui, lines: seq<Line>, u: Term)
    requires u.Valid() && lines != [] && u.cy == RenderEnd(s, lines) < |lines|
    requires Max(|lines|, |s.previousLines|) <= |u.rows|
    requires |s.previousLines| > |lines| ==> u.cy == |lines| - 1
    ensures var v := Run(u, TrimOps(s, lines));
      && v.top == u.top && |v.rows| == |u.rows| && v.cy == u.cy
      && (forall j :: 0 <= j < |u.rows| ==> v.rows[j] == if |lines| <= j < |s.previousLines| then [] else u.rows[j])
  {
    hide Run, ChangedRange, EraseBelow;
    RunNothing(u);
    if |s.previousLines| > |lines| {
      var extra := |s.previousLines| - |lines|;
      assert TrimOps(s, lines) == EraseBelow(extra) + [Up(extra)];
      RunConcat(u, EraseBelow(extra), [Up(extra)]);
      EraseBelowEffect(u, extra);
      RunOne(Run(u, EraseBelow(extra)), Up(extra));
    }
  }

  lemma {:induction false} TrimDraws(s: Tui, t: Term, lines: seq<Line>, u: Term)
    requires Diffs(s, t, lines) && u.Valid() && u.height == t.height
    requires u.cy == RenderEnd(s, lines) && u.top == Max(t.top, u.cy - t.height + 1)
    requires Max(|lines|, |s.previousLines|) <= |u.rows|
    requires forall j :: 0 <= j < |lines| ==> u.rows[j] == Cells(lines[j])
    requires forall j :: Max(|lines|, |s.previousLines|) <= j < |u.rows| ==> u.rows[j] == []
    ensures Drawn(AfterDiff(s, lines, t.height), lines, Run(u, TrimOps(s, lines)))
  {
    hide Run, Cells, AfterDiff, TrimOps;
    AfterDiffFacts(s, t, lines);
    TrimEffect(s, lines, u);
  }

  lemma {:induction false} RepaintDraws(s: Tui, t: Term, lines: seq<Line>, part: seq<Line>)
    requires Diffs(s, t, lines) && Fits(lines, t.width)
    requires 0 <= ChangedRange(s.previousLines, lines).first <= RenderEnd(s, lines) < |lines|
    requires part == lines[ChangedRange(s.previousLines, lines).first..RenderEnd(s, lines) + 1]
    ensures Drawn(AfterDiff(s, lines, t.height), lines,
                  Run(t, ApproachOps(s, lines, t.height) + (Paint(part, true) + TrimOps(s, lines))))
  {
    hide Run, Cells, Paint, ApproachOps, TrimOps, AfterDiff, ChangedRange;
    var approach, paint, trim := ApproachOps(s, lines, t.height), Paint(part, true), TrimOps(s, lines);
    RunConcat(t, approach, paint + trim);
    ApproachStarts(s, t, lines);
    var w := Run(t, approach);
    RunConcat(w, paint, trim);
    PaintPaints(w, part, true);
    RepaintRows(s, t, lines, w, Run(w, paint));
    TrimDraws(s, t, lines, Run(w, paint));
  }

  /** The differential path turns the screen of the old frame into that of the new one. */
  lemma {:induction false} DiffDraws(s: Tui, t: Term, lines: seq<Line>)
    requires Diffs(s, t, lines) && Fits(lines, t.width)
    ensures Drawn(AfterDiff(s, lines, t.height), lines, Run(t, DiffOps(s, lines, t.height)))
  {
    hide Run, Cells, Paint, ApproachOps, TrimOps, DeleteChanged, AfterDiff, ChangedRange;
    RangeFacts(s.previousLines, lines);
    var r := ChangedRange(s.previousLines, lines);
    var part := lines[r.first..RenderEnd(s, lines) + 1];
    var deletes := DeleteChanged(s.previousLines, r.first, r.last);
    var rest := ApproachOps(s, lines, t.height) + (Paint(part, true) + TrimOps(s, lines));
    assert DiffOps(s, lines, t.height) == deletes + rest;
    DeletesKeep(t, s.previousLines, r.first, r.last, rest);
    var v: Term :| SameScreen(t, v) && Run(t, deletes + rest) == Run(v, rest);
    RepaintDraws(s, v, lines, part);
  }

  // ----- One render

  /** Where the chosen path leaves the terminal before the cursor is positioned. */
  lemma {:induction false} SynchronisedStep(s: Tui, t: Term, p: Prepared, overlays: bool)
    requires Synced(s, t) && !SizeChanged(s, t.width, t.height) && s.previousLines != []
    requires NonEmpty(p.lines) && Fits(p.lines, t.width)
    requires p.cursor.Some? ==> Max(0, |p.lines| - t.height) <= p.cursor.value.row < |p.lines|
    ensures match ChoosePath(s, p.lines, t.width, t.height, overlays)
      case Unchanged => p.lines == s.previousLines
      case DeleteOnly =>
        |p.lines| < |s.previousLines| && p.lines == s.previousLines[..|p.lines|] && Max(0, |p.lines| - 1) >= t.top
      case Differential => Diffs(s, t, p.lines)
      case Overlong => false
      case FirstPaint => false
      case Clear => true
  {
    hide Cells, ChangedRange;
    RangeFacts(s.previousLines, p.lines);
  }

  lemma {:induction false} UnchangedStep(s: Tui, t: Term, p: Prepared)
    requires Synced(s, t) && p.lines == s.previousLines != []
    requires s.previousWidth == t.width && s.previousHeight == t.height
    requires p.cursor.Some? ==> p.cursor.value.row < |p.lines|
    ensures var o := PositionCursor(s, p.cursor, |p.lines|);
      Synced(o.tui.(previousHeight := t.height), Run(t, o.ops))
      <==> (p.cursor.Some? ==> p.cursor.value.row >= s.previousViewportTop)
  {
    hide Run, Cells;
    PositionFacts(s, t, p.cursor, |p.lines|);
  }

  /** The viewport after a differential render is above the marker exactly when it was before. */
  lemma {:induction false} DiffCursor(s: Tui, t: Term, p: Prepared)
    requires Diffs(s, t, p.lines) && Fits(p.lines, t.width)
    requires p.cursor.Some? ==> Max(0, |p.lines| - t.height) <= p.cursor.value.row < |p.lines|
    ensures var o := DiffRender(s, p, t.width, t.height);
      Synced(o.tui, Run(t, o.ops)) <==> (p.cursor.Some? ==> p.cursor.value.row >= s.previousViewportTop)
  {
    hide Run, Cells, DiffOps, AfterDiff, ChangedRange;
    DiffDraws(s, t, p.lines);
    AfterDiffFacts(s, t, p.lines);
    assert !AfterDiff(s, p.lines, t.height).stopped by { AfterDiffRuns(s, p.lines, t.height); }
    FinishFacts(AfterDiff(s, p.lines, t.height), t, p, DiffOps(s, p.lines, t.height));
  }

  lemma {:induction false} AfterDiffRuns(s: Tui, lines: seq<Line>, height: nat)
    ensures AfterDiff(s, lines, height).stopped == s.stopped
  {
  }

  lemma {:induction false} DeleteOnlyStep(s: Tui, t: Term, p: Prepared)
    requires Synced(s, t) && NonEmpty(p.lines) && |p.lines| < |s.previousLines|
    requires p.lines == s.previousLines[..|p.lines|] && Max(0, |p.lines| - 1) >= t.top
    requires p.cursor.Some? ==> p.cursor.value.row < |p.lines|
    ensures var o := Finish(s.(hardwareCursorRow := Max(0, |p.lines| - 1)), p, DeleteOnlyOps(s, p.lines), t.width,
      t.height);
      Synced(o.tui, Run(t, o.ops)) <==> Reachable(s, p, t.height, DeleteOnly)
  {
    hide Run, Cells, DeleteOnlyOps;
    var s' := s.(hardwareCursorRow := Max(0, |p.lines| - 1));
    DeleteOnlyDraws(s, t, p.lines);
    if Drawn(s', p.lines, Run(t, DeleteOnlyOps(s, p.lines))) {
      FinishFacts(s', t, p, DeleteOnlyOps(s, p.lines));
    } else {
      // Positioning does nothing for an empty frame, so the stale row stays.
      assert p.lines == [];
      EmptyFinish(s', t, p, DeleteOnlyOps(s, p.lines));
    }
  }

  lemma {:induction false} EmptyFinish(s: Tui, t: Term, p: Prepared, ops: seq<Op>)
    requires t.Valid() && p.lines == []
    ensures var o := Finish(s, p, ops, t.width, t.height);
      Synced(o.tui, Run(t, o.ops)) ==> Drawn(s, [], Run(t, ops))
  {
    assert ops + [] == ops;
  }

  lemma {:induction false} SyncedRender(s: Tui, t: Term, frame: seq<Line>, overlays: bool, p: Prepared)
    requires Synced(s, t) && !SizeChanged(s, t.width, t.height) && s.previousLines != []
    requires p == Prepare(frame, t.height) && NonEmpty(p.lines) && Fits(p.lines, t.width)
    requires p.cursor.Some? ==> Max(0, |p.lines| - t.height) <= p.cursor.value.row < |p.lines|
    ensures var o := DoRender(s, frame, t.width, t.height, overlays);
      Synced(o.tui, Run(t, o.ops)) <==> StepOk(s, frame, t.width, t.height, overlays)
  {
    hide Run, Cells, Prepare, ChoosePath, ChangedRange, FullRender, DiffRender, Finish, DeleteOnlyOps;
    SynchronisedStep(s, t, p, overlays);
    match ChoosePath(s, p.lines, t.width, t.height, overlays)
    case Clear => FullDraws(s, t, true, p);
    case Unchanged => UnchangedStep(s, t, p);
    case DeleteOnly => DeleteOnlyStep(s, t, p);
    case Differential => DiffCursor(s, t, p);
    case _ =>
  }

  /** The step theorem: after a render the terminal shows exactly the new frame and the record agrees
      with it if and only if the side condition of the chosen path held. */
  lemma {:induction false} RenderStep(s: Tui, t: Term, frame: seq<Line>, overlays: bool)
    requires Ready(s, t) && Fits(frame, t.width)
    ensures var o := DoRender(s, frame, t.width, t.height, overlays);
      Synced(o.tui, Run(t, o.ops)) <==> StepOk(s, frame, t.width, t.height, overlays)
  {
    hide Run, Cells;
    PrepareFacts(frame, t.height);
    hide Prepare, FullRender;
    var p := Prepare(frame, t.height);
    PaintFits(frame, p.lines, t.width);
    if SizeChanged(s, t.width, t.height) {
      FullDraws(s, t, true, p);
    } else if s.previousLines == [] {
      FullDraws(s, t, false, p);
    } else {
      SyncedRender(s, t, frame, overlays, p);
    }
  }
}
