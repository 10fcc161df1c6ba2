/** The renderer as the object it is: fields updated in place and buffers grown in loops, proved to
    compute the step that the run theorems are about. */
module TuiObject {
  import opened Basics
  import opened Terminal
  import opened Renderer
  import RendererProofs

  method ExtractCursorPosition(lines: seq<Line>, height: nat) returns (p: Prepared)
    ensures p == ExtractCursor(lines, height)
  {
    var viewportTop := Max(0, |lines| - height);
    var row := |lines| - 1;
    while row >= viewportTop
      invariant viewportTop - 1 <= row < |lines|
      invariant MarkerRow(lines, viewportTop, |lines|) == MarkerRow(lines, viewportTop, row + 1)
    {
      if Marker in lines[row] {
        var i := MarkerIndex(lines[row]);
        return Prepared(Some(Position(row, |Cells(lines[row][..i])|)),
            lines[row := lines[row][..i] + lines[row][i + 1..]]);
      }
      row := row - 1;
    }
    p := Prepared(None, lines);
  }

  method ApplyLineResets(lines: seq<Line>) returns (r: seq<Line>)
    ensures r == seq(|lines|, i requires 0 <= i < |lines| => WithReset(lines[i]))
  {
    r := [];
    for i := 0 to |lines|
      invariant |r| == i && forall k :: 0 <= k < i ==> r[k] == WithReset(lines[k])
    {
      r := r + [WithReset(lines[i])];
    }
  }

  method CollectKittyImageIds(lines: seq<Line>) returns (ids: seq<nat>)
    ensures ids == CollectIds(lines)
  {
    ids := [];
    for i := 0 to |lines|
      invariant ids == CollectIds(lines[..i])
    {
      assert lines[..i + 1][..i] == lines[..i];
      var own := KittyIds(lines[i]);
      if own != [] && own[0] !in ids {
        ids := ids + [own[0]];
      }
    }
    assert lines[..|lines|] == lines;
  }

  method DeleteKittyImages(ids: seq<nat>) returns (ops: seq<Op>)
    ensures ops == Deletes(ids)
  {
    ops := [];
    for i := 0 to |ids|
      invariant |ops| == i && forall k :: 0 <= k < i ==> ops[k] == DeleteImage(ids[k])
    {
      ops := ops + [DeleteImage(ids[i])];
    }
  }

  /** The comparison loop with the adjustments for appended lines and images. */
  method FindChangedRange(previous: seq<Line>, lines: seq<Line>) returns (r: Range)
    ensures r == ChangedRange(previous, lines)
  {
    var firstChanged, lastChanged := -1, -1;
    var maxLines := Max(|previous|, |lines|);
    for i := 0 to maxLines
      invariant lastChanged == LastDiff(previous, lines, i)
      invariant firstChanged == -1 ==> FirstDiff(previous, lines, 0) == FirstDiff(previous, lines, i)
      invariant firstChanged != -1 ==> firstChanged == FirstDiff(previous, lines, 0)
    {
      if LineAt(previous, i) != LineAt(lines, i) {
        if firstChanged == -1 {
          firstChanged := i;
        }
        lastChanged := i;
      }
    }
    if |lines| > |previous| {
      if firstChanged == -1 {
        firstChanged := |previous|;
      }
      lastChanged := |lines| - 1;
    }
    if firstChanged != -1 {
      lastChanged := ExpandLastChanged(previous, firstChanged, lastChanged);
    }
    r := Range(firstChanged, lastChanged);
  }

  method ExpandLastChanged(lines: seq<Line>, first: nat, last: int) returns (r: int)
    ensures r == ExpandLast(lines, first, last)
  {
    r := last;
    var i := first;
    while i < |lines|
      invariant first <= i
      invariant first <= |lines| ==> i <= |lines|
      invariant if i <= |lines| then r == ExpandLast(lines[..i], first, last) else r == last
    {
      assert lines[..i + 1][..i] == lines[..i];
      if KittyIds(lines[i]) != [] {
        r := Max(r, i);
        ExpandBelow(lines[..i], first, last);
      }
      i := i + 1;
    }
    if first <= |lines| {
      assert lines[..|lines|] == lines;
    } else {
      assert r == last;
    }
  }

  lemma {:induction false} ExpandBelow(lines: seq<Line>, first: nat, last: int)
    ensures ExpandLast(lines, first, last) <= Max(last, |lines| - 1)
    decreases |lines|
  {
    if |lines| > first && KittyIds(lines[|lines| - 1]) == [] {
      ExpandBelow(lines[..|lines| - 1], first, last);
    }
  }

  method DeleteChangedKittyImages(lines: seq<Line>, first: nat, last: int) returns (ops: seq<Op>)
    requires first <= |lines|
    ensures ops == DeleteChanged(lines, first, last)
  {
    if last < first {
      return [];
    }
    var ids := CollectKittyImageIds(lines[first..Max(first, Min(last + 1, |lines|))]);
    ops := DeleteKittyImages(ids);
  }

  /** Prints lines one below the other. */
  method PrintLines(lines: seq<Line>) returns (buffer: seq<Op>)
    ensures buffer == Paint(lines, false)
  {
    buffer := [];
    for i := 0 to |lines|
      invariant buffer == Paint(lines[..i], false)
    {
      assert lines[..i + 1][..i] == lines[..i];
      if i > 0 {
        buffer := buffer + NEWLINE;
      }
      assert [] + DrawLine(lines[i]) == DrawLine(lines[i]);
      buffer := buffer + DrawLine(lines[i]);
    }
    assert lines[..|lines|] == lines;
  }

  method ClearExtraRows(extra: nat) returns (buffer: seq<Op>)
    ensures buffer == ClearRows(extra, extra)
  {
    buffer := [];
    for i := 0 to extra
      invariant buffer == ClearRows(i, extra)
    {
      buffer := buffer + [CarriageReturn, EraseLine];
      if i < extra - 1 {
        buffer := buffer + [Down(1)];
      }
    }
  }

  class TUI {
    var previousLines: seq<Line>
    var previousKittyImageIds: seq<nat>
    var previousWidth: int
    var previousHeight: int
    var hardwareCursorRow: nat
    var maxLinesRendered: nat
    var previousViewportTop: nat
    var clearOnShrink: bool
    var stopped: bool

    /** The record the specification speaks of. */
    function State(): Tui
      reads this
    {
      Tui(previousLines, previousKittyImageIds, previousWidth, previousHeight, hardwareCursorRow, maxLinesRendered,
          previousViewportTop, clearOnShrink, stopped)
    }

    /** Rendered lines end in a reset, so none of them is empty. */
    ghost predicate Valid()
      reads this
    {
      RendererProofs.NonEmpty(previousLines)
    }

    constructor (clear: bool)
      ensures Valid()
      ensures State() == Tui([], [], 0, 0, 0, 0, 0, clear, false)
    {
      previousLines, previousKittyImageIds := [], [];
      previousWidth, previousHeight := 0, 0;
      hardwareCursorRow, maxLinesRendered, previousViewportTop := 0, 0, 0;
      clearOnShrink, stopped := clear, false;
    }

    /** The part of a forced request that precedes the render. */
    method ForgetEverything()
      modifies this
      ensures Valid() && State() == Force(old(State()))
    {
      previousLines := [];
      previousWidth, previousHeight := -1, -1;
      hardwareCursorRow, maxLinesRendered, previousViewportTop := 0, 0, 0;
    }

    method PositionHardwareCursor(cursor: Option<Position>, totalLines: nat) returns (buffer: seq<Op>)
      modifies this`hardwareCursorRow
      ensures var o := PositionCursor(old(State()), cursor, totalLines); State() == o.tui && buffer == o.ops
    {
      buffer := [];
      if cursor.None? || totalLines == 0 {
        return;
      }
      var targetRow := Max(0, Min(cursor.value.row, totalLines - 1));
      var rowDelta := targetRow - hardwareCursorRow;
      if rowDelta > 0 {
        buffer := buffer + [Down(rowDelta)];
      } else if rowDelta < 0 {
        buffer := buffer + [Up(-rowDelta)];
      }
      buffer := buffer + [Column(cursor.value.col)];
      hardwareCursorRow := targetRow;
    }

    /** What every path that wrote a frame does last. */
    method Remember(p: Prepared, ops: seq<Op>, width: nat, height: nat) returns (written: seq<Op>)
      modifies this
      ensures var o := Finish(old(State()), p, ops, width, height); State() == o.tui && written == o.ops
      ensures previousLines == p.lines
    {
      var cursorOps := PositionHardwareCursor(p.cursor, |p.lines|);
      previousLines := p.lines;
      previousKittyImageIds := CollectKittyImageIds(p.lines);
      previousWidth, previousHeight := width, height;
      written := ops + cursorOps;
    }

    method FullRender(clear: bool, p: Prepared, width: nat, height: nat) returns (written: seq<Op>)
      modifies this
      ensures var o := Renderer.FullRender(old(State()), clear, p, width, height); State() == o.tui && written == o.ops
      ensures previousLines == p.lines
    {
      var buffer: seq<Op> := [];
      if clear {
        buffer := DeleteKittyImages(previousKittyImageIds);
        buffer := buffer + CLEAR_ALL;
      }
      var body := PrintLines(p.lines);
      buffer := buffer + body;
      hardwareCursorRow := Max(0, |p.lines| - 1);
      if clear {
        maxLinesRendered := |p.lines|;
      } else {
        maxLinesRendered := Max(maxLinesRendered, |p.lines|);
      }
      previousViewportTop := Max(0, Max(height, |p.lines|) - height);
      written := Remember(p, buffer, width, height);
    }

    method DeleteTrailing(p: Prepared, r: Range, width: nat, height: nat) returns (written: seq<Op>)
      requires r == ChangedRange(previousLines, p.lines) && 0 <= r.first <= |previousLines|
        && |p.lines| < |previousLines|
      modifies this
      ensures var s := old(State());
        var o := Finish(s.(hardwareCursorRow := Max(0, |p.lines| - 1)), p, DeleteOnlyOps(s, p.lines), width, height);
        State() == o.tui && written == o.ops
      ensures previousLines == p.lines
    {
      hide Finish, ChangedRange, DeleteChanged, ClearRows;
      ghost var s := State();
      var targetRow := Max(0, |p.lines| - 1);
      var buffer := DeleteChangedKittyImages(previousLines, r.first, r.last);
      buffer := buffer + (Move(hardwareCursorRow, targetRow) + [CarriageReturn]);
      var extraLines := |previousLines| - |p.lines|;
      var rows := ClearExtraRows(extraLines);
      buffer := buffer + ([Down(1)] + rows + [Up(extraLines)]);
      assert buffer == DeleteOnlyOps(s, p.lines);
      hardwareCursorRow := targetRow;
      written := Remember(p, buffer, width, height);
    }

    /** Repaints `lines[first..end]`, or reports the first line that does not fit. */
    method Repaint(lines: seq<Line>, first: nat, end: int, width: nat) returns (buffer: seq<Op>, overlong: bool)
      requires first <= end < |lines|
      ensures overlong <==> exists i :: first <= i <= end && TooWide(lines[i], width)
      ensures !overlong ==> buffer == Paint(lines[first..end + 1], true)
    {
      buffer, overlong := [], false;
      var part := lines[first..end + 1];
      for i := 0 to |part|
        invariant buffer == Paint(part[..i], true)
        invariant forall k :: 0 <= k < i ==> !TooWide(part[k], width)
      {
        assert part[..i + 1][..i] == part[..i];
        if i > 0 {
          buffer := buffer + NEWLINE;
        }
        if TooWide(part[i], width) {
          assert part[i] == lines[first + i];
          return buffer, true;
        }
        buffer := buffer + ([EraseLine] + DrawLine(part[i]));
      }
      assert part[..|part|] == part;
      forall i | first <= i <= end ensures !TooWide(lines[i], width) {
        assert lines[i] == part[i - first];
      }
    }

    method ClearBelow(extra: nat) returns (buffer: seq<Op>)
      ensures buffer == EraseBelow(extra)
    {
      buffer := [];
      for i := 0 to extra
        invariant buffer == EraseBelow(i)
      {
        buffer := buffer + (NEWLINE + [EraseLine]);
      }
    }

    /** Moves that bring the cursor to the first line to be written, scrolling if it is below. */
    method Approach(lines: seq<Line>, firstChanged: nat, height: nat) returns (buffer: seq<Op>, top: nat)
      requires firstChanged == ChangedRange(previousLines, lines).first && height >= 1
      ensures buffer == ApproachOps(State(), lines, height)
      ensures var bottom := previousViewportTop + height - 1; var target := MoveTarget(State(), lines);
        top == if target > bottom then previousViewportTop + (target - bottom) else previousViewportTop
    {
      hide ChangedRange;
      var appendStart := |lines| > |previousLines| && firstChanged == |previousLines| > 0;
      var moveTargetRow := if appendStart then firstChanged - 1 else firstChanged;
      var bottom := previousViewportTop + height - 1;
      var cursor := hardwareCursorRow;
      buffer, top := [], previousViewportTop;
      if moveTargetRow > bottom {
        var currentScreenRow := Max(0, Min(height - 1, hardwareCursorRow - previousViewportTop));
        var moveToBottom := height - 1 - currentScreenRow;
        if moveToBottom > 0 {
          buffer := [Down(moveToBottom)];
        }
        var scroll := moveTargetRow - bottom;
        buffer := buffer + Repeat(NEWLINE, scroll);
        top := top + scroll;
        cursor := moveTargetRow;
      }
      var lineDiff := (moveTargetRow - top) - (cursor - top);
      var tail: seq<Op> := [];
      if lineDiff > 0 {
        tail := [Down(lineDiff)];
      } else if lineDiff < 0 {
        tail := [Up(-lineDiff)];
      }
      tail := tail + (if appendStart then NEWLINE else [CarriageReturn]);
      buffer := buffer + tail;
    }

    method DoRender(frame: seq<Line>, width: nat, height: nat, overlays: bool) returns (written: seq<Op>)
      requires Valid() && height >= 1
      modifies this
      ensures var o := Renderer.DoRender(old(State()), frame, width, height, overlays);
        State() == o.tui && written == o.ops
      ensures Valid()
    {
      hide RenderPrepared, ExtractCursor, Cells;
      if stopped {
        return [];
      }
      RendererProofs.PrepareFacts(frame, height);
      var p := ExtractCursorPosition(frame, height);
      var lines := ApplyLineResets(p.lines);
      assert lines == Prepare(frame, height).lines;
      written := RenderFrame(Prepared(p.cursor, lines), width, height, overlays);
    }

    method RenderFrame(p: Prepared, width: nat, height: nat, overlays: bool) returns (written: seq<Op>)
      requires Valid() && height >= 1 && RendererProofs.NonEmpty(p.lines)
      modifies this
      ensures var o := RenderPrepared(old(State()), p, width, height, overlays); State() == o.tui && written == o.ops
      ensures Valid()
    {
      hide Cells, Renderer.FullRender, DeleteOnlyOps, DiffRender, ChangedRange;
      var lines := p.lines;
      var widthChanged := previousWidth != 0 && previousWidth != width;
      var heightChanged := previousHeight != 0 && previousHeight != height;
      if |previousLines| == 0 && !widthChanged && !heightChanged {
        written := FullRender(false, p, width, height);
        return;
      }
      if widthChanged || heightChanged || (clearOnShrink && |lines| < maxLinesRendered && !overlays) {
        written := FullRender(true, p, width, height);
        return;
      }
      written := RenderDifference(p, width, height, overlays);
    }

    method RenderDifference(p: Prepared, width: nat, height: nat, overlays: bool) returns (written: seq<Op>)
      requires Valid() && height >= 1 && RendererProofs.NonEmpty(p.lines)
      requires previousLines != [] && !SizeChanged(State(), width, height)
      requires !(clearOnShrink && |p.lines| < maxLinesRendered && !overlays)
      modifies this
      ensures var o := RenderPrepared(old(State()), p, width, height, overlays); State() == o.tui && written == o.ops
      ensures Valid()
    {
      hide Finish, ChangedRange, Cells, Renderer.FullRender, DeleteOnlyOps, DiffRender;
      var lines := p.lines;
      RendererProofs.RangeFacts(previousLines, lines);
      var r := FindChangedRange(previousLines, lines);
      if r.first == -1 {
        written := PositionHardwareCursor(p.cursor, |lines|);
        previousHeight := height;
      } else if r.first >= |lines| {
        if Max(0, |lines| - 1) < previousViewportTop || |previousLines| - |lines| > height {
          written := FullRender(true, p, width, height);
        } else {
          written := DeleteTrailing(p, r, width, height);
        }
      } else if r.first < previousViewportTop {
        written := FullRender(true, p, width, height);
      } else {
        written := RenderChanges(p, r, width, height);
      }
    }

    /** Grows the output buffer of a differential render; `overlong` reports a line that does not fit. */
    method BuildChanges(lines: seq<Line>, r: Range, width: nat, height: nat)
      returns (buffer: seq<Op>, top: nat, finalCursorRow: int, overlong: bool)
      requires height >= 1 && r == ChangedRange(previousLines, lines)
      requires 0 <= r.first < |lines| && r.first <= r.last && r.first <= |previousLines|
      ensures overlong <==> exists i :: r.first <= i <= Min(r.last, |lines| - 1) && TooWide(lines[i], width)
      ensures !overlong ==> buffer == DiffOps(State(), lines, height)
      ensures var bottom := previousViewportTop + height - 1; var target := MoveTarget(State(), lines);
        top == if target > bottom then previousViewportTop + (target - bottom) else previousViewportTop
      ensures var end := RenderEnd(State(), lines);
        !overlong ==> finalCursorRow == if |previousLines| > |lines| then Max(end, |lines| - 1) else end
    {
      hide ChangedRange, ApproachOps, DeleteChanged, Paint, EraseBelow, MoveTarget, TooWide;
      buffer := DeleteChangedKittyImages(previousLines, r.first, r.last);
      var moves: seq<Op>, body: seq<Op>;
      moves, top := Approach(lines, r.first, height);
      var renderEnd := Min(r.last, |lines| - 1);
      body, overlong := Repaint(lines, r.first, renderEnd, width);
      buffer := buffer + moves + body;
      finalCursorRow := renderEnd;
      if |previousLines| > |lines| {
        var tail: seq<Op> := [];
        if renderEnd < |lines| - 1 {
          tail := [Down(|lines| - 1 - renderEnd)];
          finalCursorRow := |lines| - 1;
        }
        var extraLines := |previousLines| - |lines|;
        var erased := ClearBelow(extraLines);
        buffer := buffer + (tail + erased + [Up(extraLines)]);
      }
    }

    method RenderChanges(p: Prepared, r: Range, width: nat, height: nat) returns (written: seq<Op>)
      requires height >= 1 && r == ChangedRange(previousLines, p.lines)
      requires 0 <= r.first < |p.lines| && r.first <= r.last && r.first <= |previousLines|
      modifies this
      ensures var s := old(State());
        if exists i :: r.first <= i <= Min(r.last, |p.lines| - 1) && TooWide(p.lines[i], width)
        then State() == s.(stopped := true) && written == []
        else var o := DiffRender(s, p, width, height); State() == o.tui && written == o.ops
      ensures previousLines == p.lines || previousLines == old(previousLines)
    {
      hide Finish, ChangedRange, DiffOps, MoveTarget, TooWide;
      var buffer, top, finalCursorRow, overlong := BuildChanges(p.lines, r, width, height);
      if overlong {
        stopped := true;
        return [];
      }
      hardwareCursorRow := Max(0, finalCursorRow);
      maxLinesRendered := Max(maxLinesRendered, |p.lines|);
      previousViewportTop := Max(top, finalCursorRow - height + 1);
      written := Remember(p, buffer, width, height);
    }
  }
}
