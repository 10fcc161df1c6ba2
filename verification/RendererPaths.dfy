/** What a render writes, said of the old and the new lines only: when it wipes everything, and which
    lines it draws otherwise. */
module RendererPaths {
  import opened Basics
  import opened Terminal
  import opened Renderer
  import opened RendererProofs
  import opened RendererRuns

  // ----- What is in a sequence of operations

  /** Everything drawn, in order. */
  function Items(ops: seq<Op>): Line {
    if ops == [] then [] else (if ops[0].Draw? then [ops[0].item] else []) + Items(ops[1..])
  }

  /** Lines one after the other. */
  function Joined(lines: seq<Line>): Line {
    if lines == [] then [] else Joined(lines[..|lines| - 1]) + lines[|lines| - 1]
  }

  lemma {:induction false} ItemsConcat(a: seq<Op>, b: seq<Op>)
    ensures Items(a + b) == Items(a) + Items(b)
    decreases |a|
  {
    if a == [] {
      assert a + b == b;
    } else {
      assert (a + b)[0] == a[0] && (a + b)[1..] == a[1..] + b;
      ItemsConcat(a[1..], b);
    }
  }

  predicate Silent(ops: seq<Op>) { forall op :: op in ops ==> !op.Draw? }

  lemma {:induction false} SilentItems(ops: seq<Op>)
    requires Silent(ops)
    ensures Items(ops) == []
    decreases |ops|
  {
    if ops != [] {
      assert ops[0] in ops;
      SilentItems(ops[1..]);
    }
  }

  lemma {:induction false} LineItems(line: Line)
    ensures Items(DrawLine(line)) == line
    decreases |line|
  {
    if line != [] {
      assert DrawLine(line)[1..] == DrawLine(line[1..]);
      LineItems(line[1..]);
    }
  }

  lemma {:induction false} PaintItems(lines: seq<Line>, erase: bool)
    ensures Items(Paint(lines, erase)) == Joined(lines)
    decreases |lines|
  {
    hide Items;
    if lines == [] {
      SilentItems([]);
    } else {
      var k := |lines| - 1;
      var sep: seq<Op> := if k > 0 then NEWLINE else [];
      var e: seq<Op> := if erase then [EraseLine] else [];
      PaintItems(lines[..k], erase);
      SilentItems(sep);
      SilentItems(e);
      LineItems(lines[k]);
      ItemsConcat(Paint(lines[..k], erase), sep);
      ItemsConcat(e, DrawLine(lines[k]));
      ItemsConcat(Paint(lines[..k], erase) + sep, e + DrawLine(lines[k]));
    }
  }

  lemma {:induction false} RepeatSilent(n: nat)
    ensures Silent(Repeat(NEWLINE, n))
  {
    if n > 0 { RepeatSilent(n - 1); }
  }

  lemma {:induction false} EraseBelowSilent(k: nat)
    ensures Silent(EraseBelow(k))
  {
    if k > 0 { EraseBelowSilent(k - 1); }
  }

  lemma {:induction false} ClearRowsSilent(k: nat, total: nat)
    ensures Silent(ClearRows(k, total))
  {
    if k > 0 { ClearRowsSilent(k - 1, total); }
  }

  lemma {:induction false} ApproachSilent(s: Tui, lines: seq<Line>, height: nat)
    ensures Silent(ApproachOps(s, lines, height))
  {
    hide ChangedRange;
    var target := MoveTarget(s, lines);
    var bottom := s.previousViewportTop + height - 1;
    if target > bottom { RepeatSilent(target - bottom); }
  }

  lemma {:induction false} TrimSilent(s: Tui, lines: seq<Line>)
    ensures Silent(TrimOps(s, lines))
  {
    hide ChangedRange;
    if |s.previousLines| > |lines| { EraseBelowSilent(|s.previousLines| - |lines|); }
  }

  lemma {:induction false} DeleteOnlyItems(s: Tui, lines: seq<Line>)
    requires |lines| <= |s.previousLines|
    ensures Items(DeleteOnlyOps(s, lines)) == []
  {
    hide ChangedRange;
    ClearRowsSilent(|s.previousLines| - |lines|, |s.previousLines| - |lines|);
    SilentItems(DeleteOnlyOps(s, lines));
  }

  lemma {:induction false} FullItems(s: Tui, clear: bool, lines: seq<Line>)
    ensures Items(FullOps(s, clear, lines)) == Joined(lines)
    ensures EraseScrollback in FullOps(s, clear, lines) <==> clear
  {
    hide Paint;
    var wipe: seq<Op> := if clear then Deletes(s.previousImages) + CLEAR_ALL else [];
    SilentItems(wipe);
    ItemsConcat(wipe, Paint(lines, false));
    PaintItems(lines, false);
    PaintSpares(lines, false);
    assert clear ==> CLEAR_ALL[2] in wipe;
  }

  lemma {:induction false} FinishItems(s: Tui, p: Prepared, ops: seq<Op>, width: nat, height: nat)
    ensures var o := Finish(s, p, ops, width, height);
      Items(o.ops) == Items(ops) && (EraseScrollback in o.ops <==> EraseScrollback in ops)
  {
    var end := PositionCursor(s, p.cursor, |p.lines|).ops;
    SilentItems(end);
    ItemsConcat(ops, end);
  }

  lemma {:induction false} DiffItems(s: Tui, lines: seq<Line>, height: nat)
    requires var r := ChangedRange(s.previousLines, lines); 0 <= r.first <= RenderEnd(s, lines) < |lines|
    ensures Items(DiffOps(s, lines, height))
         == Joined(lines[ChangedRange(s.previousLines, lines).first..RenderEnd(s, lines) + 1])
  {
    hide ApproachOps, TrimOps, Paint, ChangedRange, DeleteChanged, RenderEnd;
    var r := ChangedRange(s.previousLines, lines);
    var deletes := DeleteChanged(s.previousLines, r.first, r.last);
    var approach := ApproachOps(s, lines, height);
    var paint := Paint(lines[r.first..RenderEnd(s, lines) + 1], true);
    DeletesSilent(s.previousLines, r.first, r.last);
    ApproachSilent(s, lines, height);
    TrimSilent(s, lines);
    SilentItems(deletes + approach);
    SilentItems(TrimOps(s, lines));
    PaintItems(lines[r.first..RenderEnd(s, lines) + 1], true);
    ItemsConcat(deletes + approach, paint);
    ItemsConcat(deletes + approach + paint, TrimOps(s, lines));
  }

  lemma {:induction false} DeletesSilent(lines: seq<Line>, first: int, last: int)
    ensures Silent(DeleteChanged(lines, first, last))
  {
  }

  // ----- The changes between two frames, without any search

  /** Line `i` is in one frame only or differs between the two. */
  predicate Changed(a: seq<Line>, b: seq<Line>, i: nat) {
    i < Max(|a|, |b|) && (i >= |a| || i >= |b| || a[i] != b[i])
  }

  /** The first image of the line has an id that a delete command can name. */
  predicate NamesImage(line: Line) {
    exists k :: 0 <= k < |line| && line[k].Image? && 0 < line[k].id <= MAX_IMAGE_ID
      && forall j :: 0 <= j < k ==> !line[j].Image?
  }

  /** The lines from `first` to `last` are those to be drawn again: `first` is the first change, `last`
      the last change or the last image of the old frame below `first`, whichever comes later. */
  ghost predicate Spans(a: seq<Line>, b: seq<Line>, first: nat, last: nat) {
    && Changed(a, b, first) && (forall i :: 0 <= i < first ==> !Changed(a, b, i))
    && first <= last
    && (Changed(a, b, last) || (last < |a| && NamesImage(a[last])))
    && (forall i :: last < i < Max(|a|, |b|) ==> !Changed(a, b, i) && (i < |a| ==> !NamesImage(a[i])))
  }

  /** What the terminal shows cannot be mended in place: the size differs or a redraw was demanded,
      clear-on-shrink applies, a change has scrolled away, or too much was deleted. */
  ghost predicate Beyond(s: Tui, lines: seq<Line>, width: nat, height: nat, overlays: bool) {
    || (s.previousWidth != 0 && s.previousWidth != width)
    || (s.previousHeight != 0 && s.previousHeight != height)
    || (s.previousLines != [] &&
          (|| (s.clearOnShrink && |lines| < s.maxLinesRendered && !overlays)
           || (if lines < s.previousLines
               then Max(0, |lines| - 1) < s.previousViewportTop || |s.previousLines| - |lines| > height
               else exists i :: 0 <= i < s.previousViewportTop && Changed(s.previousLines, lines, i))))
  }

  lemma {:induction false} NamesFound(line: Line)
    ensures NamesImage(line) <==> KittyIds(line) != []
    decreases |line|
  {
    if line != [] && !line[0].Image? {
      NamesFound(line[1..]);
      if NamesImage(line[1..]) {
        var k :| 0 <= k < |line[1..]| && line[1..][k].Image? && 0 < line[1..][k].id <= MAX_IMAGE_ID
          && forall j :: 0 <= j < k ==> !line[1..][j].Image?;
        forall j | 0 <= j < k + 1 ensures !line[j].Image? {
          assert j > 0 ==> line[j] == line[1..][j - 1];
        }
        assert line[k + 1].Image?;
      }
      if NamesImage(line) {
        var k :| 0 <= k < |line| && line[k].Image? && 0 < line[k].id <= MAX_IMAGE_ID
          && forall j :: 0 <= j < k ==> !line[j].Image?;
        assert line[1..][k - 1].Image?;
        forall j | 0 <= j < k - 1 ensures !line[1..][j].Image? {
          assert line[1..][j] == line[j + 1];
        }
      }
    }
  }

  lemma {:induction false} ChangedDiffers(a: seq<Line>, b: seq<Line>)
    requires NonEmpty(a) && NonEmpty(b)
    ensures forall i: nat :: Changed(a, b, i) <==> i < Max(|a|, |b|) && Differs(a, b, i)
  {
  }

  /** The searches of the renderer find the span. */
  lemma {:induction false} RangeSpans(a: seq<Line>, b: seq<Line>)
    requires NonEmpty(a) && NonEmpty(b)
    ensures var r := ChangedRange(a, b);
      if r.first == -1 then a == b else 0 <= r.first <= r.last && Spans(a, b, r.first, r.last)
  {
    ChangedDiffers(a, b);
    RangeFacts(a, b);
    var r := ChangedRange(a, b);
    if r.first != -1 {
      var last0 := if |b| > |a| then |b| - 1 else LastDiff(a, b, Max(|a|, |b|));
      forall i | 0 <= i < |a| ensures NamesImage(a[i]) <==> KittyIds(a[i]) != [] {
        NamesFound(a[i]);
      }
      ExpandLands(a, r.first, last0);
      assert Changed(a, b, last0);
    }
  }

  lemma {:induction false} ExpandLands(lines: seq<Line>, first: nat, last: int)
    ensures var r := ExpandLast(lines, first, last); r > last ==> r < |lines| && KittyIds(lines[r]) != []
    decreases |lines|
  {
    if |lines| > first && KittyIds(lines[|lines| - 1]) == [] {
      ExpandLands(lines[..|lines| - 1], first, last);
    }
  }

  lemma {:induction false} SpanUnique(a: seq<Line>, b: seq<Line>, first: nat, last: nat, first': nat, last': nat)
    requires Spans(a, b, first, last) && Spans(a, b, first', last')
    ensures first == first' && last == last'
  {
  }

  lemma {:induction false} PrefixChange(a: seq<Line>, b: seq<Line>, first: nat)
    requires Changed(a, b, first) && forall i :: 0 <= i < first ==> !Changed(a, b, i)
    ensures b < a <==> first >= |b| && |b| < |a|
    ensures first >= |b| ==> |b| < |a|
  {
    if b < a {
      assert forall i :: 0 <= i < |b| ==> a[i] == b[i];
    }
    if first >= |b| {
      assert |b| < |a|;
      forall i | 0 <= i < |b| ensures a[i] == b[i] {
        assert !Changed(a, b, i);
      }
    }
  }

  lemma {:induction false} NoChange(a: seq<Line>)
    ensures forall i: nat :: !Changed(a, a, i)
  {
  }

  /** The clearing path is taken exactly when the screen cannot be mended. */
  lemma {:induction false} ClearsBeyond(s: Tui, lines: seq<Line>, width: nat, height: nat, overlays: bool)
    requires NonEmpty(s.previousLines) && NonEmpty(lines)
    ensures ChoosePath(s, lines, width, height, overlays).Clear? <==> Beyond(s, lines, width, height, overlays)
  {
    hide ChangedRange, TooWide;
    var a := s.previousLines;
    RangeSpans(a, lines);
    var r := ChangedRange(a, lines);
    if a != [] && !SizeChanged(s, width, height) {
      if r.first == -1 {
        NoChange(a);
      } else {
        PrefixChange(a, lines, r.first);
      }
    }
  }

  // ----- The main results

  /** A render wipes the terminal if and only if what it shows cannot be mended in place, and then it
      draws the whole frame. */
  lemma {:induction false} WipesExactly(s: Tui, frame: seq<Line>, width: nat, height: nat, overlays: bool)
    requires NonEmpty(s.previousLines) && !s.stopped
    ensures var lines := Prepare(frame, height).lines; var o := DoRender(s, frame, width, height, overlays);
      && (EraseScrollback in o.ops <==> Beyond(s, lines, width, height, overlays))
      && (EraseScrollback in o.ops ==> Items(o.ops) == Joined(lines))
  {
    hide Prepare, ChoosePath, FullOps, Finish, Beyond, Items, Joined, RenderPrepared;
    PrepareFacts(frame, height);
    var p := Prepare(frame, height);
    ClearsBeyond(s, p.lines, width, height, overlays);
    if PathOf(s, frame, width, height, overlays).Clear? {
      WipeItems(s, p, width, height, overlays);
    } else {
      OtherPathsSpare(s, frame, width, height, overlays);
    }
  }

  lemma {:induction false} WipeItems(s: Tui, p: Prepared, width: nat, height: nat, overlays: bool)
    requires ChoosePath(s, p.lines, width, height, overlays).Clear?
    ensures var o := RenderPrepared(s, p, width, height, overlays);
      EraseScrollback in o.ops && Items(o.ops) == Joined(p.lines)
  {
    hide ChoosePath, FullOps, Finish, Items, Joined;
    FullItems(s, true, p.lines);
    FinishItems(AfterFull(s, true, |p.lines|, height), p, FullOps(s, true, p.lines), width, height);
  }

  /** A line of the span that is no image and wider than the terminal. */
  ghost predicate Overflows(lines: seq<Line>, first: nat, last: nat, width: nat) {
    exists i :: first <= i <= last && i < |lines| && |Cells(lines[i])| > width
      && forall item :: item in lines[i] ==> !item.Image?
  }

  /** A render that does not wipe draws the whole frame if there was none before, nothing if no line of the
      frame changed, and otherwise exactly the lines of the span that the frame still has; it
      writes nothing and stops the renderer when one of those does not fit. */
  lemma {:induction false} DrawsChanges(s: Tui, frame: seq<Line>, width: nat, height: nat, overlays: bool,
      first: nat, last: nat)
    requires NonEmpty(s.previousLines) && !s.stopped
    requires !Beyond(s, Prepare(frame, height).lines, width, height, overlays)
    ensures var lines := Prepare(frame, height).lines; var o := DoRender(s, frame, width, height, overlays);
      && (s.previousLines == [] ==> Items(o.ops) == Joined(lines))
      && (s.previousLines != [] && lines <= s.previousLines ==> Items(o.ops) == [])
      && (s.previousLines != [] && !(lines <= s.previousLines) && Spans(s.previousLines, lines, first, last) ==>
            && first < |lines|
            && (o.tui.stopped <==> Overflows(lines, first, last, width))
            && if o.tui.stopped then o.ops == []
               else Items(o.ops) == Joined(lines[first..Min(last + 1, |lines|)]))
  {
    hide Prepare, ChoosePath, Finish, Beyond, Items, Joined, ChangedRange, RenderPrepared, Spans, Overflows;
    PrepareFacts(frame, height);
    var p := Prepare(frame, height);
    ClearsBeyond(s, p.lines, width, height, overlays);
    if s.previousLines == [] {
      FirstItems(s, p, width, height, overlays);
    } else if p.lines <= s.previousLines {
      KeptItems(s, p, width, height, overlays);
    } else if Spans(s.previousLines, p.lines, first, last) {
      SpanItems(s, p, width, height, overlays, first, last);
    }
  }

  lemma {:induction false} FirstItems(s: Tui, p: Prepared, width: nat, height: nat, overlays: bool)
    requires s.previousLines == [] && !ChoosePath(s, p.lines, width, height, overlays).Clear?
    ensures Items(RenderPrepared(s, p, width, height, overlays).ops) == Joined(p.lines)
  {
    hide FullOps, Finish, Items, Joined, ChangedRange;
    FullItems(s, false, p.lines);
    FinishItems(AfterFull(s, false, |p.lines|, height), p, FullOps(s, false, p.lines), width, height);
  }

  lemma {:induction false} CursorSilent(s: Tui, cursor: Option<Position>, total: nat)
    ensures Items(PositionCursor(s, cursor, total).ops) == []
  {
    SilentItems(PositionCursor(s, cursor, total).ops);
  }

  /** The frame is the old one or a prefix of it. */
  lemma {:induction false} KeptItems(s: Tui, p: Prepared, width: nat, height: nat, overlays: bool)
    requires s.previousLines != [] && NonEmpty(s.previousLines) && NonEmpty(p.lines)
    requires p.lines <= s.previousLines && !ChoosePath(s, p.lines, width, height, overlays).Clear?
    ensures Items(RenderPrepared(s, p, width, height, overlays).ops) == []
  {
    hide DeleteOnlyOps, Finish, Items, ChangedRange, PositionCursor, TooWide;
    RangeSpans(s.previousLines, p.lines);
    var r := ChangedRange(s.previousLines, p.lines);
    if r.first == -1 {
      CursorSilent(s, p.cursor, |p.lines|);
    } else {
      PrefixChange(s.previousLines, p.lines, r.first);
      DeleteOnlyItems(s, p.lines);
      FinishItems(s.(hardwareCursorRow := Max(0, |p.lines| - 1)), p, DeleteOnlyOps(s, p.lines), width, height);
    }
  }

  lemma {:induction false} SpanItems(s: Tui, p: Prepared, width: nat, height: nat, overlays: bool,
      first: nat, last: nat)
    requires s.previousLines != [] && NonEmpty(s.previousLines) && NonEmpty(p.lines)
    requires !(p.lines <= s.previousLines) && !ChoosePath(s, p.lines, width, height, overlays).Clear? && !s.stopped
    requires Spans(s.previousLines, p.lines, first, last)
    ensures var o := RenderPrepared(s, p, width, height, overlays);
      && first < |p.lines|
      && (o.tui.stopped <==> Overflows(p.lines, first, last, width))
      && if o.tui.stopped then o.ops == [] else Items(o.ops) == Joined(p.lines[first..Min(last + 1, |p.lines|)])
  {
    hide DiffOps, Finish, Items, Joined, ChangedRange, Cells, IsImageLine;
    var a, b := s.previousLines, p.lines;
    RangeSpans(a, b);
    var r := ChangedRange(a, b);
    if r.first == -1 {
      assert false;
    }
    SpanUnique(a, b, first, last, r.first, r.last);
    PrefixChange(a, b, first);
    OverflowsTooWide(b, first, last, width);
    if ChoosePath(s, b, width, height, overlays).Differential? {
      DiffItems(s, b, height);
      FinishItems(AfterDiff(s, b, height), p, DiffOps(s, b, height), width, height);
      FinishKeeps(AfterDiff(s, b, height), p, DiffOps(s, b, height), width, height);
    }
  }

  lemma {:induction false} OverflowsTooWide(lines: seq<Line>, first: nat, last: nat, width: nat)
    ensures Overflows(lines, first, last, width)
      <==> exists i :: first <= i <= Min(last, |lines| - 1) && TooWide(lines[i], width)
  {
    hide Cells;
    if i :| first <= i <= Min(last, |lines| - 1) && TooWide(lines[i], width) {
      assert |Cells(lines[i])| > width && forall item :: item in lines[i] ==> !item.Image?;
    }
    if Overflows(lines, first, last, width) {
      var i :| first <= i <= last && i < |lines| && |Cells(lines[i])| > width
        && forall item :: item in lines[i] ==> !item.Image?;
      assert TooWide(lines[i], width);
    }
  }

  lemma {:induction false} FinishKeeps(s: Tui, p: Prepared, ops: seq<Op>, width: nat, height: nat)
    ensures Finish(s, p, ops, width, height).tui.stopped == s.stopped
  {
  }


  /** The tallest frame since the last wipe, which is what clear-on-shrink compares with. */
  lemma {:induction false} WorkingArea(s: Tui, frame: seq<Line>, width: nat, height: nat, overlays: bool)
    requires NonEmpty(s.previousLines) && !s.stopped && |s.previousLines| <= s.maxLinesRendered
    ensures var o := DoRender(s, frame, width, height, overlays);
      !o.tui.stopped ==>
        && o.tui.maxLinesRendered
             == (if EraseScrollback in o.ops then |frame| else Max(s.maxLinesRendered, |frame|))
        && |o.tui.previousLines| == |frame|
  {
    hide Prepare, Items, Beyond, FullOps, DiffOps, DeleteOnlyOps, ChangedRange, CollectIds, TooWide, MoveTarget,
      RenderEnd;
    PrepareFacts(frame, height);
    var p := Prepare(frame, height);
    RangeFacts(s.previousLines, p.lines);
    if PathOf(s, frame, width, height, overlays).Clear? {
      WipeItems(s, p, width, height, overlays);
    } else {
      OtherPathsSpare(s, frame, width, height, overlays);
    }
  }

  // ----- Preparation

  /** The line with a reset of colours and of the hyperlink, unless it holds an image. */
  function Ended(line: Line): Line {
    if exists k :: 0 <= k < |line| && line[k].Image? then line
    else line + [Code("\U{1B}[0m\U{1B}]8;;\U{7}")]
  }

  /** `cut` is the line without its first marker, which stood in column `col`. */
  ghost predicate WithoutMarker(line: Line, cut: Line, col: nat) {
    exists before, after :: line == before + [Marker] + after && Marker !in before && col == |Cells(before)|
      && cut == before + after
  }

  lemma {:induction false} ResetEnds(line: Line)
    ensures WithReset(line) == Ended(line)
  {
  }

  lemma {:induction false} MarkerCut(line: Line)
    requires Marker in line
    ensures var i := MarkerIndex(line);
      WithoutMarker(line, line[..i] + line[i + 1..], |Cells(line[..i])|)
  {
    hide Cells;
    var i := MarkerIndex(line);
    assert line == line[..i] + [Marker] + line[i + 1..];
  }

  /** What is compared and drawn: the frame with a reset after every line that holds no image, and without
      the first marker of the lowest line on the screen that has one. */
  lemma {:induction false} PreparedExactly(frame: seq<Line>, height: nat)
    ensures var p := Prepare(frame, height); var top := Max(0, |frame| - height);
      && |p.lines| == |frame|
      && (p.cursor.None? <==> forall i :: top <= i < |frame| ==> Marker !in frame[i])
      && (forall i :: 0 <= i < |frame| && (p.cursor.Some? ==> i != p.cursor.value.row) ==>
            p.lines[i] == Ended(frame[i]))
      && (p.cursor.Some? ==>
            var row := p.cursor.value.row;
            && top <= row < |frame| && (forall i :: row < i < |frame| ==> Marker !in frame[i])
            && exists cut :: WithoutMarker(frame[row], cut, p.cursor.value.col) && p.lines[row] == Ended(cut))
  {
    hide Cells, Ended, WithoutMarker, WithReset;
    var p := Prepare(frame, height);
    var row := MarkerRow(frame, Max(0, |frame| - height), |frame|);
    forall i | 0 <= i < |frame| ensures p.lines[i] == Ended(ExtractCursor(frame, height).lines[i]) {
      ResetEnds(ExtractCursor(frame, height).lines[i]);
    }
    if row >= 0 {
      MarkerCut(frame[row]);
    }
  }
}
