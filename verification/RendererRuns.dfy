/** Whole runs of the renderer: frames, demands for a full redraw and resizes in any order. */
module RendererRuns {
  import opened Basics
  import opened Terminal
  import opened Renderer
  import opened RendererProofs

  datatype World = World(tui: Tui, term: Term)

  /** A resize hands over a terminal of the new size whose contents are arbitrary. */
  datatype Event = Frame(lines: seq<Line>, overlays: bool) | Demand | Resize(to: Term)

  function Step(w: World, e: Event): (w': World)
    requires w.term.Valid() && (e.Resize? ==> e.to.Valid())
    ensures w'.term.Valid()
  {
    match e
    case Frame(lines, overlays) =>
      var o := DoRender(w.tui, lines, w.term.width, w.term.height, overlays);
      World(o.tui, Run(w.term, o.ops))
    case Demand => w.(tui := Force(w.tui))
    case Resize(to) => w.(term := to)
  }

  /** A resize came after the last frame, so that the terminal may hold anything. */
  predicate Touched(events: seq<Event>, k: nat)
    requires k <= |events|
  {
    k > 0 && !events[k - 1].Frame? && (events[k - 1].Resize? || Touched(events, k - 1))
  }

  function PathOf(s: Tui, frame: seq<Line>, width: nat, height: nat, overlays: bool): Path {
    ChoosePath(s, Prepare(frame, height).lines, width, height, overlays)
  }

  /** The lines fit and the side condition of the path holds; after a resize the path must be the one
      that clears, which it is whenever the size differs from that of the last render. */
  ghost predicate Permitted(w: World, e: Event, touched: bool) {
    e.Frame? ==>
      && Fits(e.lines, w.term.width) && StepOk(w.tui, e.lines, w.term.width, w.term.height, e.overlays)
      && (touched ==> PathOf(w.tui, e.lines, w.term.width, w.term.height, e.overlays).Clear?)
  }

  /** The world after the first `k` events. */
  function After(w: World, events: seq<Event>, k: nat): (w': World)
    requires w.term.Valid() && k <= |events|
    requires forall i :: 0 <= i < |events| && events[i].Resize? ==> events[i].to.Valid()
    ensures w'.term.Valid()
    decreases k
  {
    if k == 0 then w else Step(After(w, events, k - 1), events[k - 1])
  }

  ghost predicate ResizesValid(events: seq<Event>) {
    forall i :: 0 <= i < |events| && events[i].Resize? ==> events[i].to.Valid()
  }

  ghost predicate Initial(w: World) {
    Clean(w.term) && w.tui == Tui([], [], 0, 0, 0, 0, 0, w.tui.clearOnShrink, false)
  }

  /** Scrollback plus screen is the frame padded with blank rows, its last line is on the screen, and
      the renderer knows where the viewport and the cursor are. */
  ghost predicate Displays(frame: seq<Line>, w: World) {
    && |frame| <= |w.term.rows|
    && (forall j :: 0 <= j < |w.term.rows| ==> w.term.rows[j] == if j < |frame| then Cells(frame[j]) else [])
    && w.term.top <= Max(0, |frame| - 1)
    && w.tui.previousViewportTop == w.term.top && w.tui.hardwareCursorRow == w.term.cy
  }

  lemma {:induction false} RecordsFrame(s: Tui, t: Term, frame: seq<Line>, overlays: bool)
    requires Ready(s, t) && Fits(frame, t.width) && StepOk(s, frame, t.width, t.height, overlays)
    ensures DoRender(s, frame, t.width, t.height, overlays).tui.previousLines == Prepare(frame, t.height).lines
  {
    hide Run, Cells;
    PrepareFacts(frame, t.height);
    hide Prepare;
    var p := Prepare(frame, t.height);
    PaintFits(frame, p.lines, t.width);
    if Synced(s, t) && !SizeChanged(s, t.width, t.height) && s.previousLines != [] {
      SynchronisedStep(s, t, p, overlays);
    }
    hide FullOps, DeleteOnlyOps, DiffOps, AfterDiff, AfterFull, ChangedRange;
  }

  lemma {:induction false} FrameDisplays(w: World, e: Event)
    requires e.Frame? && Ready(w.tui, w.term) && Permitted(w, e, false)
    ensures var w' := Step(w, e); Synced(w'.tui, w'.term) && Displays(e.lines, w')
  {
    hide Run, Cells, DoRender;
    RenderStep(w.tui, w.term, e.lines, e.overlays);
    RecordsFrame(w.tui, w.term, e.lines, e.overlays);
    PrepareFacts(e.lines, w.term.height);
  }

  /** A render that clears displays its frame whatever the terminal held. */
  lemma {:induction false} ClearDisplays(w: World, e: Event)
    requires w.term.Valid() && !w.tui.stopped && e.Frame? && Fits(e.lines, w.term.width)
    requires PathOf(w.tui, e.lines, w.term.width, w.term.height, e.overlays).Clear?
    ensures var w' := Step(w, e); Synced(w'.tui, w'.term) && Displays(e.lines, w')
  {
    hide Run, Cells, Prepare, ChoosePath, FullOps;
    PrepareFacts(e.lines, w.term.height);
    var p := Prepare(e.lines, w.term.height);
    PaintFits(e.lines, p.lines, w.term.width);
    FullDraws(w.tui, w.term, true, p);
  }

  lemma {:induction false} FrameStep(w: World, e: Event, touched: bool)
    requires e.Frame? && w.term.Valid() && !w.tui.stopped && (!touched ==> Ready(w.tui, w.term))
    requires Permitted(w, e, touched)
    ensures var w' := Step(w, e); Ready(w'.tui, w'.term) && Displays(e.lines, w')
  {
    hide Step, Displays, StepOk, PathOf, Fits;
    if touched { ClearDisplays(w, e); } else { FrameDisplays(w, e); }
  }

  /** Safety over whole runs: from a clean start, after every frame of every permitted run the terminal
      displays that frame and the renderer's record is right. */
  lemma {:induction false} RunDisplays(w: World, events: seq<Event>, k: nat)
    requires Initial(w) && ResizesValid(events) && k <= |events|
    requires forall i :: 0 <= i < k ==> Permitted(After(w, events, i), events[i], Touched(events, i))
    ensures var v := After(w, events, k); !v.tui.stopped && (!Touched(events, k) ==> Ready(v.tui, v.term))
    ensures k > 0 && events[k - 1].Frame? ==> Displays(events[k - 1].lines, After(w, events, k))
    decreases k
  {
    hide Permitted, Displays, Run, DoRender, Shows;
    if k > 0 {
      RunDisplays(w, events, k - 1);
      var v := After(w, events, k - 1);
      if events[k - 1].Frame? {
        FrameStep(v, events[k - 1], Touched(events, k - 1));
      }
    } else {
      CleanReady(w);
    }
  }

  lemma {:induction false} CleanReady(w: World)
    requires Initial(w)
    ensures Ready(w.tui, w.term)
  {
  }

  // ----- Which resizes are repaired

  /** The scrollback is not erased. */
  predicate Spares(ops: seq<Op>) { EraseScrollback !in ops }

  /** Then a row that has left the screen stays as it is. */
  lemma {:induction false} ScrolledRowStays(t: Term, ops: seq<Op>)
    requires t.Valid() && t.top >= 1 && Spares(ops)
    ensures var u := Run(t, ops); u.top >= 1 && u.rows[0] == t.rows[0]
    decreases |ops|
  {
    if ops != [] {
      assert ops[0] in ops && forall op :: op in ops[1..] ==> op in ops;
      AppliedRowStays(t, ops[0]);
      ScrolledRowStays(Apply(t, ops[0]), ops[1..]);
    }
  }

  lemma {:induction false} AppliedRowStays(t: Term, op: Op)
    requires t.Valid() && t.top >= 1 && !op.EraseScrollback?
    ensures var u := Apply(t, op); u.top >= 1 && u.rows[0] == t.rows[0]
  {
  }

  lemma {:induction false} PaintSpares(lines: seq<Line>, erase: bool)
    ensures Spares(Paint(lines, erase))
    decreases |lines|
  {
    if lines != [] { PaintSpares(lines[..|lines| - 1], erase); }
  }

  lemma {:induction false} ClearRowsSpares(k: nat, total: nat)
    ensures Spares(ClearRows(k, total))
  {
    if k > 0 { ClearRowsSpares(k - 1, total); }
  }

  lemma {:induction false} EraseBelowSpares(k: nat)
    ensures Spares(EraseBelow(k))
  {
    if k > 0 { EraseBelowSpares(k - 1); }
  }

  lemma {:induction false} RepeatSpares(n: nat)
    ensures Spares(Repeat(NEWLINE, n))
  {
    if n > 0 { RepeatSpares(n - 1); }
  }

  lemma {:induction false} ApproachSpares(s: Tui, lines: seq<Line>, height: nat)
    ensures Spares(ApproachOps(s, lines, height))
  {
    hide ChangedRange;
    var target := MoveTarget(s, lines);
    var bottom := s.previousViewportTop + height - 1;
    if target > bottom { RepeatSpares(target - bottom); }
  }

  lemma {:induction false} TrimSpares(s: Tui, lines: seq<Line>)
    ensures Spares(TrimOps(s, lines))
  {
    hide ChangedRange;
    if |s.previousLines| > |lines| { EraseBelowSpares(|s.previousLines| - |lines|); }
  }

  lemma {:induction false} DiffSpares(s: Tui, lines: seq<Line>, height: nat)
    ensures Spares(DiffOps(s, lines, height))
  {
    hide ApproachOps, TrimOps, Paint, ChangedRange;
    ApproachSpares(s, lines, height);
    TrimSpares(s, lines);
    var r := ChangedRange(s.previousLines, lines);
    var end := RenderEnd(s, lines);
    PaintSpares(if 0 <= r.first <= end < |lines| then lines[r.first..end + 1] else [], true);
  }

  lemma {:induction false} DeleteOnlySpares(s: Tui, lines: seq<Line>)
    requires |lines| <= |s.previousLines|
    ensures Spares(DeleteOnlyOps(s, lines))
  {
    hide ChangedRange;
    ClearRowsSpares(|s.previousLines| - |lines|, |s.previousLines| - |lines|);
  }

  /** Only the clearing path erases the scrollback. */
  lemma {:induction false} OtherPathsSpare(s: Tui, frame: seq<Line>, width: nat, height: nat, overlays: bool)
    requires !PathOf(s, frame, width, height, overlays).Clear?
    ensures Spares(DoRender(s, frame, width, height, overlays).ops)
  {
    hide Prepare, ChoosePath, DiffOps, DeleteOnlyOps, FullOps, Finish, PositionCursor, AfterDiff, AfterFull, Spares;
    var p := Prepare(frame, height);
    NothingSpares();
    match PathOf(s, frame, width, height, overlays)
    case FirstPaint =>
      PrintSpares(s, p.lines);
      FinishSpares(AfterFull(s, false, |p.lines|, height), p, FullOps(s, false, p.lines), width, height);
    case Unchanged => CursorSpares(s, p.cursor, |p.lines|);
    case DeleteOnly =>
      var ops := if |p.lines| <= |s.previousLines| then DeleteOnlyOps(s, p.lines) else [];
      if |p.lines| <= |s.previousLines| { DeleteOnlySpares(s, p.lines); }
      FinishSpares(s.(hardwareCursorRow := Max(0, |p.lines| - 1)), p, ops, width, height);
    case Differential =>
      DiffSpares(s, p.lines, height);
      FinishSpares(AfterDiff(s, p.lines, height), p, DiffOps(s, p.lines, height), width, height);
    case Overlong =>
  }

  lemma {:induction false} NothingSpares()
    ensures Spares([])
  {
  }

  lemma {:induction false} PrintSpares(s: Tui, lines: seq<Line>)
    ensures Spares(FullOps(s, false, lines))
  {
    hide Paint;
    PaintSpares(lines, false);
  }

  lemma {:induction false} CursorSpares(s: Tui, cursor: Option<Position>, total: nat)
    ensures Spares(PositionCursor(s, cursor, total).ops)
  {
  }

  lemma {:induction false} FinishSpares(s: Tui, p: Prepared, ops: seq<Op>, width: nat, height: nat)
    requires Spares(ops)
    ensures Spares(Finish(s, p, ops, width, height).ops)
  {
    hide PositionCursor;
    CursorSpares(s, p.cursor, |p.lines|);
  }

  /** One row of scrollback that is not the first line of the frame, above a blank screen. */
  function Junk(frame: seq<Line>, width: nat, height: nat): Term {
    var row := if frame != [] && Cells(frame[0]) == [] then [BLANK] else [];
    Term([row] + Blanks(height), 1, 1, 0, width, height, {})
  }

  /** What it takes for a frame to be right after a resize to a given size, whatever the resize did to the
      contents: the render has to clear. It does when the size differs from that of the last render;
      a resize that comes back to that size goes unnoticed unless something else makes it clear. */
  lemma {:induction false} ResizeRepaired(w: World, frame: seq<Line>, overlays: bool, width: nat, height: nat)
    requires w.term.Valid() && !w.tui.stopped && width >= 1 && height >= 1 && Fits(frame, width)
    ensures
      (forall to: Term :: to.Valid() && to.width == width && to.height == height ==>
        Displays(frame, Step(Step(w, Resize(to)), Frame(frame, overlays))))
      <==> PathOf(w.tui, frame, width, height, overlays).Clear?
  {
    hide Displays, Step, PathOf, Fits;
    if PathOf(w.tui, frame, width, height, overlays).Clear? {
      forall to: Term | to.Valid() && to.width == width && to.height == height
        ensures Displays(frame, Step(Step(w, Resize(to)), Frame(frame, overlays)))
      {
        ResizedTo(w, to);
        ClearDisplays(Step(w, Resize(to)), Frame(frame, overlays));
      }
    } else {
      JunkStays(w, frame, overlays, width, height);
    }
  }

  lemma {:induction false} ResizedTo(w: World, to: Term)
    requires w.term.Valid() && to.Valid()
    ensures Step(w, Resize(to)) == World(w.tui, to)
  {
  }

  lemma {:induction false} JunkStays(w: World, frame: seq<Line>, overlays: bool, width: nat, height: nat)
    requires w.term.Valid() && width >= 1 && height >= 1 && !PathOf(w.tui, frame, width, height, overlays).Clear?
    ensures var to := Junk(frame, width, height);
      && to.Valid() && to.width == width && to.height == height
      && !Displays(frame, Step(Step(w, Resize(to)), Frame(frame, overlays)))
  {
    hide Run, DoRender, PathOf, Cells;
    var to := Junk(frame, width, height);
    OtherPathsSpare(w.tui, frame, width, height, overlays);
    ScrolledRowStays(to, DoRender(w.tui, frame, width, height, overlays).ops);
  }

  // ----- With clear-on-shrink

  /** The working area is the frame itself and nothing of it is scrolled away needlessly. */
  ghost predicate Tight(s: Tui, t: Term) {
    s.clearOnShrink
    && (!SizeChanged(s, t.width, t.height) ==>
          s.maxLinesRendered == |s.previousLines|
              && s.previousViewportTop == Max(t.height, |s.previousLines|) - t.height)
  }

  lemma {:induction false} TightPath(s: Tui, t: Term, p: Prepared)
    requires Synced(s, t) && Tight(s, t) && !SizeChanged(s, t.width, t.height) && s.previousLines != []
    requires NonEmpty(p.lines) && Fits(p.lines, t.width)
    requires p.cursor.Some? ==> Max(0, |p.lines| - t.height) <= p.cursor.value.row < |p.lines|
    ensures var path := ChoosePath(s, p.lines, t.width, t.height, false);
      && !path.DeleteOnly? && !path.Overlong? && !path.FirstPaint?
      && (!path.Clear? ==> |p.lines| >= |s.previousLines|)
      && Reachable(s, p, t.height, path)
  {
    hide Cells;
    SynchronisedStep(s, t, p, false);
  }

  lemma {:induction false} TightDiff(s: Tui, t: Term, lines: seq<Line>)
    requires Diffs(s, t, lines) && Tight(s, t) && !SizeChanged(s, t.width, t.height) && |lines| >= |s.previousLines|
    ensures var s' := AfterDiff(s, lines, t.height);
      s'.maxLinesRendered == |lines| && s'.previousViewportTop == Max(t.height, |lines|) - t.height && s'.clearOnShrink
  {
    hide Cells;
    AfterDiffFacts(s, t, lines);
    hide ChangedRange, MoveTarget, RenderEnd;
  }

  /** With clear-on-shrink no side condition is left, and the viewport is always as high as possible. */
  lemma {:induction false} TightStep(s: Tui, t: Term, frame: seq<Line>)
    requires Ready(s, t) && Tight(s, t) && Fits(frame, t.width)
    ensures StepOk(s, frame, t.width, t.height, false)
    ensures Tight(DoRender(s, frame, t.width, t.height, false).tui, t)
    ensures !SizeChanged(DoRender(s, frame, t.width, t.height, false).tui, t.width, t.height)
  {
    hide Run, Cells;
    PrepareFacts(frame, t.height);
    hide Prepare, FullOps, DiffOps, DeleteOnlyOps;
    var p := Prepare(frame, t.height);
    PaintFits(frame, p.lines, t.width);
    if !SizeChanged(s, t.width, t.height) && s.previousLines != [] {
      TightPath(s, t, p);
      SynchronisedStep(s, t, p, false);
      var path := ChoosePath(s, p.lines, t.width, t.height, false);
      hide ChoosePath;
      if path.Differential? {
        TightDiff(s, t, p.lines);
        hide AfterDiff;
      }
    }
  }

  /** A frame that fits, without overlays; after a resize it must be rendered by clearing. */
  ghost predicate Plain(w: World, e: Event, touched: bool) {
    e.Frame? ==>
      && Fits(e.lines, w.term.width) && !e.overlays
      && (touched ==> PathOf(w.tui, e.lines, w.term.width, w.term.height, false).Clear?)
  }

  /** The same of the record alone, at the size of the last render. */
  predicate TightRecord(s: Tui) {
    && s.clearOnShrink
    && (s.previousHeight >= 0 ==> s.maxLinesRendered == |s.previousLines|)
    && (s.previousHeight > 0 ==> s.previousViewportTop == Max(s.previousHeight, |s.previousLines|) - s.previousHeight)
    && (s.previousHeight == 0 ==> s.previousLines == [] && s.previousViewportTop == 0)
  }

  lemma {:induction false} TightAnywhere(s: Tui, t: Term)
    requires TightRecord(s)
    ensures Tight(s, t)
  {
  }

  lemma {:induction false} TightKept(s: Tui, t: Term)
    requires Tight(s, t) && s.previousWidth == t.width && s.previousHeight == t.height >= 1
    ensures TightRecord(s)
  {
  }

  lemma {:induction false} ClearTight(s: Tui, t: Term, frame: seq<Line>)
    requires t.Valid() && !s.stopped && s.clearOnShrink && PathOf(s, frame, t.width, t.height, false).Clear?
    ensures var r := DoRender(s, frame, t.width, t.height, false).tui; TightRecord(r) && |r.previousLines| == |frame|
  {
    hide Cells, ChoosePath, FullOps, Prepare, CollectIds;
    PrepareFacts(frame, t.height);
  }

  lemma {:induction false} RecordsSize(s: Tui, frame: seq<Line>, width: nat, height: nat, overlays: bool)
    requires !s.stopped && !PathOf(s, frame, width, height, overlays).Overlong?
    ensures DoRender(s, frame, width, height, overlays).tui.previousHeight == height
  {
    hide Cells, ChoosePath, FullOps, DiffOps, DeleteOnlyOps, AfterDiff, Prepare, CollectIds;
  }

  lemma {:induction false} TightFrame(w: World, e: Event, touched: bool)
    requires e.Frame? && w.term.Valid() && !w.tui.stopped && (!touched ==> Ready(w.tui, w.term))
    requires TightRecord(w.tui) && Plain(w, e, touched)
    ensures var v := Step(w, e);
      && Ready(v.tui, v.term) && TightRecord(v.tui) && Displays(e.lines, v)
      && v.term.top == Max(v.term.height, |e.lines|) - v.term.height
  {
    hide Run, Cells, DoRender, Displays, PathOf, Fits, Shows, StepOk;
    TightAnywhere(w.tui, w.term);
    if touched {
      ClearDisplays(w, e);
      ClearTight(w.tui, w.term, e.lines);
      TightTop(Step(w, e), e.lines);
    } else {
      TightStep(w.tui, w.term, e.lines);
      FrameDisplays(w, e);
      RecordsFrame(w.tui, w.term, e.lines, false);
      PrepareFacts(e.lines, w.term.height);
      TightAfter(w, e);
      TightTop(Step(w, e), e.lines);
    }
  }

  /** Where a tight record puts the viewport. */
  lemma {:induction false} TightTop(v: World, frame: seq<Line>)
    requires Synced(v.tui, v.term) && TightRecord(v.tui) && |v.tui.previousLines| == |frame|
    ensures v.term.top == Max(v.term.height, |frame|) - v.term.height
  {
    hide Shows;
  }

  lemma {:induction false} TightAfter(w: World, e: Event)
    requires e.Frame? && !e.overlays && Ready(w.tui, w.term) && Tight(w.tui, w.term) && Fits(e.lines, w.term.width)
    ensures TightRecord(Step(w, e).tui)
  {
    hide Run, Cells, DoRender, Fits, Shows;
    TightStep(w.tui, w.term, e.lines);
    RenderStep(w.tui, w.term, e.lines, false);
    RecordsSize(w.tui, e.lines, w.term.width, w.term.height, false);
    TightKept(Step(w, e).tui, Step(w, e).term);
  }

  /** Clear-on-shrink over whole runs: after every frame the rows are exactly the frame and the
      viewport is exactly where printing the frame on a clean terminal leaves it. */
  lemma {:induction false} TightRun(w: World, events: seq<Event>, k: nat)
    requires Initial(w) && w.tui.clearOnShrink && ResizesValid(events) && k <= |events|
    requires forall i :: 0 <= i < k ==> Plain(After(w, events, i), events[i], Touched(events, i))
    ensures var v := After(w, events, k);
      !v.tui.stopped && TightRecord(v.tui) && (!Touched(events, k) ==> Ready(v.tui, v.term))
    ensures k > 0 && events[k - 1].Frame? ==>
      var v := After(w, events, k); var n := |events[k - 1].lines|;
      Displays(events[k - 1].lines, v) && v.term.top == Max(v.term.height, n) - v.term.height
    decreases k
  {
    hide Run, DoRender, Displays, Plain, Shows;
    if k == 0 {
      CleanReady(w);
    } else {
      TightRun(w, events, k - 1);
      var e := events[k - 1];
      if e.Frame? { TightFrame(After(w, events, k - 1), e, Touched(events, k - 1)); }
    }
  }

  // ----- The differential render refines the forced one

  /** Ending with a positioned cursor fixes the column. */
  lemma {:induction false} PositionColumn(s: Tui, t: Term, cursor: Option<Position>, total: nat, ops: seq<Op>)
    requires t.Valid() && cursor.Some? && total > 0
    ensures Run(t, ops + PositionCursor(s, cursor, total).ops).cx == Min(cursor.value.col, t.width - 1)
  {
    var row := Min(cursor.value.row, total - 1);
    var move := Move(s.hardwareCursorRow, row);
    assert ops + PositionCursor(s, cursor, total).ops == (ops + move) + [Column(cursor.value.col)];
    RunConcat(t, ops + move, [Column(cursor.value.col)]);
    RunOne(Run(t, ops + move), Column(cursor.value.col));
  }

  /** Every permitted render ends by positioning the cursor from wherever its path left it. */
  lemma {:induction false} EndsPositioned(s: Tui, frame: seq<Line>, width: nat, height: nat, overlays: bool)
      returns (s': Tui, ops: seq<Op>)
    requires !s.stopped && StepOk(s, frame, width, height, overlays)
    ensures var p := Prepare(frame, height); var o := DoRender(s, frame, width, height, overlays);
      var end := PositionCursor(s', p.cursor, |p.lines|);
      o.ops == ops + end.ops && o.tui.hardwareCursorRow == end.tui.hardwareCursorRow
  {
    hide Cells, Prepare, FullOps, DeleteOnlyOps, DiffOps, AfterDiff, AfterFull, ChangedRange;
    var p := Prepare(frame, height);
    var path := ChoosePath(s, p.lines, width, height, overlays);
    hide ChoosePath;
    match path
    case FirstPaint => s', ops := AfterFull(s, false, |p.lines|, height), FullOps(s, false, p.lines);
    case Clear => s', ops := AfterFull(s, true, |p.lines|, height), FullOps(s, true, p.lines);
    case Unchanged =>
      s', ops := s, [];
      var end := PositionCursor(s, p.cursor, |p.lines|);
      assert [] + end.ops == end.ops;
    case DeleteOnly =>
      s' := s.(hardwareCursorRow := Max(0, |p.lines| - 1));
      ops := if |p.lines| <= |s.previousLines| then DeleteOnlyOps(s, p.lines) else [];
    case Differential => s', ops := AfterDiff(s, p.lines, height), DiffOps(s, p.lines, height);
  }

  /** Every render that has a marker ends with the cursor at it. */
  lemma {:induction false} CursorAtMarker(s: Tui, t: Term, frame: seq<Line>, overlays: bool)
    requires Ready(s, t) && Fits(frame, t.width) && StepOk(s, frame, t.width, t.height, overlays)
    requires Prepare(frame, t.height).cursor.Some?
    ensures var u := Run(t, DoRender(s, frame, t.width, t.height, overlays).ops);
      var at := Prepare(frame, t.height).cursor.value;
      u.cy == at.row && u.cx == Min(at.col, t.width - 1)
  {
    hide Run, Cells, DoRender, StepOk;
    RenderStep(s, t, frame, overlays);
    PrepareFacts(frame, t.height);
    hide Prepare;
    var p := Prepare(frame, t.height);
    var s', ops := EndsPositioned(s, frame, t.width, t.height, overlays);
    PositionColumn(s', t, p.cursor, |p.lines|, ops);
  }

  /** Where a render without a marker leaves the cursor: nowhere new, on the last line it repainted, or
      on the last line of the frame. */
  function MarkerlessRow(s: Tui, lines: seq<Line>, path: Path): int {
    match path
    case Unchanged => s.hardwareCursorRow
    case Differential => RenderEnd(s, lines)
    case _ => |lines| - 1
  }

  lemma {:induction false} MarkerlessRender(s: Tui, t: Term, frame: seq<Line>)
    requires Ready(s, t) && Tight(s, t) && Fits(frame, t.width) && frame != []
    requires Prepare(frame, t.height).cursor.None?
    ensures var p := Prepare(frame, t.height);
      Run(t, DoRender(s, frame, t.width, t.height, false).ops).cy
        == MarkerlessRow(s, p.lines, ChoosePath(s, p.lines, t.width, t.height, false))
  {
    hide Run, Cells, Prepare, FullOps, DiffOps, DeleteOnlyOps, ChangedRange, AfterDiff, StepOk;
    PrepareFacts(frame, t.height);
    var p := Prepare(frame, t.height);
    PaintFits(frame, p.lines, t.width);
    TightStep(s, t, frame);
    RenderStep(s, t, frame, false);
    if !SizeChanged(s, t.width, t.height) && s.previousLines != [] {
      TightPath(s, t, p);
      SynchronisedStep(s, t, p, false);
      if ChoosePath(s, p.lines, t.width, t.height, false).Differential? { AfterDiffFacts(s, t, p.lines); }
    }
  }

  /** The cursor rows of the render and of a redraw agree on a frame without a marker. */
  predicate RowsAgree(s: Tui, frame: seq<Line>, width: nat, height: nat) {
    var p := Prepare(frame, height);
    var path := ChoosePath(s, p.lines, width, height, false);
    && (path.Unchanged? ==> s.hardwareCursorRow == |frame| - 1)
    && (path.Differential? ==> RenderEnd(s, p.lines) == |frame| - 1)
  }

  /** Without a marker the cursor row agrees with that of a redraw if and only if the render does not
      stop short of the last line: an unchanged frame leaves the cursor where it was, a differential
      render on the last line it repainted, a redraw on the last line of the frame. */
  lemma {:induction false} MarkerlessCursor(s: Tui, t: Term, frame: seq<Line>)
    requires Synced(s, t) && Tight(s, t) && Fits(frame, t.width) && frame != []
    requires Prepare(frame, t.height).cursor.None?
    ensures Run(t, DoRender(s, frame, t.width, t.height, false).ops).cy
         == Run(t, DoRender(Force(s), frame, t.width, t.height, false).ops).cy
        <==> RowsAgree(s, frame, t.width, t.height)
  {
    hide Run, Cells, DoRender, Prepare, ChangedRange;
    PrepareFacts(frame, t.height);
    MarkerlessRender(s, t, frame);
    MarkerlessRender(Force(s), t, frame);
  }

  /** Refinement: whatever path a render takes, it leaves the rows, the viewport and, when the frame
      has a marker, the cursor that clearing and printing the whole frame would leave; without a
      marker the cursor row is the same exactly when the render reached the last line. */
  lemma {:induction false} DiffRefinesRedraw(s: Tui, t: Term, frame: seq<Line>)
    requires Synced(s, t) && Tight(s, t) && Fits(frame, t.width)
    ensures
      var fast := Run(t, DoRender(s, frame, t.width, t.height, false).ops);
      var full := Run(t, DoRender(Force(s), frame, t.width, t.height, false).ops);
      && fast.rows == full.rows && fast.top == full.top
      && (if Prepare(frame, t.height).cursor.Some? then fast.cy == full.cy && fast.cx == full.cx
          else if frame == [] then fast.cy == full.cy
          else fast.cy == full.cy <==> RowsAgree(s, frame, t.width, t.height))
  {
    hide Run, Cells, DoRender, Prepare, RowsAgree;
    var w, f := World(s, t), World(Force(s), t);
    var e := Frame(frame, false);
    TightStep(s, t, frame);
    TightStep(Force(s), t, frame);
    FrameDisplays(w, e);
    FrameDisplays(f, e);
    RecordsFrame(s, t, frame, false);
    RecordsFrame(Force(s), t, frame, false);
    PrepareFacts(frame, t.height);
    assert Step(w, e).term.rows == Step(f, e).term.rows;
    if Prepare(frame, t.height).cursor.Some? {
      CursorAtMarker(s, t, frame, false);
      CursorAtMarker(Force(s), t, frame, false);
    } else if frame != [] {
      MarkerlessCursor(s, t, frame);
    }
  }

  /** In particular an unchanged frame agrees only if the cursor was on its last line already. */
  lemma {:induction false} NoMarkerCursor(s: Tui, t: Term, frame: seq<Line>)
    requires Synced(s, t) && Tight(s, t) && s.previousWidth != 0 && frame != [] && Fits(frame, t.width)
    requires Prepare(frame, t.height).lines == s.previousLines && Prepare(frame, t.height).cursor.None?
    ensures Run(t, DoRender(s, frame, t.width, t.height, false).ops).cy
         == Run(t, DoRender(Force(s), frame, t.width, t.height, false).ops).cy
        <==> s.hardwareCursorRow == |frame| - 1
  {
    hide Run, Cells, DoRender, Prepare;
    PrepareFacts(frame, t.height);
    RangeFacts(s.previousLines, s.previousLines);
    MarkerlessCursor(s, t, frame);
  }

  /** And a differential render whose last changed line is not the last of the frame never agrees. */
  lemma {:induction false} StopsShort(s: Tui, t: Term, frame: seq<Line>)
    requires Synced(s, t) && Tight(s, t) && Fits(frame, t.width) && frame != []
    requires var p := Prepare(frame, t.height);
      && p.cursor.None? && ChoosePath(s, p.lines, t.width, t.height, false).Differential?
      && ChangedRange(s.previousLines, p.lines).last < |frame| - 1
    ensures Run(t, DoRender(s, frame, t.width, t.height, false).ops).cy
         != Run(t, DoRender(Force(s), frame, t.width, t.height, false).ops).cy
  {
    hide Run, Cells, DoRender, Prepare, ChoosePath, ChangedRange;
    MarkerlessCursor(s, t, frame);
  }

  /** Such as a change to the first of two lines. */
  const TwoTerm := Term([[1], [1]], 0, 1, 1, 5, 2, {})
  const TwoTui := Tui([A, A], [], 5, 2, 1, 2, 0, true, false)
  const FirstChanges: seq<Line> := [[Glyph(2)], [Glyph(1)]]
  const B: Line := [Glyph(2), SEGMENT_RESET]

  lemma {:induction false} StopsShortExample()
    ensures Synced(TwoTui, TwoTerm) && Tight(TwoTui, TwoTerm) && Fits(FirstChanges, 5)
    ensures Prepare(FirstChanges, 2) == Prepared(None, [B, A])
    ensures ChoosePath(TwoTui, [B, A], 5, 2, false).Differential? && ChangedRange([A, A], [B, A]).last == 0
  {
    hide Prepare, ChoosePath, ChangedRange;
    CellsOfOne(SEGMENT_RESET);
    CellsOfTwo();
    FirstChangesPrepared();
    TwoLinesRange();
    FirstChangesPath();
  }

  lemma {:induction false} CellsOfTwo()
    ensures Cells([Glyph(1)]) == [1] && Cells([Glyph(2)]) == [2] && Cells(B) == [2]
  {
    assert B[1..] == [SEGMENT_RESET] && [SEGMENT_RESET][1..] == [];
    assert Cells([SEGMENT_RESET]) == [];
  }

  lemma {:induction false} FirstChangesPrepared()
    ensures Prepare(FirstChanges, 2) == Prepared(None, [B, A])
  {
    hide Cells;
    assert Marker !in FirstChanges[0] && Marker !in FirstChanges[1];
    assert MarkerRow(FirstChanges, 0, 2) == -1;
    assert WithReset([Glyph(2)]) == B && WithReset([Glyph(1)]) == A;
  }

  lemma {:induction false} FirstChangesPath()
    ensures ChoosePath(TwoTui, [B, A], 5, 2, false).Differential?
  {
    hide Cells, ChangedRange;
    TwoLinesRange();
    CellsOfTwo();
  }

  lemma {:induction false} NoImageInA()
    ensures KittyIds(A) == []
  {
    assert A[1..] == [SEGMENT_RESET] && [SEGMENT_RESET][1..] == [] && A[0] == Glyph(1);
    assert KittyIds([]) == [];
    assert KittyIds([SEGMENT_RESET]) == KittyIds([]);
    assert KittyIds(A) == KittyIds(A[1..]);
  }

  lemma {:induction false} TwoLinesRange()
    ensures ChangedRange([A, A], [B, A]) == Range(0, 0)
  {
    hide KittyIds;
    var a: seq<Line> := [A, A];
    NoImageInA();
    assert A[0] == Glyph(1) && B[0] == Glyph(2);
    assert Differs(a, [B, A], 0) && !Differs(a, [B, A], 1);
    assert LastDiff(a, [B, A], 2) == 0;
    assert a[..1] == [A] && [A][..0] == [];
    assert ExpandLast([A], 0, 0) == 0 && ExpandLast(a, 0, 0) == 0;
  }

  // ----- Where the side conditions bite

  /** In particular after a resize to the size of the last render an unchanged frame without a marker
      writes nothing at all, so whatever the resize did stays, with clear-on-shrink or without. */
  lemma {:induction false} UnseenResize(w: World, to: Term, frame: seq<Line>, overlays: bool)
    requires w.term.Valid() && to.Valid() && PathOf(w.tui, frame, to.width, to.height, overlays).Unchanged?
    requires Prepare(frame, to.height).cursor.None?
    ensures Step(Step(w, Resize(to)), Frame(frame, overlays)).term == to
  {
    hide Cells, Prepare, ChoosePath;
  }

  /** Redrawing the same frame with a marker above the tracked viewport loses track of the cursor. */
  lemma {:induction false} MarkerAboveFails(s: Tui, t: Term, frame: seq<Line>)
    requires Synced(s, t) && s.previousWidth != 0 && !s.clearOnShrink && frame != [] && Fits(frame, t.width)
    requires Prepare(frame, t.height).lines == s.previousLines
    requires Prepare(frame, t.height).cursor.Some? && Prepare(frame, t.height).cursor.value.row < t.top
    ensures var o := DoRender(s, frame, t.width, t.height, false); !Synced(o.tui, Run(t, o.ops))
  {
    hide Run, Cells, DoRender;
    PrepareFacts(frame, t.height);
    RenderStep(s, t, frame, false);
    hide Prepare;
    RangeFacts(s.previousLines, s.previousLines);
  }

  /** A two-row terminal that showed three lines before the frame shrank to two, so that the first of
      them is in scrollback although the search for the marker still covers it. */
  const A: Line := [Glyph(1), SEGMENT_RESET]
  const ShrunkTerm := Term([[1], [1], []], 1, 1, 1, 5, 2, {})
  const ShrunkTui := Tui([A, A], [], 5, 2, 1, 3, 1, false, false)
  const MarkerFrame: seq<Line> := [[Glyph(1), Marker], [Glyph(1)]]

  lemma {:induction false} MarkerAboveExample()
    ensures Synced(ShrunkTui, ShrunkTerm) && Fits(MarkerFrame, 5)
    ensures Prepare(MarkerFrame, 2) == Prepared(Some(Position(0, 1)), [A, A]) && 0 < ShrunkTerm.top
  {
    CellsOfOne(SEGMENT_RESET);
    CellsOfOne(Marker);
    assert Cells([Glyph(1)]) == [1];
    assert Synced(ShrunkTui, ShrunkTerm);
    assert Marker !in MarkerFrame[1] && Marker in MarkerFrame[0];
    assert MarkerRow(MarkerFrame, 0, 2) == 0;
    assert MarkerIndex(MarkerFrame[0]) == 1;
    var g: Line := [Glyph(1)];
    assert MarkerFrame[0][..1] == g && MarkerFrame[0][..1] + MarkerFrame[0][2..] == g;
    assert MarkerFrame[0 := g] == [g, g];
    assert ExtractCursor(MarkerFrame, 2) == Prepared(Some(Position(0, 1)), [g, g]);
    assert WithReset(g) == A;
  }

  lemma {:induction false} CellsOfOne(item: Item)
    requires !item.Glyph?
    ensures Cells([item]) == [] && Cells([Glyph(1), item]) == [1]
  {
    assert [Glyph(1), item][1..] == [item];
  }
}
