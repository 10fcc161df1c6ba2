/** Kitty images: after every render the images alive in the terminal are those of the frame. */
module RendererImages {
  import opened Basics
  import opened Terminal
  import opened Renderer
  import opened RendererProofs
  import opened RendererRuns

  function AliveAfter(images: set<nat>, op: Op): set<nat> {
    match op
    case Draw(Image(id)) => if id == 0 then images else images + {id}
    case DeleteImage(id) => images - {id}
    case _ => images
  }

  /** What operations do to the set of images alive. */
  function Alive(images: set<nat>, ops: seq<Op>): set<nat>
    decreases |ops|
  {
    if ops == [] then images else Alive(AliveAfter(images, ops[0]), ops[1..])
  }

  lemma {:induction false} RunAlive(t: Term, ops: seq<Op>)
    requires t.Valid()
    ensures Run(t, ops).images == Alive(t.images, ops)
    decreases |ops|
  {
    if ops != [] {
      RunAlive(Apply(t, ops[0]), ops[1..]);
    }
  }

  lemma {:induction false} AliveConcat(images: set<nat>, a: seq<Op>, b: seq<Op>)
    ensures Alive(images, a + b) == Alive(Alive(images, a), b)
    decreases |a|
  {
    if a == [] {
      assert a + b == b;
    } else {
      assert (a + b)[0] == a[0] && (a + b)[1..] == a[1..] + b;
      AliveConcat(AliveAfter(images, a[0]), a[1..], b);
    }
  }

  predicate Inert(ops: seq<Op>) {
    forall op :: op in ops ==> !op.Draw? && !op.DeleteImage?
  }

  lemma {:induction false} InertAlive(images: set<nat>, ops: seq<Op>)
    requires Inert(ops)
    ensures Alive(images, ops) == images
    decreases |ops|
  {
    if ops != [] {
      assert ops[0] in ops;
      InertAlive(images, ops[1..]);
    }
  }

  function Ids(ids: seq<nat>): set<nat> { set id | id in ids }

  lemma {:induction false} DeletesAlive(images: set<nat>, ids: seq<nat>)
    ensures Alive(images, Deletes(ids)) == images - Ids(ids)
    decreases |ids|
  {
    if ids != [] {
      assert Deletes(ids)[1..] == Deletes(ids[1..]);
      DeletesAlive(images - {ids[0]}, ids[1..]);
      assert Ids(ids) == {ids[0]} + Ids(ids[1..]);
    }
  }

  lemma {:induction false} DrawAlive(images: set<nat>, line: Line)
    ensures Alive(images, DrawLine(line)) == images + ImagesOf(line)
    decreases |line|
  {
    if line != [] {
      assert DrawLine(line)[1..] == DrawLine(line[1..]);
      DrawAlive(AliveAfter(images, Draw(line[0])), line[1..]);
      assert forall i :: i in line <==> i == line[0] || i in line[1..];
    }
  }

  function AllImages(lines: seq<Line>): set<nat> {
    set i, id | 0 <= i < |lines| && id in ImagesOf(lines[i]) :: id
  }

  lemma {:induction false} AllImagesConcat(a: seq<Line>, b: seq<Line>)
    ensures AllImages(a + b) == AllImages(a) + AllImages(b)
  {
    forall id ensures id in AllImages(a + b) <==> id in AllImages(a) + AllImages(b) {
      if id in AllImages(a) {
        var i :| 0 <= i < |a| && id in ImagesOf(a[i]);
        assert (a + b)[i] == a[i];
      }
      if id in AllImages(b) {
        var i :| 0 <= i < |b| && id in ImagesOf(b[i]);
        assert (a + b)[|a| + i] == b[i];
      }
      if id in AllImages(a + b) {
        var i :| 0 <= i < |a + b| && id in ImagesOf((a + b)[i]);
        assert i < |a| ==> id in ImagesOf(a[i]);
        assert i >= |a| ==> id in ImagesOf(b[i - |a|]);
      }
    }
  }

  lemma {:induction false} PaintAlive(images: set<nat>, lines: seq<Line>, erase: bool)
    ensures Alive(images, Paint(lines, erase)) == images + AllImages(lines)
    decreases |lines|
  {
    if lines != [] {
      var k := |lines| - 1;
      var init, line := lines[..k], lines[k];
      var sep := if k > 0 then NEWLINE else [];
      var e: seq<Op> := if erase then [EraseLine] else [];
      AliveConcat(images, Paint(init, erase) + sep, e + DrawLine(line));
      AliveConcat(images, Paint(init, erase), sep);
      PaintAlive(images, init, erase);
      InertAlive(images + AllImages(init), sep);
      AliveConcat(images + AllImages(init), e, DrawLine(line));
      InertAlive(images + AllImages(init), e);
      DrawAlive(images + AllImages(init), line);
      assert lines == init + [line];
      AllImagesConcat(init, [line]);
      assert AllImages([line]) == ImagesOf(line);
    }
  }

  // ----- What the renderer's id search finds

  /** A line carries at most one image and the id search finds it. */
  predicate Trackable(line: Line) {
    ImagesOf(line) == Ids(KittyIds(line))
  }

  /** No id occurs on two lines. */
  ghost predicate Apart(lines: seq<Line>) {
    forall i, j :: 0 <= i < j < |lines| ==> ImagesOf(lines[i]) !! ImagesOf(lines[j])
  }

  ghost predicate AllTrackable(lines: seq<Line>) { forall i :: 0 <= i < |lines| ==> Trackable(lines[i]) }

  /** Each line is trackable and no id occurs on two lines. */
  ghost predicate Tracked(lines: seq<Line>) { AllTrackable(lines) && Apart(lines) }

  /** The ids the search finds, line by line. */
  function Found(lines: seq<Line>): set<nat> {
    set i, id | 0 <= i < |lines| && id in KittyIds(lines[i]) :: id
  }

  lemma {:induction false} CollectsFound(lines: seq<Line>)
    ensures Ids(CollectIds(lines)) == Found(lines)
    decreases |lines|
  {
    if lines != [] {
      var k := |lines| - 1;
      CollectsFound(lines[..k]);
      forall id ensures id in Found(lines) <==> id in Found(lines[..k]) || id in KittyIds(lines[k]) {
        if id in Found(lines[..k]) {
          var i :| 0 <= i < k && id in KittyIds(lines[..k][i]);
          assert lines[i] == lines[..k][i];
        }
        if id in Found(lines) {
          var i :| 0 <= i < |lines| && id in KittyIds(lines[i]);
          assert i < k ==> id in KittyIds(lines[..k][i]);
        }
      }
      assert Ids(CollectIds(lines)) == Ids(CollectIds(lines[..k])) + Ids(KittyIds(lines[k]));
    }
  }

  lemma {:induction false} FoundIsThere(line: Line)
    ensures forall id :: id in KittyIds(line) ==> id in ImagesOf(line)
    decreases |line|
  {
    if line != [] {
      FoundIsThere(line[1..]);
      assert forall i :: i in line[1..] ==> i in line;
      assert line[0] in line;
    }
  }

  /** With the ids of different lines distinct, the record holds all images of a frame if and only if
      every line is trackable. */
  lemma {:induction false} CollectsExactly(lines: seq<Line>)
    requires Apart(lines)
    ensures Ids(CollectIds(lines)) == AllImages(lines) <==> AllTrackable(lines)
  {
    hide KittyIds, ImagesOf, CollectIds;
    CollectsFound(lines);
    if AllTrackable(lines) {
      CollectsAll(lines);
    } else {
      var i :| 0 <= i < |lines| && !Trackable(lines[i]);
      FoundIsThere(lines[i]);
      var id :| id in ImagesOf(lines[i]) && id !in Ids(KittyIds(lines[i]));
      if id in Found(lines) {
        var j :| 0 <= j < |lines| && id in KittyIds(lines[j]);
        FoundIsThere(lines[j]);
      }
      assert id in AllImages(lines);
    }
  }

  lemma {:induction false} CollectsAll(lines: seq<Line>)
    requires AllTrackable(lines)
    ensures Ids(CollectIds(lines)) == AllImages(lines)
  {
    hide KittyIds, ImagesOf, CollectIds;
    CollectsFound(lines);
    assert forall i, id :: 0 <= i < |lines| ==> (id in ImagesOf(lines[i]) <==> id in KittyIds(lines[i])) by {
      forall i, id | 0 <= i < |lines| ensures id in ImagesOf(lines[i]) <==> id in KittyIds(lines[i]) {
        assert Trackable(lines[i]);
      }
    }
  }

  /** A clearing redraw deletes what is on record and shows the frame; any other image stays. */
  lemma {:induction false} ClearLeaves(s: Tui, images: set<nat>, lines: seq<Line>)
    ensures Alive(images, FullOps(s, true, lines)) == (images - Ids(s.previousImages)) + AllImages(lines)
  {
    AliveConcat(images, Deletes(s.previousImages), CLEAR_ALL);
    DeletesAlive(images, s.previousImages);
    InertAlive(images - Ids(s.previousImages), CLEAR_ALL);
    AliveConcat(images, Deletes(s.previousImages) + CLEAR_ALL, Paint(lines, false));
    PaintAlive(images - Ids(s.previousImages), lines, false);
  }

  /** Two images on one line: only the first is on record, and the second outlives every redraw. */
  const PAIR: Line := [Image(1), Image(2)]

  lemma {:induction false} SecondImageLeaks(s: Tui)
    requires s.previousImages == CollectIds([PAIR])
    ensures Apart([PAIR]) && AllImages([PAIR]) == {1, 2} && Ids(s.previousImages) == {1}
    ensures Alive({1, 2}, FullOps(s, true, [])) == {2}
  {
    var one: seq<Line> := [PAIR];
    assert PAIR[0] == Image(1) && KittyIds(PAIR) == [1];
    assert one[..0] == [] && CollectIds(one) == [1];
    assert Image(1) in PAIR && Image(2) in PAIR && ImagesOf(PAIR) == {1, 2};
    assert one[0] == PAIR && AllImages(one) == {1, 2};
    ClearLeaves(s, {1, 2}, []);
    assert AllImages([]) == {} && {1, 2} - {1} == {2};
  }

  // ----- The invariant

  /** The ids on record are those alive and, unless a redraw was demanded, those of the last frame. */
  ghost predicate ImagesKnown(s: Tui, images: set<nat>) {
    && Ids(s.previousImages) == images
    && NonEmpty(s.previousLines) && Tracked(s.previousLines)
    && (s.previousWidth >= 0 ==> images == AllImages(s.previousLines))
    && (s.previousWidth < 0 ==> s.previousWidth == -1)
  }

  /** The images of the frame are alive, all of them are on record exactly when its lines are trackable,
      and the record is good for the next render when no id is on two lines either. */
  ghost predicate FrameAlive(images: set<nat>, o: Outcome, lines: seq<Line>) {
    && Alive(images, o.ops) == AllImages(lines)
    && (Apart(lines) ==> (Ids(o.tui.previousImages) == AllImages(lines) <==> AllTrackable(lines)))
    && (Tracked(lines) ==> ImagesKnown(o.tui, AllImages(lines)))
  }

  lemma {:induction false} FinishAlive(s: Tui, images: set<nat>, p: Prepared, ops: seq<Op>, width: nat, height: nat)
    requires NonEmpty(p.lines) && Alive(images, ops) == AllImages(p.lines)
    ensures FrameAlive(images, Finish(s, p, ops, width, height), p.lines)
      && Finish(s, p, ops, width, height).tui.stopped == s.stopped
  {
    var end := PositionCursor(s, p.cursor, |p.lines|).ops;
    AliveConcat(images, ops, end);
    InertAlive(AllImages(p.lines), end);
    if AllTrackable(p.lines) { CollectsAll(p.lines); }
    if Apart(p.lines) { CollectsExactly(p.lines); }
  }

  lemma {:induction false} FullAlive(s: Tui, images: set<nat>, clear: bool, lines: seq<Line>)
    requires if clear then Ids(s.previousImages) == images else images == {}
    ensures Alive(images, FullOps(s, clear, lines)) == AllImages(lines)
  {
    var wipe := if clear then Deletes(s.previousImages) + CLEAR_ALL else [];
    assert images - images == {};
    if clear {
      AliveConcat(images, Deletes(s.previousImages), CLEAR_ALL);
      DeletesAlive(images, s.previousImages);
      InertAlive({}, CLEAR_ALL);
    }
    AliveConcat(images, wipe, Paint(lines, false));
    PaintAlive({}, lines, false);
  }

  /** Deleting the changed range removes every image from `first` on and none above it. */
  lemma {:induction false} DeleteChangedAlive(lines: seq<Line>, first: nat, last: int)
    requires Tracked(lines) && first <= |lines| && first <= last
    requires forall i :: first <= i < |lines| && KittyIds(lines[i]) != [] ==> i <= last
    ensures Alive(AllImages(lines), DeleteChanged(lines, first, last)) == AllImages(lines[..first])
  {
    hide Alive, CollectIds;
    var end := Max(first, Min(last + 1, |lines|));
    ThreeParts(lines, first, end);
    var a, b := lines[..first], lines[first..end];
    CollectsAll(b);
    DeletesAlive(AllImages(lines), CollectIds(b));
  }

  lemma {:induction false} ThreeParts(lines: seq<Line>, first: nat, end: nat)
    requires Tracked(lines) && first <= end <= |lines|
    requires forall i :: end <= i < |lines| ==> KittyIds(lines[i]) == []
    ensures var a, b := lines[..first], lines[first..end];
      AllImages(lines) == AllImages(a) + AllImages(b) && AllImages(a) !! AllImages(b) && Tracked(b)
  {
    var a, b, c := lines[..first], lines[first..end], lines[end..];
    assert lines == a + b + c;
    AllImagesConcat(a + b, c);
    AllImagesConcat(a, b);
    forall i | 0 <= i < |c| ensures ImagesOf(c[i]) == {} {
      assert c[i] == lines[end + i] && Trackable(lines[end + i]);
    }
    assert forall i :: 0 <= i < |b| ==> b[i] == lines[first + i];
  }

  lemma {:induction false} RepeatInert(ops: seq<Op>, n: nat)
    requires Inert(ops)
    ensures Inert(Repeat(ops, n))
  {
    if n > 0 { RepeatInert(ops, n - 1); }
  }

  lemma {:induction false} EraseBelowInert(k: nat)
    ensures Inert(EraseBelow(k))
  {
    if k > 0 { EraseBelowInert(k - 1); }
  }

  lemma {:induction false} ClearRowsInert(k: nat, total: nat)
    ensures Inert(ClearRows(k, total))
  {
    if k > 0 { ClearRowsInert(k - 1, total); }
  }

  lemma {:induction false} ApproachInert(s: Tui, lines: seq<Line>, height: nat)
    ensures Inert(ApproachOps(s, lines, height))
  {
    var target := MoveTarget(s, lines);
    var bottom := s.previousViewportTop + height - 1;
    if target > bottom { RepeatInert(NEWLINE, target - bottom); }
  }

  lemma {:induction false} TrimInert(s: Tui, lines: seq<Line>)
    ensures Inert(TrimOps(s, lines))
  {
    if |s.previousLines| > |lines| { EraseBelowInert(|s.previousLines| - |lines|); }
  }

  lemma {:induction false} DeleteOnlyAlive(s: Tui, lines: seq<Line>)
    requires NonEmpty(s.previousLines) && Tracked(s.previousLines) && NonEmpty(lines)
    requires var first := ChangedRange(s.previousLines, lines).first; first != -1 && first >= |lines|
    ensures |lines| <= |s.previousLines|
    ensures Alive(AllImages(s.previousLines), DeleteOnlyOps(s, lines)) == AllImages(lines)
  {
    hide Alive, AllImages, ChangedRange, DeleteChanged, ClearRows, Move;
    RangeFacts(s.previousLines, lines);
    var r := ChangedRange(s.previousLines, lines);
    var images := AllImages(s.previousLines);
    var extra := |s.previousLines| - |lines|;
    var move := Move(s.hardwareCursorRow, Max(0, |lines| - 1)) + [CarriageReturn];
    var clearing: seq<Op> := if extra > 0 then [Down(1)] + ClearRows(extra, extra) + [Up(extra)] else [];
    var deletes := DeleteChanged(s.previousLines, r.first, r.last);
    ClearingInert(s.hardwareCursorRow, Max(0, |lines| - 1), extra);
    DeleteChangedAlive(s.previousLines, r.first, r.last);
    AliveConcat(images, deletes + move, clearing);
    AliveConcat(images, deletes, move);
    assert s.previousLines[..r.first] == lines;
    InertAlive(AllImages(lines), move);
    InertAlive(AllImages(lines), clearing);
  }

  lemma {:induction false} ClearingInert(from: int, to: int, extra: nat)
    ensures Inert(Move(from, to) + [CarriageReturn])
    ensures Inert(if extra > 0 then [Down(1)] + ClearRows(extra, extra) + [Up(extra)] else [])
  {
    ClearRowsInert(extra, extra);
  }

  /** Lines below the repainted range carry no image: they did not change and the range was expanded
      to cover every image of the old frame. */
  lemma {:induction false} NoImageBelow(s: Tui, lines: seq<Line>)
    requires NonEmpty(s.previousLines) && NonEmpty(lines) && Tracked(s.previousLines)
    requires 0 <= ChangedRange(s.previousLines, lines).first <= RenderEnd(s, lines) < |lines|
    ensures AllImages(lines[RenderEnd(s, lines) + 1..]) == {}
  {
    RangeFacts(s.previousLines, lines);
    var end := RenderEnd(s, lines);
    var tail := lines[end + 1..];
    forall i | 0 <= i < |tail| ensures ImagesOf(tail[i]) == {} {
      var j := end + 1 + i;
      assert tail[i] == lines[j] == s.previousLines[j] && Trackable(s.previousLines[j]);
    }
  }

  lemma {:induction false} OpsAlive(images: set<nat>, deletes: seq<Op>, approach: seq<Op>, part: seq<Line>,
      trim: seq<Op>, kept: set<nat>)
    requires Alive(images, deletes) == kept && Inert(approach) && Inert(trim)
    ensures Alive(images, deletes + approach + Paint(part, true) + trim) == kept + AllImages(part)
  {
    hide Alive, Paint;
    AliveConcat(images, deletes + approach + Paint(part, true), trim);
    AliveConcat(images, deletes + approach, Paint(part, true));
    AliveConcat(images, deletes, approach);
    InertAlive(kept, approach);
    PaintAlive(kept, part, true);
    InertAlive(kept + AllImages(part), trim);
  }

  lemma {:induction false} SplitImages(lines: seq<Line>, first: nat, end: nat)
    requires first <= end <= |lines| && AllImages(lines[end..]) == {}
    ensures AllImages(lines) == AllImages(lines[..first]) + AllImages(lines[first..end])
  {
    assert lines == lines[..first] + lines[first..end] + lines[end..];
    AllImagesConcat(lines[..first] + lines[first..end], lines[end..]);
    AllImagesConcat(lines[..first], lines[first..end]);
  }

  lemma {:induction false} DiffDeletesAlive(s: Tui, lines: seq<Line>)
    requires NonEmpty(s.previousLines) && Tracked(s.previousLines) && NonEmpty(lines)
    requires ChangedRange(s.previousLines, lines).first != -1
    ensures var r := ChangedRange(s.previousLines, lines);
      0 <= r.first <= |lines|
      && Alive(AllImages(s.previousLines), DeleteChanged(s.previousLines, r.first, r.last))
           == AllImages(lines[..r.first])
  {
    RangeFacts(s.previousLines, lines);
    var r := ChangedRange(s.previousLines, lines);
    DeleteChangedAlive(s.previousLines, r.first, r.last);
    assert s.previousLines[..r.first] == lines[..r.first];
  }

  lemma {:induction false} DiffAlive(s: Tui, lines: seq<Line>, height: nat)
    requires NonEmpty(s.previousLines) && Tracked(s.previousLines) && NonEmpty(lines)
    requires var first := ChangedRange(s.previousLines, lines).first; first != -1 && first < |lines|
    ensures Alive(AllImages(s.previousLines), DiffOps(s, lines, height)) == AllImages(lines)
  {
    hide ApproachOps, TrimOps, DeleteChanged, Paint, Alive, AllImages, ChangedRange, NonEmpty, Tracked;
    RangeFacts(s.previousLines, lines);
    DiffDeletesAlive(s, lines);
    NoImageBelow(s, lines);
    var r := ChangedRange(s.previousLines, lines);
    var end := RenderEnd(s, lines);
    ApproachInert(s, lines, height);
    TrimInert(s, lines);
    OpsAlive(AllImages(s.previousLines), DeleteChanged(s.previousLines, r.first, r.last), ApproachOps(s, lines, height),
             lines[r.first..end + 1], TrimOps(s, lines), AllImages(lines[..r.first]));
    SplitImages(lines, r.first, end + 1);
  }

  // ----- Renders and runs

  /** Items that are no images do not affect what the id search finds. */
  lemma {:induction false} SkipsOthers(a: Line, item: Item, b: Line)
    requires !item.Image?
    ensures KittyIds(a + [item] + b) == KittyIds(a + b)
    ensures ImagesOf(a + [item] + b) == ImagesOf(a + b)
    decreases |a|
  {
    if a == [] {
      assert a + [item] + b == [item] + b && ([item] + b)[1..] == b && a + b == b;
    } else {
      assert (a + [item] + b)[1..] == a[1..] + [item] + b && (a + b)[1..] == a[1..] + b;
      if !a[0].Image? { SkipsOthers(a[1..], item, b); }
    }
    assert forall i :: i in a + [item] + b <==> i == item || i in a + b;
  }

  lemma {:induction false} ResetKeepsImages(line: Line)
    ensures KittyIds(WithReset(line)) == KittyIds(line) && ImagesOf(WithReset(line)) == ImagesOf(line)
  {
    SkipsOthers(line, SEGMENT_RESET, []);
    assert line + [SEGMENT_RESET] + [] == line + [SEGMENT_RESET] && line + [] == line;
  }

  lemma {:induction false} PrepareKeepsImages(frame: seq<Line>, height: nat)
    ensures var p := Prepare(frame, height);
      && |p.lines| == |frame| && AllImages(p.lines) == AllImages(frame)
      && (AllTrackable(p.lines) <==> AllTrackable(frame)) && (Apart(p.lines) <==> Apart(frame))
  {
    var p := Prepare(frame, height);
    var row := MarkerRow(frame, Max(0, |frame| - height), |frame|);
    forall i | 0 <= i < |frame|
      ensures KittyIds(p.lines[i]) == KittyIds(frame[i]) && ImagesOf(p.lines[i]) == ImagesOf(frame[i])
    {
      ResetKeepsImages(ExtractCursor(frame, height).lines[i]);
      if i == row {
        var k := MarkerIndex(frame[i]);
        SkipsOthers(frame[i][..k], Marker, frame[i][k + 1..]);
        assert frame[i] == frame[i][..k] + [Marker] + frame[i][k + 1..];
      }
    }
    assert forall i :: 0 <= i < |frame| ==> Trackable(frame[i]) == Trackable(p.lines[i]);
  }

  /** After a render from a right record the images alive are exactly those of the frame, whatever the
      frame, whichever path was taken and wherever the cursor was. With the ids of different lines
      distinct the new record is complete if and only if the id search finds every image. */
  lemma {:induction false} RenderKeepsImages(s: Tui, images: set<nat>, frame: seq<Line>, width: nat, height: nat,
      overlays: bool)
    requires ImagesKnown(s, images) && !s.stopped
    requires var p := Prepare(frame, height); !ChoosePath(s, p.lines, width, height, overlays).Overlong?
    ensures var o := DoRender(s, frame, width, height, overlays); FrameAlive(images, o, frame) && !o.tui.stopped
  {
    hide Prepare, Cells, Alive, ChangedRange, AllImages, FullOps, DiffOps, DeleteOnlyOps, NonEmpty, AfterDiff, Finish;
    hide AllTrackable, Apart;
    PrepareFacts(frame, height);
    PrepareKeepsImages(frame, height);
    var p := Prepare(frame, height);
    RangeFacts(s.previousLines, p.lines);
    match ChoosePath(s, p.lines, width, height, overlays)
    case FirstPaint => FirstAlive(s, images, p, width, height);
    case Clear =>
      FullAlive(s, images, true, p.lines);
      FinishAlive(AfterFull(s, true, |p.lines|, height), images, p, FullOps(s, true, p.lines), width, height);
    case Unchanged =>
      UnchangedAlive(s, images, p, height);
    case DeleteOnly =>
      DeleteOnlyAlive(s, p.lines);
      FinishAlive(s.(hardwareCursorRow := Max(0, |p.lines| - 1)), images, p, DeleteOnlyOps(s, p.lines), width, height);
    case Differential =>
      DiffAlive(s, p.lines, height);
      AfterDiffRuns(s, p.lines, height);
      FinishAlive(AfterDiff(s, p.lines, height), images, p, DiffOps(s, p.lines, height), width, height);
  }

  lemma {:induction false} UnchangedAlive(s: Tui, images: set<nat>, p: Prepared, height: nat)
    requires ImagesKnown(s, images) && p.lines == s.previousLines && s.previousWidth >= 0
    ensures var o := PositionCursor(s, p.cursor, |p.lines|);
      FrameAlive(images, Outcome(o.tui.(previousHeight := height), o.ops), p.lines)
  {
    InertAlive(images, PositionCursor(s, p.cursor, |p.lines|).ops);
  }

  lemma {:induction false} FirstAlive(s: Tui, images: set<nat>, p: Prepared, width: nat, height: nat)
    requires ImagesKnown(s, images) && s.previousLines == [] && s.previousWidth >= 0
    requires NonEmpty(p.lines)
    ensures var o := FullRender(s, false, p, width, height);
      FrameAlive(images, o, p.lines) && o.tui.stopped == s.stopped
  {
    assert AllImages([]) == {};
    FullAlive(s, images, false, p.lines);
    FinishAlive(AfterFull(s, false, |p.lines|, height), images, p, FullOps(s, false, p.lines), width, height);
  }

  /** A frame within the width with distinct image ids; a resize loses no image. */
  ghost predicate KeepsTrack(w: World, e: Event) {
    match e
    case Frame(lines, _) => Fits(lines, w.term.width) && Tracked(lines)
    case Demand => true
    case Resize(to) => to.Valid() && to.images == w.term.images
  }

  lemma {:induction false} FitsNeverOverlong(s: Tui, frame: seq<Line>, width: nat, height: nat, overlays: bool)
    requires Fits(frame, width)
    ensures !ChoosePath(s, Prepare(frame, height).lines, width, height, overlays).Overlong?
  {
    hide Cells, ChangedRange, Prepare;
    PrepareFacts(frame, height);
    PaintFits(frame, Prepare(frame, height).lines, width);
  }

  /** Over whole runs the images alive after a frame are those of the frame; nothing leaks and
      nothing shown is deleted. What is asked of earlier frames is not asked of the last one. */
  lemma {:induction false} RunKeepsImages(w: World, events: seq<Event>, k: nat)
    requires Initial(w) && w.term.images == {} && ResizesValid(events) && k <= |events|
    requires forall i :: 0 <= i < k ==> KeepsTrack(After(w, events, i), events[i])
    ensures var v := After(w, events, k); ImagesKnown(v.tui, v.term.images) && !v.tui.stopped
    ensures k < |events| && events[k].Frame? && Fits(events[k].lines, After(w, events, k).term.width) ==>
      After(w, events, k + 1).term.images == AllImages(events[k].lines)
    decreases k
  {
    hide Step, ImagesKnown, KeepsTrack, AllImages, Fits;
    if k == 0 {
      StartKnown(w);
    } else {
      RunKeepsImages(w, events, k - 1);
      StepKnown(After(w, events, k - 1), events[k - 1]);
    }
    if k < |events| && events[k].Frame? && Fits(events[k].lines, After(w, events, k).term.width) {
      FrameImages(After(w, events, k), events[k]);
    }
  }

  lemma {:induction false} StartKnown(w: World)
    requires Initial(w) && w.term.images == {}
    ensures ImagesKnown(w.tui, w.term.images) && !w.tui.stopped
  {
    assert AllImages([]) == {};
  }

  lemma {:induction false} StepKnown(v: World, e: Event)
    requires v.term.Valid() && (e.Resize? ==> e.to.Valid()) && KeepsTrack(v, e) && ImagesKnown(v.tui, v.term.images)
      && !v.tui.stopped
    ensures var u := Step(v, e); ImagesKnown(u.tui, u.term.images) && !u.tui.stopped
  {
    hide Run, Cells, DoRender, Tracked, NonEmpty, AllImages;
    if e.Frame? { FrameImages(v, e); }
    if e.Demand? { DemandKnown(v); }
  }

  lemma {:induction false} DemandKnown(v: World)
    requires ImagesKnown(v.tui, v.term.images)
    ensures ImagesKnown(Force(v.tui), v.term.images)
  {
  }

  lemma {:induction false} FrameImages(v: World, e: Event)
    requires v.term.Valid() && e.Frame? && Fits(e.lines, v.term.width) && ImagesKnown(v.tui, v.term.images)
      && !v.tui.stopped
    ensures var u := Step(v, e);
      && u.term.images == AllImages(e.lines) && !u.tui.stopped
      && (Tracked(e.lines) ==> ImagesKnown(u.tui, u.term.images))
  {
    hide Run, Cells, DoRender, Prepare, Alive, ChoosePath, ImagesKnown, AllTrackable, Apart;
    FitsNeverOverlong(v.tui, e.lines, v.term.width, v.term.height, e.overlays);
    RenderKeepsImages(v.tui, v.term.images, e.lines, v.term.width, v.term.height, e.overlays);
    RunAlive(v.term, DoRender(v.tui, e.lines, v.term.width, v.term.height, e.overlays).ops);
  }
}
